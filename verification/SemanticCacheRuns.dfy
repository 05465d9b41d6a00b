/** What every run of the semantic cache keeps. */
module SemanticCacheRuns {
  import opened Options
  import opened TextOrder
  import opened SemanticCache

  // -------------------------------------------------------------------------
  // The table
  // -------------------------------------------------------------------------

  predicate Ordered(rows: seq<Item>) {
    forall i, j :: 0 <= i < j < |rows| ==> Less(rows[i].notePath, rows[j].notePath)
  }

  predicate HasPath(items: seq<Item>, path: string) {
    exists i :: 0 <= i < |items| && items[i].notePath == path
  }

  predicate DistinctPaths(items: seq<Item>) {
    forall i, j :: 0 <= i < j < |items| ==> items[i].notePath != items[j].notePath
  }

  lemma OrderedCons(first: Item, rest: seq<Item>)
    requires Ordered(rest) && (rest != [] ==> Less(first.notePath, rest[0].notePath))
    ensures Ordered([first] + rest)
  {
    var all := [first] + rest;
    forall i, j | 0 <= i < j < |all| ensures Less(all[i].notePath, all[j].notePath) {
      if i == 0 && j > 1 { LessTransitive(first.notePath, rest[0].notePath, rest[j - 1].notePath); }
    }
  }

  /** An insert succeeds exactly when the key is new, keeps the key order, and adds that row. */
  lemma {:induction false} InsertRowKeeps(rows: seq<Item>, item: Item)
    requires Ordered(rows)
    ensures InsertRow(rows, item).Some? <==> !HasPath(rows, item.notePath)
    ensures InsertRow(rows, item).Some? ==>
              var longer := InsertRow(rows, item).value;
              && longer != [] && Ordered(longer) && multiset(longer) == multiset(rows) + multiset{item}
              && (longer[0] == item || (rows != [] && longer[0] == rows[0]))
  {
    if rows != [] {
      var first, rest := rows[0], rows[1..];
      assert rows == [first] + rest;
      LessTotal(item.notePath, first.notePath);
      InsertRowKeeps(rest, item);
      if item.notePath == first.notePath {
        assert HasPath(rows, item.notePath);
      } else if Less(item.notePath, first.notePath) {
        OrderedCons(item, rows);
        SmallerIsNew(rows, item);
      } else {
        LaterPath(first, rest, item.notePath);
        if InsertRow(rest, item).Some? { OrderedCons(first, InsertRow(rest, item).value); }
      }
    }
  }

  lemma LaterPath(first: Item, rest: seq<Item>, path: string)
    requires first.notePath != path
    ensures HasPath([first] + rest, path) <==> HasPath(rest, path)
  {
    if HasPath(rest, path) {
      var i :| 0 <= i < |rest| && rest[i].notePath == path;
      assert ([first] + rest)[i + 1].notePath == path;
    }
  }

  lemma SmallerIsNew(rows: seq<Item>, item: Item)
    requires Ordered(rows) && rows != [] && Less(item.notePath, rows[0].notePath)
    ensures !HasPath(rows, item.notePath)
  {
    forall i | 0 <= i < |rows| ensures rows[i].notePath != item.notePath {
      LessTotal(item.notePath, rows[0].notePath);
      if i > 0 { LessTotal(item.notePath, rows[i].notePath); LessTransitive(item.notePath, rows[0].notePath, rows[i].notePath); }
    }
  }

  /** A snapshot can be stored exactly when no note appears twice; the rows are then its items in key order. */
  lemma {:induction false} InsertRowsKeeps(items: seq<Item>)
    ensures InsertRows(items).Some? <==> DistinctPaths(items)
    ensures InsertRows(items).Some? ==> Ordered(InsertRows(items).value) && multiset(InsertRows(items).value) == multiset(items)
  {
    if items != [] {
      var before, last := items[..|items| - 1], items[|items| - 1];
      assert items == before + [last];
      InsertRowsKeeps(before);
      if InsertRows(before).Some? {
        InsertRowKeeps(InsertRows(before).value, last);
        SamePaths(InsertRows(before).value, before, last.notePath);
      }
    }
  }

  lemma SamePaths(a: seq<Item>, b: seq<Item>, path: string)
    requires multiset(a) == multiset(b)
    ensures HasPath(a, path) <==> HasPath(b, path)
  {
    if HasPath(a, path) { var i :| 0 <= i < |a| && a[i].notePath == path; assert a[i] in multiset(b); assert a[i] in b; }
    if HasPath(b, path) { var i :| 0 <= i < |b| && b[i].notePath == path; assert b[i] in multiset(a); assert b[i] in a; }
  }

  // -------------------------------------------------------------------------
  // Invalidations
  // -------------------------------------------------------------------------

  /** Number of invalidations among the first `n` steps. */
  function Invalidations(es: seq<Event>, n: nat): nat
    requires n <= |es|
  {
    if n == 0 then 0 else Invalidations(es, n - 1) + (if es[n - 1].ForceRefresh? then 1 else 0)
  }

  ghost predicate NoInvalidation(es: seq<Event>, from: nat, to: nat)
    requires to <= |es|
  {
    forall k :: from <= k < to ==> !es[k].ForceRefresh?
  }

  lemma {:induction false} InvalidationsGrow(es: seq<Event>, from: nat, to: nat)
    requires from <= to <= |es|
    ensures Invalidations(es, from) <= Invalidations(es, to)
    ensures Invalidations(es, from) == Invalidations(es, to) <==> NoInvalidation(es, from, to)
  {
    if from < to {
      InvalidationsGrow(es, from, to - 1);
      if NoInvalidation(es, from, to) { assert NoInvalidation(es, from, to - 1); }
    }
  }

  // -------------------------------------------------------------------------
  // The invariant
  // -------------------------------------------------------------------------

  predicate Running(s: State, a: nat, kind: Kind) {
    a < |s.attempts| && s.attempts[a].kind == kind && !s.attempts[a].phase.Finished?
  }

  /** The pending fields name the running attempts, and the marker is set exactly while there is one. */
  ghost predicate LoadsOk(s: State) {
    && (forall a: nat :: Running(s, a, Refresh) <==> s.service.pendingSnapshot == Some(a))
    && (forall a: nat :: Running(s, a, Validation) <==> s.service.pendingReadiness == Some(a))
    && (s.service.loadStartedAt.Some? <==> s.service.pendingSnapshot.Some? || s.service.pendingReadiness.Some?)
    && (s.service.loadStartedAt.Some? ==> MarkerOk(s))
  }

  /** The marker is the start of the attempt that found no load pending; everything still running started after it. */
  ghost predicate MarkerOk(s: State) {
    && s.markedBy < |s.attempts| && s.service.loadStartedAt == Some(s.attempts[s.markedBy].startedAt)
    && (s.service.pendingSnapshot.Some? ==> s.markedBy <= s.service.pendingSnapshot.value)
    && (s.service.pendingReadiness.Some? ==> s.markedBy <= s.service.pendingReadiness.value)
  }

  ghost predicate AttemptOk(es: seq<Event>, s: State, a: nat)
    requires a < |s.attempts| && s.steps <= |es|
  {
    var t := s.attempts[a];
    && t.began < s.steps && t.generation == Invalidations(es, t.began)
    && match t.phase
       case Scanning => true
       case Reading(scan, scannedAt, r, owner) =>
         && r < |s.loads| && s.loads[r].signature == scan.signature && s.loads[r].generation == t.generation
         && t.began <= scannedAt < s.steps && ScannedBy(es, scannedAt, a, scan)
       case Settled(answer) => AnswerOk(s, a, answer)
       case Finished(answer) => AnswerOk(s, a, answer)
  }

  ghost predicate ScannedBy(es: seq<Event>, k: nat, a: nat, scan: Scan)
    requires k < |es|
  {
    es[k].Scanned? && es[k].attempt == a && es[k].scan == scan
  }

  predicate AnswerOk(s: State, a: nat, answer: Answer)
    requires a < |s.attempts|
  {
    match answer
    case Answered(p) =>
      s.attempts[a].kind.Refresh? && p < |s.published| && s.published[p].attempt == a && s.published[p].began == s.attempts[a].began
    case Validated(value, evidence) => s.attempts[a].kind.Validation? && value.vectorCount > 0 && EvidenceOk(s, a, value, evidence)
    case Failed => true
  }

  predicate EvidenceOk(s: State, a: nat, value: Readiness, evidence: Evidence)
    requires a < |s.attempts|
  {
    evidence.SourceRead? ==>
      && evidence.read < |s.loads| && s.loads[evidence.read].generation == s.attempts[a].generation
      && ReadGave(s, evidence.read) && CountValid(s.loads[evidence.read].result.value.items) == value.vectorCount
  }

  predicate ReadGave(s: State, r: nat) {
    r < |s.loads| && s.loads[r].result.Some? && s.loads[r].result.value.Items?
  }

  ghost predicate AttemptsOk(es: seq<Event>, s: State)
    requires s.steps <= |es|
  {
    forall a :: 0 <= a < |s.attempts| ==> AttemptOk(es, s, a)
  }

  /** A read carries the generation of the attempt that started it, which invalidations may have overtaken. */
  ghost predicate ReadsOk(es: seq<Event>, s: State)
    requires s.steps <= |es|
  {
    forall r :: 0 <= r < |s.loads| ==> s.loads[r].begun < s.steps && s.loads[r].generation <= Invalidations(es, s.loads[r].begun)
  }

  predicate SourceOk(s: State) {
    s.service.pendingSource.Some? ==>
      var p := s.service.pendingSource.value;
      p.read < |s.loads| && s.loads[p.read].generation == p.generation && s.loads[p.read].signature == p.signature
  }

  /** The stored rows and manifest are those of one snapshot, whatever their order. */
  ghost predicate Describes(db: Database, snapshot: Snapshot) {
    && db.manifest.Some? && db.manifest.value.signature == snapshot.signature && db.manifest.value.fileCount == snapshot.fileCount
    && db.manifest.value.vectorCount == snapshot.vectorCount == |snapshot.items| && db.manifest.value.refreshedAt == snapshot.refreshedAt
    && Ordered(db.rows) && multiset(db.rows) == multiset(snapshot.items)
  }

  ghost predicate SameSnapshot(a: Snapshot, b: Snapshot) {
    && a.signature == b.signature && a.fileCount == b.fileCount && a.vectorCount == b.vectorCount
    && a.refreshedAt == b.refreshedAt && multiset(a.items) == multiset(b.items)
  }

  ghost predicate OriginOk(db0: Database, s: State, i: nat)
    requires i < |s.published|
  {
    var p := s.published[i];
    match p.origin
    case FromMemory(q) => q < i && s.published[q].snapshot == p.snapshot
    case FromRows(writer) =>
      if writer.Some?
      then writer.value < i && s.published[writer.value].origin.FromSource? && SameSnapshot(p.snapshot, s.published[writer.value].snapshot)
      else db0.manifest.Some? && p.snapshot == StoredSnapshot(db0)
    case FromSource(r) =>
      && ReadGave(s, r) && p.snapshot.items == s.loads[r].result.value.items && p.snapshot.vectorCount == |p.snapshot.items|
      && s.loads[r].signature == p.scan.signature && p.snapshot.fileCount == p.scan.fileCount
  }

  /** No invalidation between the beginning of the attempt and its answer, nor since what the answer rests on. */
  ghost predicate PublicationOk(es: seq<Event>, s: State, i: nat)
    requires i < |s.published| && s.steps <= |es|
  {
    var p := s.published[i];
    && p.began <= p.scannedAt <= p.at < s.steps
    && Invalidations(es, p.began) == Invalidations(es, p.at)
    && ScannedBy(es, p.scannedAt, p.attempt, p.scan) && p.snapshot.signature == p.scan.signature
    && (p.origin.FromSource? && p.origin.read < |s.loads| ==>
          s.loads[p.origin.read].begun < p.at && s.loads[p.origin.read].generation == Invalidations(es, p.at))
    && (p.origin.FromMemory? && p.origin.earlier < i ==>
          && s.published[p.origin.earlier].at < p.at
          && Invalidations(es, s.published[p.origin.earlier].at) == Invalidations(es, p.at))
  }

  ghost predicate PublicationsOk(es: seq<Event>, db0: Database, s: State)
    requires s.steps <= |es|
  {
    && (forall i :: 0 <= i < |s.published| ==> OriginOk(db0, s, i))
    && (forall i :: 0 <= i < |s.published| ==> PublicationOk(es, s, i))
  }

  /** A snapshot in memory was published since the last invalidation. */
  ghost predicate MemoryOk(es: seq<Event>, s: State)
    requires s.steps <= |es|
  {
    s.service.memory.Some? ==>
      && s.memoryFrom < |s.published| && s.published[s.memoryFrom].snapshot == s.service.memory.value
      && s.published[s.memoryFrom].at < s.steps
      && Invalidations(es, s.published[s.memoryFrom].at) == Invalidations(es, s.steps)
  }

  ghost predicate RowsOk(db0: Database, s: State) {
    match s.rowsFrom
    case None => s.service.db == db0
    case Some(q) => q < |s.published| && s.published[q].origin.FromSource? && Describes(s.service.db, s.published[q].snapshot)
  }

  ghost predicate ReadinessOk(es: seq<Event>, s: State)
    requires s.steps <= |es|
  {
    s.service.readiness.Some? ==>
      && s.readinessFrom < |s.attempts| && s.attempts[s.readinessFrom].generation == Invalidations(es, s.steps)
      && HasValidated(s.attempts[s.readinessFrom], s.service.readiness.value)
  }

  predicate HasValidated(t: Attempt, value: Readiness) {
    (t.phase.Settled? || t.phase.Finished?) && t.phase.answer.Validated? && t.phase.answer.value == value
  }

  ghost predicate Inv(es: seq<Event>, db0: Database, s: State) {
    && s.steps <= |es| && s.service.refreshGeneration == Invalidations(es, s.steps)
    && LoadsOk(s) && AttemptsOk(es, s) && ReadsOk(es, s) && SourceOk(s)
    && PublicationsOk(es, db0, s) && MemoryOk(es, s) && RowsOk(db0, s) && ReadinessOk(es, s)
  }

  // -------------------------------------------------------------------------
  // Every step keeps it
  // -------------------------------------------------------------------------

  /** The step taken is the one the run lists at this position. */
  ghost predicate Now(es: seq<Event>, db0: Database, s: State, e: Event) {
    Inv(es, db0, s) && s.steps < |es| && es[s.steps] == e && Enabled(s, e)
  }

  /** What a step never takes back. */
  ghost predicate Grows(s: State, s': State) {
    && s'.steps == s.steps + 1 && |s.attempts| <= |s'.attempts| && |s.loads| <= |s'.loads|
    && (forall r :: 0 <= r < |s.loads| ==> ReadGrows(s.loads[r], s'.loads[r]))
    && s.published <= s'.published
  }

  predicate ReadGrows(r: Read, r': Read) {
    r'.generation == r.generation && r'.signature == r.signature && r'.begun == r.begun && (r.result.Some? ==> r' == r)
  }

  lemma AttemptStays(es: seq<Event>, s: State, s': State, a: nat)
    requires s.steps < |es| && Grows(s, s') && a < |s.attempts| && s'.attempts[a] == s.attempts[a] && AttemptOk(es, s, a)
    ensures AttemptOk(es, s', a)
  {
    match s.attempts[a].phase
    case Scanning =>
    case Reading(_, _, _, _) =>
    case Settled(answer) => AnswerStays(s, s', a, answer);
    case Finished(answer) => AnswerStays(s, s', a, answer);
  }

  lemma AnswerStays(s: State, s': State, a: nat, answer: Answer)
    requires Grows(s, s') && a < |s.attempts| && AnswerOk(s, a, answer)
    requires s'.attempts[a].kind == s.attempts[a].kind && s'.attempts[a].generation == s.attempts[a].generation
    requires s'.attempts[a].began == s.attempts[a].began
    ensures AnswerOk(s', a, answer)
  {
    if answer.Answered? { assert s'.published[answer.publication] == s.published[answer.publication]; }
  }

  lemma OthersStay(es: seq<Event>, s: State, s': State, changed: int)
    requires s.steps < |es| && Grows(s, s') && AttemptsOk(es, s)
    requires forall b :: 0 <= b < |s.attempts| && b != changed ==> s'.attempts[b] == s.attempts[b]
    ensures forall b :: 0 <= b < |s.attempts| && b != changed ==> AttemptOk(es, s', b)
  {
    forall b | 0 <= b < |s.attempts| && b != changed ensures AttemptOk(es, s', b) { AttemptStays(es, s, s', b); }
  }

  lemma OriginStays(db0: Database, s: State, s': State, i: nat)
    requires Grows(s, s') && i < |s.published| && OriginOk(db0, s, i)
    ensures OriginOk(db0, s', i)
  {
    var p := s.published[i];
    assert s'.published[i] == p;
    match p.origin
    case FromMemory(q) => assert s'.published[q] == s.published[q];
    case FromRows(writer) => if writer.Some? { assert s'.published[writer.value] == s.published[writer.value]; }
    case FromSource(r) => assert ReadGrows(s.loads[r], s'.loads[r]);
  }

  lemma PublicationStays(es: seq<Event>, db0: Database, s: State, s': State, i: nat)
    requires s.steps < |es| && Grows(s, s') && i < |s.published| && OriginOk(db0, s, i) && PublicationOk(es, s, i)
    ensures PublicationOk(es, s', i)
  {
    var p := s.published[i];
    assert s'.published[i] == p;
    match p.origin
    case FromMemory(q) => assert s'.published[q] == s.published[q];
    case FromRows(_) =>
    case FromSource(r) => assert ReadGrows(s.loads[r], s'.loads[r]);
  }

  lemma PublicationsStay(es: seq<Event>, db0: Database, s: State, s': State)
    requires s.steps < |es| && Grows(s, s') && PublicationsOk(es, db0, s)
    ensures forall i :: 0 <= i < |s.published| ==> OriginOk(db0, s', i) && PublicationOk(es, s', i)
  {
    forall i | 0 <= i < |s.published| ensures OriginOk(db0, s', i) && PublicationOk(es, s', i) {
      OriginStays(db0, s, s', i);
      PublicationStays(es, db0, s, s', i);
    }
  }

  lemma QueryKeeps(es: seq<Event>, db0: Database, s: State, now: int)
    requires Now(es, db0, s, Query(now))
    ensures Inv(es, db0, Apply(s, Query(now)))
  {
    var s' := Apply(s, Query(now));
    OthersStay(es, s, s', -1);
    PublicationsStay(es, db0, s, s');
    assert |s'.attempts| > |s.attempts| ==> AttemptOk(es, s', |s.attempts|);
    QueryLoads(s, now);
  }

  lemma QueryLoads(s: State, now: int)
    requires LoadsOk(s)
    ensures LoadsOk(DoQuery(s, now))
  {
    var s' := DoQuery(s, now);
    if QueryReply(s.service, now) == Starts {
      forall a: nat ensures Running(s', a, Refresh) <==> s'.service.pendingSnapshot == Some(a) {
        assert Running(s, a, Refresh) <==> s.service.pendingSnapshot == Some(a);
      }
      forall a: nat ensures Running(s', a, Validation) <==> s'.service.pendingReadiness == Some(a) {
        assert Running(s, a, Validation) <==> s.service.pendingReadiness == Some(a);
      }
    }
  }

  lemma ProbeKeeps(es: seq<Event>, db0: Database, s: State, now: int)
    requires Now(es, db0, s, Probe(now))
    ensures Inv(es, db0, Apply(s, Probe(now)))
  {
    var s' := Apply(s, Probe(now));
    OthersStay(es, s, s', -1);
    PublicationsStay(es, db0, s, s');
    assert |s'.attempts| > |s.attempts| ==> AttemptOk(es, s', |s.attempts|);
    ProbeLoads(s, now);
  }

  lemma ProbeLoads(s: State, now: int)
    requires LoadsOk(s)
    ensures LoadsOk(DoProbe(s, now))
  {
    var s' := DoProbe(s, now);
    if ProbeReply(s.service, now) == Starts {
      forall a: nat ensures Running(s', a, Refresh) <==> s'.service.pendingSnapshot == Some(a) {
        assert Running(s, a, Refresh) <==> s.service.pendingSnapshot == Some(a);
      }
      forall a: nat ensures Running(s', a, Validation) <==> s'.service.pendingReadiness == Some(a) {
        assert Running(s, a, Validation) <==> s.service.pendingReadiness == Some(a);
      }
    }
  }

  /** An attempt that moves on without ending keeps the pending fields right. */
  lemma MovedLoads(s: State, s': State, a: nat)
    requires LoadsOk(s) && a < |s.attempts| && |s'.attempts| == |s.attempts| && !s.attempts[a].phase.Finished?
    requires forall b :: 0 <= b < |s.attempts| && b != a ==> s'.attempts[b] == s.attempts[b]
    requires s'.attempts[a].kind == s.attempts[a].kind && !s'.attempts[a].phase.Finished?
    requires s'.attempts[a].startedAt == s.attempts[a].startedAt && s'.markedBy == s.markedBy
    requires s'.service.pendingSnapshot == s.service.pendingSnapshot && s'.service.pendingReadiness == s.service.pendingReadiness
    requires s'.service.loadStartedAt == s.service.loadStartedAt
    ensures LoadsOk(s')
  {
    forall b: nat ensures Running(s', b, Refresh) <==> s'.service.pendingSnapshot == Some(b) {
      assert Running(s, b, Refresh) <==> s.service.pendingSnapshot == Some(b);
    }
    forall b: nat ensures Running(s', b, Validation) <==> s'.service.pendingReadiness == Some(b) {
      assert Running(s, b, Validation) <==> s.service.pendingReadiness == Some(b);
    }
  }

  ghost predicate SameHistory(s: State, s': State) {
    && s'.published == s.published && s'.memoryFrom == s.memoryFrom && s'.rowsFrom == s.rowsFrom
    && s'.service.db == s.service.db && s'.service.memory == s.service.memory
  }

  /** A step of one attempt that publishes nothing; what remains to show is the attempt, the reads and the readiness. */
  lemma QuietStep(es: seq<Event>, db0: Database, s: State, s': State, a: nat)
    requires Inv(es, db0, s) && s.steps < |es| && !es[s.steps].ForceRefresh? && Grows(s, s') && SameHistory(s, s')
    requires s'.service.refreshGeneration == s.service.refreshGeneration
    requires a < |s.attempts| && |s'.attempts| == |s.attempts|
    requires forall b :: 0 <= b < |s.attempts| && b != a ==> s'.attempts[b] == s.attempts[b]
    requires AttemptOk(es, s', a) && LoadsOk(s') && ReadsOk(es, s') && SourceOk(s') && ReadinessOk(es, s')
    ensures Inv(es, db0, s')
  {
    OthersStay(es, s, s', a);
    PublicationsStay(es, db0, s, s');
  }

  /** The readiness does not rest on an attempt that is still running. */
  lemma ReadinessStays(es: seq<Event>, s: State, s': State, a: nat)
    requires s.steps < |es| && !es[s.steps].ForceRefresh? && s'.steps == s.steps + 1 && ReadinessOk(es, s)
    requires a < |s.attempts| && |s'.attempts| == |s.attempts| && s'.service.readiness == s.service.readiness
    requires s'.readinessFrom == s.readinessFrom
    requires forall b :: 0 <= b < |s.attempts| && b != a ==> s'.attempts[b] == s.attempts[b]
    requires s.attempts[a].phase.Scanning? || s.attempts[a].phase.Reading?
    ensures ReadinessOk(es, s')
  {
  }

  lemma RestartKeeps(es: seq<Event>, db0: Database, s: State, a: nat)
    requires Inv(es, db0, s) && s.steps < |es| && !es[s.steps].ForceRefresh?
    requires a < |s.attempts| && (s.attempts[a].phase.Scanning? || s.attempts[a].phase.Reading?)
    ensures Inv(es, db0, Restart(s, a).(steps := s.steps + 1))
  {
    var s' := Restart(s, a).(steps := s.steps + 1);
    MovedLoads(s, s', a);
    ReadinessStays(es, s, s', a);
    QuietStep(es, db0, s, s', a);
  }

  lemma FailedKeeps(es: seq<Event>, db0: Database, s: State, a: nat)
    requires Inv(es, db0, s) && s.steps < |es| && !es[s.steps].ForceRefresh?
    requires a < |s.attempts| && (s.attempts[a].phase.Scanning? || s.attempts[a].phase.Reading?)
    ensures Inv(es, db0, Goto(s, a, Settled(Failed)).(steps := s.steps + 1))
  {
    var s' := Goto(s, a, Settled(Failed)).(steps := s.steps + 1);
    assert AttemptOk(es, s, a);
    MovedLoads(s, s', a);
    ReadinessStays(es, s, s', a);
    QuietStep(es, db0, s, s', a);
  }

  lemma LoadSourceKeeps(es: seq<Event>, db0: Database, s: State, a: nat, scan: Scan)
    requires Inv(es, db0, s) && s.steps < |es| && ScannedBy(es, s.steps, a, scan)
    requires a < |s.attempts| && s.attempts[a].phase.Scanning?
    ensures Inv(es, db0, DoLoadSource(s, a, scan).(steps := s.steps + 1))
  {
    var s' := DoLoadSource(s, a, scan).(steps := s.steps + 1);
    assert AttemptOk(es, s, a);
    MovedLoads(s, s', a);
    ReadinessStays(es, s, s', a);
    InvalidationsGrow(es, s.attempts[a].began, s.steps);
    assert AttemptOk(es, s', a);
    QuietStep(es, db0, s, s', a);
  }

  lemma ValidateKeeps(es: seq<Event>, db0: Database, s: State, a: nat, items: seq<Item>, evidence: Evidence, now: int)
    requires Inv(es, db0, s) && s.steps < |es| && !es[s.steps].ForceRefresh?
    requires a < |s.attempts| && (s.attempts[a].phase.Scanning? || s.attempts[a].phase.Reading?) && s.attempts[a].kind.Validation?
    requires evidence.SourceRead? ==>
               && s.attempts[a].phase.Reading? && evidence.read == s.attempts[a].phase.read
               && ReadGave(s, evidence.read) && s.loads[evidence.read].result.value.items == items
    ensures Inv(es, db0, Validate(s, a, items, evidence, now).(steps := s.steps + 1))
  {
    if s.attempts[a].generation != s.service.refreshGeneration {
      RestartKeeps(es, db0, s, a);
    } else if CountValid(items) == 0 {
      FailedKeeps(es, db0, s, a);
    } else {
      var s' := Validate(s, a, items, evidence, now).(steps := s.steps + 1);
      assert AttemptOk(es, s, a);
      MovedLoads(s, s', a);
      assert AttemptOk(es, s', a);
      QuietStep(es, db0, s, s', a);
    }
  }

  /** The parts of the invariant that a published snapshot must meet. */
  lemma PublishKeeps(es: seq<Event>, db0: Database, s: State, s0: State, a: nat, scan: Scan, scannedAt: nat, snapshot: Snapshot, origin: Origin, now: int)
    requires Inv(es, db0, s) && s.steps < |es| && !es[s.steps].ForceRefresh?
    requires s0 == s.(service := s.service.(db := s0.service.db), rowsFrom := s0.rowsFrom)
    requires a < |s.attempts| && s.attempts[a].kind.Refresh? && (s.attempts[a].phase.Scanning? || s.attempts[a].phase.Reading?)
    requires s.attempts[a].generation == s.service.refreshGeneration
    requires s.attempts[a].began <= scannedAt <= s.steps && ScannedBy(es, scannedAt, a, scan) && snapshot.signature == scan.signature
    requires var s' := Publish(s0, a, scan, scannedAt, snapshot, origin, now).(steps := s.steps + 1);
             OriginOk(db0, s', |s.published|) && PublicationOk(es, s', |s.published|) && RowsOk(db0, s')
    ensures Inv(es, db0, Publish(s0, a, scan, scannedAt, snapshot, origin, now).(steps := s.steps + 1))
  {
    var s' := Publish(s0, a, scan, scannedAt, snapshot, origin, now).(steps := s.steps + 1);
    assert AttemptOk(es, s, a);
    assert Grows(s, s');
    MovedLoads(s, s', a);
    ReadinessStays(es, s, s', a);
    OthersStay(es, s, s', a);
    PublicationsStay(es, db0, s, s');
    assert AttemptOk(es, s', a);
  }

  lemma HeldKeeps(es: seq<Event>, db0: Database, s: State, a: nat, scan: Scan, now: int)
    requires Inv(es, db0, s) && s.steps < |es| && ScannedBy(es, s.steps, a, scan)
    requires a < |s.attempts| && s.attempts[a].kind.Refresh? && s.attempts[a].phase.Scanning?
    requires s.attempts[a].generation == s.service.refreshGeneration
    requires s.service.memory.Some? && s.service.memory.value.signature == scan.signature
    ensures Inv(es, db0, Publish(s, a, scan, s.steps, s.service.memory.value, FromMemory(s.memoryFrom), now).(steps := s.steps + 1))
  {
    assert AttemptOk(es, s, a);
    PublishKeeps(es, db0, s, s, a, scan, s.steps, s.service.memory.value, FromMemory(s.memoryFrom), now);
  }

  lemma LoadedKeeps(es: seq<Event>, db0: Database, s: State, a: nat, scan: Scan, now: int)
    requires Inv(es, db0, s) && s.steps < |es| && ScannedBy(es, s.steps, a, scan)
    requires a < |s.attempts| && s.attempts[a].kind.Refresh? && s.attempts[a].phase.Scanning?
    requires s.attempts[a].generation == s.service.refreshGeneration && Stored(s.service, scan)
    ensures Inv(es, db0, Publish(s, a, scan, s.steps, StoredSnapshot(s.service.db), FromRows(s.rowsFrom), now).(steps := s.steps + 1))
  {
    assert AttemptOk(es, s, a);
    PublishKeeps(es, db0, s, s, a, scan, s.steps, StoredSnapshot(s.service.db), FromRows(s.rowsFrom), now);
  }

  lemma ScannedKeeps(es: seq<Event>, db0: Database, s: State, a: nat, scan: Scan, readable: bool, now: int)
    requires Now(es, db0, s, Scanned(a, scan, readable, now))
    ensures Inv(es, db0, Apply(s, Scanned(a, scan, readable, now)))
  {
    if s.attempts[a].kind.Refresh? { RefreshScannedKeeps(es, db0, s, a, scan, readable, now); }
    else { ValidationScannedKeeps(es, db0, s, a, scan, readable, now); }
  }

  lemma RefreshScannedKeeps(es: seq<Event>, db0: Database, s: State, a: nat, scan: Scan, readable: bool, now: int)
    requires Now(es, db0, s, Scanned(a, scan, readable, now)) && s.attempts[a].kind.Refresh?
    ensures Inv(es, db0, DoScanned(s, a, scan, readable, now).(steps := s.steps + 1))
  {
    match RefreshFinds(s.service, s.attempts[a].generation, scan, readable)
    case Again => RestartKeeps(es, db0, s, a);
    case Held(_) => HeldKeeps(es, db0, s, a, scan, now);
    case Loaded(_) => LoadedKeeps(es, db0, s, a, scan, now);
    case Missing => LoadSourceKeeps(es, db0, s, a, scan);
  }

  lemma ValidationScannedKeeps(es: seq<Event>, db0: Database, s: State, a: nat, scan: Scan, readable: bool, now: int)
    requires Now(es, db0, s, Scanned(a, scan, readable, now)) && s.attempts[a].kind.Validation?
    ensures Inv(es, db0, DoScanned(s, a, scan, readable, now).(steps := s.steps + 1))
  {
    if Stored(s.service, scan) && readable { ValidateKeeps(es, db0, s, a, s.service.db.rows, Rows, now); }
    else { LoadSourceKeeps(es, db0, s, a, scan); }
  }

  lemma PersistDescribes(db: Database, directory: string, items: seq<Item>, scan: Scan, now: int, fault: Option<nat>)
    requires Persist(db, directory, items, scan, now, fault).Some?
    ensures Describes(Persist(db, directory, items, scan, now, fault).value, SourceSnapshot(items, scan, now))
  {
    InsertRowsKeeps(items);
  }

  lemma PersistedKeeps(es: seq<Event>, db0: Database, s: State, a: nat, fault: Option<nat>, now: int)
    requires Now(es, db0, s, Resumed(a, fault, now))
    requires s.attempts[a].kind.Refresh? && s.attempts[a].generation == s.service.refreshGeneration
    requires ReadGave(s, s.attempts[a].phase.read)
    requires Persist(s.service.db, s.service.directory, s.loads[s.attempts[a].phase.read].result.value.items, s.attempts[a].phase.scan, now, fault).Some?
    ensures Inv(es, db0, Apply(s, Resumed(a, fault, now)))
  {
    var phase := s.attempts[a].phase;
    var items := s.loads[phase.read].result.value.items;
    PersistDescribes(s.service.db, s.service.directory, items, phase.scan, now, fault);
    var db := Persist(s.service.db, s.service.directory, items, phase.scan, now, fault).value;
    var s0 := s.(service := s.service.(db := db), rowsFrom := Some(|s.published|));
    assert AttemptOk(es, s, a);
    PublishKeeps(es, db0, s, s0, a, phase.scan, phase.scannedAt, SourceSnapshot(items, phase.scan, now), FromSource(phase.read), now);
  }

  lemma ResumedKeeps(es: seq<Event>, db0: Database, s: State, a: nat, fault: Option<nat>, now: int)
    requires Now(es, db0, s, Resumed(a, fault, now))
    ensures Inv(es, db0, Apply(s, Resumed(a, fault, now)))
  {
    var attempt := s.attempts[a];
    var contents := s.loads[attempt.phase.read].result.value;
    if contents.Unreadable? {
      FailedKeeps(es, db0, s, a);
    } else if attempt.kind.Validation? {
      ValidateKeeps(es, db0, s, a, contents.items, SourceRead(attempt.phase.read), now);
    } else if attempt.generation != s.service.refreshGeneration {
      RestartKeeps(es, db0, s, a);
    } else if Persist(s.service.db, s.service.directory, contents.items, attempt.phase.scan, now, fault).None? {
      FailedKeeps(es, db0, s, a);
    } else {
      PersistedKeeps(es, db0, s, a, fault, now);
    }
  }

  lemma ReadEndsKeeps(es: seq<Event>, db0: Database, s: State, r: nat, contents: Contents)
    requires Now(es, db0, s, ReadEnds(r, contents))
    ensures Inv(es, db0, Apply(s, ReadEnds(r, contents)))
  {
    var s' := Apply(s, ReadEnds(r, contents));
    OthersStay(es, s, s', -1);
    PublicationsStay(es, db0, s, s');
    SameLoads(s, s');
  }

  lemma SameLoads(s: State, s': State)
    requires LoadsOk(s) && s'.attempts == s.attempts && s'.markedBy == s.markedBy && s'.service.loadStartedAt == s.service.loadStartedAt
    requires s'.service.pendingSnapshot == s.service.pendingSnapshot && s'.service.pendingReadiness == s.service.pendingReadiness
    ensures LoadsOk(s')
  {
    assert forall a: nat, kind :: Running(s', a, kind) == Running(s, a, kind);
  }

  lemma SourceReleasedKeeps(es: seq<Event>, db0: Database, s: State, a: nat)
    requires Now(es, db0, s, SourceReleased(a))
    ensures Inv(es, db0, Apply(s, SourceReleased(a)))
  {
    var s' := Apply(s, SourceReleased(a));
    assert AttemptOk(es, s, a);
    MovedLoads(s, s', a);
    ReadinessStays(es, s, s', a);
    QuietStep(es, db0, s, s', a);
  }

  lemma EndedKeeps(es: seq<Event>, db0: Database, s: State, a: nat)
    requires Now(es, db0, s, Ended(a))
    ensures Inv(es, db0, Apply(s, Ended(a)))
  {
    var s' := Apply(s, Ended(a));
    assert AttemptOk(es, s, a);
    AnswerStays(s, s', a, s.attempts[a].phase.answer);
    EndedLoads(s, a);
    EndedReadiness(es, s, a);
    QuietStep(es, db0, s, s', a);
  }

  lemma EndedReadiness(es: seq<Event>, s: State, a: nat)
    requires s.steps < |es| && !es[s.steps].ForceRefresh? && Enabled(s, Ended(a)) && ReadinessOk(es, s)
    ensures ReadinessOk(es, Apply(s, Ended(a)))
    ensures var sv, sv' := s.service, DoEnded(s, a).service;
            && sv'.db == sv.db && sv'.memory == sv.memory && sv'.refreshGeneration == sv.refreshGeneration
            && sv'.pendingSource == sv.pendingSource
  {
  }

  lemma EndedLoads(s: State, a: nat)
    requires LoadsOk(s) && Enabled(s, Ended(a))
    ensures LoadsOk(DoEnded(s, a))
  {
    var s' := DoEnded(s, a);
    assert Running(s, a, s.attempts[a].kind);
    forall b: nat ensures Running(s', b, Refresh) <==> s'.service.pendingSnapshot == Some(b) {
      assert Running(s, b, Refresh) <==> s.service.pendingSnapshot == Some(b);
    }
    forall b: nat ensures Running(s', b, Validation) <==> s'.service.pendingReadiness == Some(b) {
      assert Running(s, b, Validation) <==> s.service.pendingReadiness == Some(b);
    }
  }

  lemma ForceRefreshKeeps(es: seq<Event>, db0: Database, s: State)
    requires Now(es, db0, s, ForceRefresh)
    ensures Inv(es, db0, Apply(s, ForceRefresh))
  {
    var s' := Apply(s, ForceRefresh);
    OthersStay(es, s, s', -1);
    PublicationsStay(es, db0, s, s');
    SameLoads(s, s');
  }

  lemma StepKeeps(es: seq<Event>, db0: Database, s: State, e: Event)
    requires Now(es, db0, s, e)
    ensures Inv(es, db0, Apply(s, e))
  {
    match e
    case Query(now) => QueryKeeps(es, db0, s, now);
    case Probe(now) => ProbeKeeps(es, db0, s, now);
    case Scanned(a, scan, readable, now) => ScannedKeeps(es, db0, s, a, scan, readable, now);
    case ScanFailed(a) => FailedKeeps(es, db0, s, a);
    case ReadEnds(r, contents) => ReadEndsKeeps(es, db0, s, r, contents);
    case SourceReleased(a) => SourceReleasedKeeps(es, db0, s, a);
    case Resumed(a, fault, now) => ResumedKeeps(es, db0, s, a, fault, now);
    case Ended(a) => EndedKeeps(es, db0, s, a);
    case ForceRefresh => ForceRefreshKeeps(es, db0, s);
  }

  ghost predicate From(t: Trace, directory: string, ttl: nat, db0: Database) {
    Run(t, Start(directory, ttl, db0))
  }

  lemma {:induction false} ReachableKeeps(t: Trace, directory: string, ttl: nat, db0: Database, i: nat)
    requires From(t, directory, ttl, db0) && i < |t.states|
    ensures t.states[i].steps == i && Inv(t.events, db0, t.states[i])
  {
    if i > 0 {
      ReachableKeeps(t, directory, ttl, db0, i - 1);
      assert Steps(t.states[i - 1], t.events[i - 1], t.states[i]);
      StepKeeps(t.events, db0, t.states[i - 1], t.events[i - 1]);
    }
  }

  // -------------------------------------------------------------------------
  // What holds in every run
  // -------------------------------------------------------------------------

  /**
   A snapshot is answered only if no invalidation occurred since its attempt began, and carries the signature
   that very attempt scanned. Items taken from the sources come from a read of that signature that no
   invalidation separates from the answer either.
   */
  lemma PublishedWithoutInvalidation(t: Trace, directory: string, ttl: nat, db0: Database, i: nat, p: nat)
    requires From(t, directory, ttl, db0) && i < |t.states| && p < |t.states[i].published|
    ensures var s := t.states[i]; var pub := s.published[p];
            && pub.began <= pub.scannedAt <= pub.at < i
            && NoInvalidation(t.events, pub.began, pub.at)
            && ScannedBy(t.events, pub.scannedAt, pub.attempt, pub.scan) && pub.snapshot.signature == pub.scan.signature
            && (pub.origin.FromSource? ==>
                  && ReadGave(s, pub.origin.read) && s.loads[pub.origin.read].result.value.items == pub.snapshot.items
                  && s.loads[pub.origin.read].signature == pub.scan.signature
                  && s.loads[pub.origin.read].begun < pub.at && NoInvalidation(t.events, s.loads[pub.origin.read].begun, pub.at))
  {
    ReachableKeeps(t, directory, ttl, db0, i);
    var s := t.states[i];
    var pub := s.published[p];
    assert OriginOk(db0, s, p) && PublicationOk(t.events, s, p);
    InvalidationsGrow(t.events, pub.began, pub.at);
    if pub.origin.FromSource? { InvalidationsGrow(t.events, s.loads[pub.origin.read].begun, pub.at); }
  }

  /** The snapshot in memory was answered after the last invalidation, by an attempt that also began after it. */
  lemma MemoryIsCurrent(t: Trace, directory: string, ttl: nat, db0: Database, i: nat)
    requires From(t, directory, ttl, db0) && i < |t.states| && t.states[i].service.memory.Some?
    ensures var s := t.states[i];
            && s.memoryFrom < |s.published| && s.published[s.memoryFrom].snapshot == s.service.memory.value
            && s.published[s.memoryFrom].began < i && NoInvalidation(t.events, s.published[s.memoryFrom].began, i)
  {
    ReachableKeeps(t, directory, ttl, db0, i);
    var s := t.states[i];
    assert PublicationOk(t.events, s, s.memoryFrom);
    InvalidationsGrow(t.events, s.published[s.memoryFrom].began, i);
  }

  /** The manifest and the rows are those the database started with, or exactly one snapshot read from the sources. */
  lemma StoredCopyIsOneSnapshot(t: Trace, directory: string, ttl: nat, db0: Database, i: nat)
    requires From(t, directory, ttl, db0) && i < |t.states|
    ensures t.states[i].service.db == db0
            || exists q :: 0 <= q < |t.states[i].published| && t.states[i].published[q].origin.FromSource?
                           && Describes(t.states[i].service.db, t.states[i].published[q].snapshot)
  {
    ReachableKeeps(t, directory, ttl, db0, i);
  }

  /** Whatever path a snapshot took, its items were read from the sources under the signature now scanned, or stored before this process. */
  lemma {:induction false} EveryAnswerHasASource(t: Trace, directory: string, ttl: nat, db0: Database, i: nat, p: nat)
    requires From(t, directory, ttl, db0) && i < |t.states| && p < |t.states[i].published|
    ensures var s := t.states[i]; var pub := s.published[p];
            || (db0.manifest.Some? && SameSnapshot(pub.snapshot, StoredSnapshot(db0)) && db0.manifest.value.signature == pub.scan.signature)
            || exists q :: 0 <= q <= p && s.published[q].origin.FromSource? && SameSnapshot(pub.snapshot, s.published[q].snapshot)
                           && s.published[q].scan.signature == pub.scan.signature
  {
    ReachableKeeps(t, directory, ttl, db0, i);
    var s := t.states[i];
    var pub := s.published[p];
    assert OriginOk(db0, s, p) && PublicationOk(t.events, s, p);
    match pub.origin
    case FromSource(_) =>
    case FromRows(writer) => if writer.Some? { assert PublicationOk(t.events, s, writer.value); }
    case FromMemory(q) => EveryAnswerHasASource(t, directory, ttl, db0, i, q); assert PublicationOk(t.events, s, q);
  }

  /** The load marker is set exactly while a load is pending, and at most one refresh and one validation run at a time. */
  lemma MarkerWhilePending(t: Trace, directory: string, ttl: nat, db0: Database, i: nat, a: nat, b: nat)
    requires From(t, directory, ttl, db0) && i < |t.states|
    ensures var s := t.states[i];
            && (s.service.loadStartedAt.Some? <==> exists c: nat, kind :: Running(s, c, kind))
            && forall kind :: Running(s, a, kind) && Running(s, b, kind) ==> a == b
  {
    ReachableKeeps(t, directory, ttl, db0, i);
    var s := t.states[i];
    if s.service.pendingSnapshot.Some? { assert Running(s, s.service.pendingSnapshot.value, Refresh); }
    if s.service.pendingReadiness.Some? { assert Running(s, s.service.pendingReadiness.value, Validation); }
    forall c: nat, kind | Running(s, c, kind) ensures s.service.loadStartedAt.Some? { OneOfAKind(s, c, c, kind); }
    forall kind | Running(s, a, kind) && Running(s, b, kind) ensures a == b { OneOfAKind(s, a, b, kind); }
  }

  lemma OneOfAKind(s: State, a: nat, b: nat, kind: Kind)
    requires LoadsOk(s) && Running(s, a, kind) && Running(s, b, kind)
    ensures a == b && s.service.loadStartedAt.Some?
  {
    match kind
    case Refresh => assert s.service.pendingSnapshot == Some(a) && s.service.pendingSnapshot == Some(b);
    case Validation => assert s.service.pendingReadiness == Some(a) && s.service.pendingReadiness == Some(b);
  }

  /** The attempt is the oldest load still in flight. */
  ghost predicate OldestRunning(s: State, a: nat) {
    (exists kind :: Running(s, a, kind)) && forall b: nat, kind :: Running(s, b, kind) ==> a <= b
  }

  /** The marker's load is the oldest one in flight exactly while that load itself has not ended. */
  lemma MarkerIsOldestIff(t: Trace, directory: string, ttl: nat, db0: Database, i: nat)
    requires From(t, directory, ttl, db0) && i < |t.states| && t.states[i].service.loadStartedAt.Some?
    ensures var s := t.states[i];
            && s.markedBy < |s.attempts| && s.service.loadStartedAt == Some(s.attempts[s.markedBy].startedAt)
            && (OldestRunning(s, s.markedBy) <==> !s.attempts[s.markedBy].phase.Finished?)
  {
    ReachableKeeps(t, directory, ttl, db0, i);
    var s := t.states[i];
    forall b: nat, kind | Running(s, b, kind) ensures s.markedBy <= b { AfterMarker(s, b, kind); }
    if !s.attempts[s.markedBy].phase.Finished? { assert Running(s, s.markedBy, s.attempts[s.markedBy].kind); }
  }

  lemma AfterMarker(s: State, b: nat, kind: Kind)
    requires LoadsOk(s) && Running(s, b, kind)
    ensures s.markedBy <= b
  {
    match kind
    case Refresh => assert s.service.pendingSnapshot == Some(b);
    case Validation => assert s.service.pendingReadiness == Some(b);
  }

  // -------------------------------------------------------------------------
  // What the caller of a query gets
  // -------------------------------------------------------------------------

  function AnswerOf(t: Attempt): Option<Answer> {
    if t.phase.Settled? || t.phase.Finished? then Some(t.phase.answer) else None
  }

  /** Attempt `a` answers its callers with publication `p`. */
  predicate AnswersWith(s: State, a: nat, p: nat) {
    a < |s.attempts| && p < |s.published| && AnswerOf(s.attempts[a]) == Some(Answered(p))
  }

  predicate Unanswered(s: State, a: nat) { a < |s.attempts| ==> AnswerOf(s.attempts[a]).None? }

  /** The attempt behind the snapshot began after every invalidation before step `j`. */
  ghost predicate CurrentAt(es: seq<Event>, pub: Publication, j: nat)
    requires j <= |es|
  {
    forall k :: 0 <= k < j && es[k].ForceRefresh? ==> k < pub.began
  }

  /** To be seen at the call: the refresh has its answer already, and was of a generation that is over. */
  predicate Overtaken(s: State, a: nat) {
    && a < |s.attempts| && s.attempts[a].phase.Settled? && s.attempts[a].phase.answer.Answered?
    && s.attempts[a].generation != s.service.refreshGeneration
  }

  /** An answer once given stays, and one given now is the publication of this step. */
  lemma AnswerStep(s: State, e: Event, a: nat)
    requires Enabled(s, e)
    ensures AnswersKept(s, Act(s, e), a)
  {
    match e
    case Query(_) =>
    case Probe(_) =>
    case Scanned(b, scan, readable, now) => ScannedAnswers(s, b, scan, readable, now, a);
    case ScanFailed(_) =>
    case ReadEnds(_, _) =>
    case SourceReleased(_) =>
    case Resumed(b, fault, now) => ResumedAnswers(s, b, fault, now, a);
    case Ended(_) =>
    case ForceRefresh =>
  }

  /** Publications and attempts only grow, and an answer attempt `a` has given stays. */
  ghost predicate AnswerHeld(s: State, s': State, a: nat) {
    && s.published <= s'.published && |s.attempts| <= |s'.attempts|
    && (a < |s.attempts| && AnswerOf(s.attempts[a]).Some? ==> AnswerOf(s'.attempts[a]) == AnswerOf(s.attempts[a]))
  }

  ghost predicate AnswersKept(s: State, s': State, a: nat) {
    && AnswerHeld(s, s', a)
    && (Unanswered(s, a) ==> forall p: nat :: AnswersWith(s', a, p) ==> s'.published[p].at == s.steps)
  }

  lemma StaysFurther(s: State, m: State, s': State, a: nat)
    requires AnswerHeld(s, m, a) && AnswerHeld(m, s', a)
    ensures AnswerHeld(s, s', a)
  {
  }

  lemma ScannedAnswers(s: State, b: nat, scan: Scan, readable: bool, now: int, a: nat)
    requires Enabled(s, Scanned(b, scan, readable, now))
    ensures AnswersKept(s, DoScanned(s, b, scan, readable, now), a)
  {
  }

  lemma ResumedAnswers(s: State, b: nat, fault: Option<nat>, now: int, a: nat)
    requires Enabled(s, Resumed(b, fault, now))
    ensures AnswersKept(s, DoResumed(s, b, fault, now), a)
  {
  }

  lemma {:induction false} AnswersStay(t: Trace, first: State, j: nat, i: nat, a: nat)
    requires Run(t, first) && j <= i < |t.states|
    ensures AnswerHeld(t.states[j], t.states[i], a)
  {
    if j < i {
      var m, s' := t.states[i - 1], t.states[i];
      AnswersStay(t, first, j, i - 1, a);
      assert Steps(m, t.events[i - 1], s');
      AnswerStep(m, t.events[i - 1], a);
      StaysFurther(t.states[j], m, s', a);
    }
  }

  /** An attempt without an answer before step `j` publishes at that step or later. */
  lemma {:induction false} AnsweredLater(t: Trace, directory: string, ttl: nat, db0: Database, j: nat, i: nat, a: nat, p: nat)
    requires From(t, directory, ttl, db0) && j <= i < |t.states| && Unanswered(t.states[j], a) && AnswersWith(t.states[i], a, p)
    ensures t.states[i].published[p].at >= j
  {
    if j < i {
      var s := t.states[i - 1];
      assert Steps(s, t.events[i - 1], t.states[i]);
      AnswerStep(s, t.events[i - 1], a);
      ReachableKeeps(t, directory, ttl, db0, i - 1);
      if !Unanswered(s, a) {
        assert AttemptOk(t.events, s, a);
        AnsweredLater(t, directory, ttl, db0, j, i - 1, a, p);
      }
    } else {
      assert false;
    }
  }

  /** An answer that came after the call is of an attempt that began after every invalidation before the call. */
  lemma LaterIsCurrent(t: Trace, directory: string, ttl: nat, db0: Database, j: nat, i: nat, p: nat)
    requires From(t, directory, ttl, db0) && j <= i < |t.states| && p < |t.states[i].published| && j <= t.states[i].published[p].at
    ensures CurrentAt(t.events, t.states[i].published[p], j)
  {
    PublishedWithoutInvalidation(t, directory, ttl, db0, i, p);
  }

  /** An answer given before the call is current exactly when its generation is not over. */
  lemma EarlierIsCurrentIff(t: Trace, directory: string, ttl: nat, db0: Database, j: nat, a: nat, p: nat)
    requires From(t, directory, ttl, db0) && j < |t.states| && AnswersWith(t.states[j], a, p)
    ensures CurrentAt(t.events, t.states[j].published[p], j) <==> t.states[j].attempts[a].generation == t.states[j].service.refreshGeneration
  {
    ReachableKeeps(t, directory, ttl, db0, j);
    var s := t.states[j];
    assert AttemptOk(t.events, s, a);
    var began := s.published[p].began;
    InvalidationsGrow(t.events, began, j);
    if CurrentAt(t.events, s.published[p], j) {
      forall k | began <= k < j ensures !t.events[k].ForceRefresh? {}
    }
  }

  /** Without a directory nothing is ever started, published or stored; the directory never changes. */
  lemma {:induction false} NothingRuns(t: Trace, directory: string, ttl: nat, db0: Database, i: nat)
    requires From(t, directory, ttl, db0) && i < |t.states|
    ensures var s := t.states[i];
            && s.service.directory == directory
            && (directory == "" ==> s.attempts == [] && s.loads == [] && s.published == [] && s.service.db == db0)
  {
    if i > 0 {
      NothingRuns(t, directory, ttl, db0, i - 1);
      assert Steps(t.states[i - 1], t.events[i - 1], t.states[i]);
    }
  }

  /**
   A query is refused when no directory is configured, and otherwise gets a snapshot whose attempt began after every earlier invalidation: when it is answered at once, when
   it starts the refresh, and when it joins one, unless at the call that refresh already has its answer from a
   generation that is over.
   */
  lemma CallerIsCurrentIff(t: Trace, directory: string, ttl: nat, db0: Database, j: nat, i: nat, p: nat)
    requires From(t, directory, ttl, db0) && j < i < |t.states| && t.events[j].Query?
    ensures var s, s' := t.states[j], t.states[i];
            match QueryReply(s.service, t.events[j].now)
            case NotConfigured => s'.attempts == [] && s'.published == [] && s'.service.db == db0
            case AtOnce =>
              && s.service.memory.Some? && s.memoryFrom < |s.published| && s.published[s.memoryFrom].snapshot == s.service.memory.value
              && CurrentAt(t.events, s.published[s.memoryFrom], j)
            case Starts => AnswersWith(s', |s.attempts|, p) ==> CurrentAt(t.events, s'.published[p], j)
            case Joins(a) => AnswersWith(s', a, p) ==> (CurrentAt(t.events, s'.published[p], j) <==> !Overtaken(s, a))
  {
    var s, s' := t.states[j], t.states[i];
    match QueryReply(s.service, t.events[j].now)
    case NotConfigured =>
      NothingRuns(t, directory, ttl, db0, j);
      NothingRuns(t, directory, ttl, db0, i);
    case AtOnce => MemoryIsCurrent(t, directory, ttl, db0, j);
    case Starts =>
      if AnswersWith(s', |s.attempts|, p) {
        AnsweredLater(t, directory, ttl, db0, j, i, |s.attempts|, p);
        LaterIsCurrent(t, directory, ttl, db0, j, i, p);
      }
    case Joins(a) => if AnswersWith(s', a, p) { JoinerIsCurrentIff(t, directory, ttl, db0, j, i, a, p); }
  }

  lemma JoinerIsCurrentIff(t: Trace, directory: string, ttl: nat, db0: Database, j: nat, i: nat, a: nat, p: nat)
    requires From(t, directory, ttl, db0) && j < i < |t.states| && t.states[j].service.pendingSnapshot == Some(a) && AnswersWith(t.states[i], a, p)
    ensures CurrentAt(t.events, t.states[i].published[p], j) <==> !Overtaken(t.states[j], a)
  {
    var s := t.states[j];
    ReachableKeeps(t, directory, ttl, db0, j);
    assert Running(s, a, Refresh);
    if Unanswered(s, a) {
      AnsweredLater(t, directory, ttl, db0, j, i, a, p);
      LaterIsCurrent(t, directory, ttl, db0, j, i, p);
    } else {
      AnswersStay(t, Start(directory, ttl, db0), j, i, a);
      assert AttemptOk(t.events, s, a);
      assert AnswersWith(s, a, p) && t.states[i].published[p] == s.published[p];
      EarlierIsCurrentIff(t, directory, ttl, db0, j, a, p);
    }
  }

  /** Attempts share a read only for the same generation and signature. */
  lemma SharedReads(t: Trace, directory: string, ttl: nat, db0: Database, i: nat, a: nat, b: nat)
    requires From(t, directory, ttl, db0) && i < |t.states| && a < |t.states[i].attempts| && b < |t.states[i].attempts|
    requires var s := t.states[i];
             s.attempts[a].phase.Reading? && s.attempts[b].phase.Reading? && s.attempts[a].phase.read == s.attempts[b].phase.read
    ensures var s := t.states[i];
            && s.attempts[a].generation == s.attempts[b].generation
            && s.attempts[a].phase.scan.signature == s.attempts[b].phase.scan.signature
  {
    ReachableKeeps(t, directory, ttl, db0, i);
    assert AttemptOk(t.events, t.states[i], a) && AttemptOk(t.events, t.states[i], b);
  }

  /** A readiness kept by a probe counts usable vectors, and was validated since the last invalidation. */
  lemma ReadinessIsCurrent(t: Trace, directory: string, ttl: nat, db0: Database, i: nat)
    requires From(t, directory, ttl, db0) && i < |t.states| && t.states[i].service.readiness.Some?
    ensures var s := t.states[i];
            && s.service.readiness.value.vectorCount > 0
            && s.readinessFrom < |s.attempts| && s.attempts[s.readinessFrom].kind.Validation?
            && s.attempts[s.readinessFrom].began < i && NoInvalidation(t.events, s.attempts[s.readinessFrom].began, i)
  {
    ReachableKeeps(t, directory, ttl, db0, i);
    var s := t.states[i];
    assert AttemptOk(t.events, s, s.readinessFrom);
    InvalidationsGrow(t.events, s.attempts[s.readinessFrom].began, i);
  }

  predicate OfRefresh(s: State, e: Event)
    requires Enabled(s, e)
  {
    (e.Scanned? || e.Resumed?) && s.attempts[e.attempt].kind.Refresh?
  }

  /** Probes and validations only observe: rows and memory change in steps of a refresh, or by an invalidation that spares the rows. */
  lemma ProbesObserve(s: State, e: Event)
    requires Enabled(s, e) && !OfRefresh(s, e)
    ensures Apply(s, e).service.db == s.service.db && Apply(s, e).published == s.published
    ensures Apply(s, e).service.memory == if e.ForceRefresh? then None else s.service.memory
  {
  }

  // -------------------------------------------------------------------------
  // Progress
  // -------------------------------------------------------------------------

  /** A step of this attempt, or the end of the read it waits for. */
  predicate OwnStep(s: State, e: Event, a: nat)
    requires a < |s.attempts|
  {
    || ((e.Scanned? || e.ScanFailed? || e.SourceReleased? || e.Resumed? || e.Ended?) && e.attempt == a)
    || (e.ReadEnds? && s.attempts[a].phase.Reading? && e.read == s.attempts[a].phase.read)
  }

  /** A bound on the own steps an attempt still takes, while nothing is invalidated. */
  function Remaining(s: State, a: nat): nat
    requires a < |s.attempts|
  {
    var late := if s.attempts[a].generation != s.service.refreshGeneration then 6 else 0;
    match s.attempts[a].phase
    case Scanning => 5 + late
    case Reading(_, _, r, owner) => (if r < |s.loads| && s.loads[r].result.None? then 4 else if owner then 3 else 2) + late
    case Settled(_) => 1
    case Finished(_) => 0
  }

  /** Every own step brings a load closer to its end, and without an invalidation no other step takes it further away. */
  lemma LoadsProgress(s: State, e: Event, a: nat)
    requires Enabled(s, e) && a < |s.attempts| && ReadIn(s, a)
    ensures OwnStep(s, e, a) ==> Closer(s, Act(s, e), a)
    ensures !OwnStep(s, e, a) && !e.ForceRefresh? ==> LeftAlone(s, Act(s, e), a)
    ensures a < |Apply(s, e).attempts| && (!e.ForceRefresh? ==> Remaining(Apply(s, e), a) <= Remaining(s, a))
  {
    match e
    case Query(_) =>
    case Probe(_) =>
    case Scanned(b, scan, readable, now) =>
      if b == a { ScannedCloser(s, a, scan, readable, now); } else { ScannedOther(s, b, scan, readable, now, a); }
    case ScanFailed(_) =>
    case ReadEnds(_, _) =>
    case SourceReleased(_) =>
    case Resumed(b, fault, now) => if b == a { ResumedCloser(s, a, fault, now); } else { ResumedOther(s, b, fault, now, a); }
    case Ended(_) =>
    case ForceRefresh =>
  }

  predicate ReadIn(s: State, a: nat)
    requires a < |s.attempts|
  {
    s.attempts[a].phase.Reading? ==> s.attempts[a].phase.read < |s.loads|
  }

  predicate Closer(s: State, s': State, a: nat)
    requires a < |s.attempts|
  {
    a < |s'.attempts| && Remaining(s', a) < Remaining(s, a)
  }

  /** Nothing changes for the attempt. */
  predicate LeftAlone(s: State, s': State, a: nat)
    requires a < |s.attempts| && ReadIn(s, a)
  {
    && a < |s'.attempts| && s'.attempts[a] == s.attempts[a] && s'.service.refreshGeneration == s.service.refreshGeneration
    && |s.loads| <= |s'.loads| && (s.attempts[a].phase.Reading? ==> s'.loads[s.attempts[a].phase.read] == s.loads[s.attempts[a].phase.read])
  }

  lemma ScannedCloser(s: State, a: nat, scan: Scan, readable: bool, now: int)
    requires Enabled(s, Scanned(a, scan, readable, now))
    ensures Closer(s, DoScanned(s, a, scan, readable, now), a)
  {
  }

  lemma ScannedOther(s: State, b: nat, scan: Scan, readable: bool, now: int, a: nat)
    requires Enabled(s, Scanned(b, scan, readable, now)) && a < |s.attempts| && a != b && ReadIn(s, a)
    ensures LeftAlone(s, DoScanned(s, b, scan, readable, now), a)
  {
  }

  lemma ResumedCloser(s: State, a: nat, fault: Option<nat>, now: int)
    requires Enabled(s, Resumed(a, fault, now))
    ensures Closer(s, DoResumed(s, a, fault, now), a)
  {
  }

  lemma ResumedOther(s: State, b: nat, fault: Option<nat>, now: int, a: nat)
    requires Enabled(s, Resumed(b, fault, now)) && a < |s.attempts| && a != b && ReadIn(s, a)
    ensures LeftAlone(s, DoResumed(s, b, fault, now), a)
  {
  }

  /** Every load that has not ended has a next step of its own, which brings it closer to its end. */
  lemma NeverStuck(t: Trace, directory: string, ttl: nat, db0: Database, i: nat, a: nat, kind: Kind)
    requires From(t, directory, ttl, db0) && i < |t.states| && Running(t.states[i], a, kind)
    ensures var s := t.states[i];
            exists e :: Enabled(s, e) && OwnStep(s, e, a) && a < |Apply(s, e).attempts| && Remaining(Apply(s, e), a) < Remaining(s, a)
  {
    ReachableKeeps(t, directory, ttl, db0, i);
    var s := t.states[i];
    assert AttemptOk(t.events, s, a);
    var e := match s.attempts[a].phase
             case Scanning => ScanFailed(a)
             case Reading(_, _, r, owner) =>
               if s.loads[r].result.None? then ReadEnds(r, Unreadable) else if owner then SourceReleased(a) else Resumed(a, None, 0)
             case Settled(_) => Ended(a)
             case Finished(_) => assert false; Ended(a);
    LoadsProgress(s, e, a);
    assert Enabled(s, e) && OwnStep(s, e, a);
  }

  /** A refresh that goes on after a read in the current generation fails exactly when a note is repeated or the database fails. */
  lemma StoringFailsIff(s: State, a: nat, fault: Option<nat>, now: int)
    requires Enabled(s, Resumed(a, fault, now)) && s.attempts[a].kind.Refresh? && s.attempts[a].generation == s.service.refreshGeneration
    requires s.loads[s.attempts[a].phase.read].result.value.Items?
    ensures var items, s' := s.loads[s.attempts[a].phase.read].result.value.items, Act(s, Resumed(a, fault, now));
            && |s'.attempts| == |s.attempts|
            && (s'.attempts[a].phase == Settled(Failed) <==> !DistinctPaths(items) || FaultHits(fault, items))
            && (s'.attempts[a].phase == Settled(Failed) ==> s'.service == s.service && s'.published == s.published)
  {
    InsertRowsKeeps(s.loads[s.attempts[a].phase.read].result.value.items);
  }

  // -------------------------------------------------------------------------
  // Two runs
  // -------------------------------------------------------------------------

  lemma Extend(t: Trace, first: State, e: Event) returns (longer: Trace)
    requires Run(t, first) && Enabled(t.states[|t.events|], e)
    ensures Run(longer, first)
    ensures longer == Trace(t.events + [e], t.states + [Apply(t.states[|t.events|], e)])
  {
    longer := Trace(t.events + [e], t.states + [Apply(t.states[|t.events|], e)]);
    forall i, j | 0 <= i < |longer.events| && j == i + 1 ensures Steps(longer.states[i], longer.events[i], longer.states[j]) {
      if i < |t.events| { assert Steps(t.states[i], t.events[i], t.states[j]); }
    }
  }

  const Directory: string := "/vault/.smart-env"

  const FirstState: State := Start(Directory, 0, Database([], None))

  /** The first query up to the end of its read. */
  lemma FirstRead(items: seq<Item>) returns (t: Trace)
    requires items != []
    ensures From(t, Directory, 0, Database([], None)) && |t.events| == 4
    ensures t.states[4] == FirstState.(
              service := BeginSnapshot(FirstState.service, 0, 0),
              attempts := [Attempt(Refresh, 0, 0, 0, Reading(Scan("a", 1), 1, 0, false))],
              loads := [Read(0, "a", 1, Some(Items(items)))], steps := 4)
  {
    t := Trace([], [FirstState]);
    t := Extend(t, FirstState, Query(0));
    t := Extend(t, FirstState, Scanned(0, Scan("a", 1), true, 0));
    t := Extend(t, FirstState, ReadEnds(0, Items(items)));
    t := Extend(t, FirstState, SourceReleased(0));
    var s := t.states[4];
    assert s.attempts == [Attempt(Refresh, 0, 0, 0, Reading(Scan("a", 1), 1, 0, false))];
    assert s.loads == [Read(0, "a", 1, Some(Items(items)))];
  }

  const Note: Item := Item("a.md", true, "")

  lemma FirstAnswer() returns (t: Trace)
    ensures From(t, Directory, 0, Database([], None)) && |t.events| == 5
    ensures var s := t.states[5];
            && |s.attempts| == 1 && s.attempts[0].phase == Settled(Answered(0)) && s.service.pendingSnapshot == Some(0)
            && |s.published| == 1 && s.published[0].at == 4 && s.published[0].snapshot.items == [Note]
            && s.attempts[0].generation == s.service.refreshGeneration && s.service.directory == Directory
  {
    t := FirstRead([Note]);
    InsertRowsKeeps([Note]);
    t := Extend(t, FirstState, Resumed(0, None, 1));
  }

  /** Sources that list one note twice are read, but their snapshot is not stored and the query fails. */
  lemma RepeatedNoteFails() returns (t: Trace)
    ensures From(t, Directory, 0, Database([], None))
    ensures var s := t.states[|t.events|];
            && s.loads == [Read(0, "a", 1, Some(Items([Note, Note])))]
            && |s.attempts| == 1 && s.attempts[0].phase == Settled(Failed) && s.published == [] && s.service.db == Database([], None)
  {
    t := FirstRead([Note, Note]);
    InsertRowsKeeps([Note, Note]);
    assert [Note, Note][0].notePath == [Note, Note][1].notePath;
    t := Extend(t, FirstState, Resumed(0, None, 1));
  }

  /** A call made after an invalidation can still join a refresh that was answered before it and has not been cleared. */
  lemma StaleJoin() returns (t: Trace, j: nat)
    ensures From(t, Directory, 0, Database([], None)) && j < |t.events| && t.events[j].Query?
    ensures var s := t.states[j];
            && QueryReply(s.service, t.events[j].now) == Joins(0)
            && s.attempts != [] && s.attempts[0].phase == Settled(Answered(0))
            && |s.published| == 1 && Overtaken(s, 0) && exists k :: s.published[0].at < k < j && t.events[k].ForceRefresh?
  {
    t := FirstAnswer();
    t := Extend(t, FirstState, ForceRefresh);
    t := Extend(t, FirstState, Query(2));
    j := 6;
    assert t.events[5].ForceRefresh?;
  }

  /** The marker can keep the start of a load that has ended while a younger one is still in flight. */
  lemma MarkerOutlivesItsLoad() returns (t: Trace)
    ensures From(t, Directory, 0, Database([], None))
    ensures var s := t.states[|t.events|];
            s.service.loadStartedAt == Some(1) && s.markedBy == 0 && s.attempts != [] && s.attempts[0].phase.Finished?
            && Running(s, 1, Refresh) && s.attempts[1].startedAt == 2
  {
    t := Trace([], [FirstState]);
    t := Extend(t, FirstState, Probe(1));
    t := Extend(t, FirstState, Query(2));
    t := Extend(t, FirstState, ScanFailed(0));
    t := Extend(t, FirstState, Ended(0));
  }
}
