/** What each scan and each read leads to, decided from the events of the run and from what was published in it. */
module SemanticCacheDecisions {
  import opened Options
  import opened SemanticCache
  import opened SemanticCacheRuns
  import opened SemanticCacheTimes

  // -------------------------------------------------------------------------
  // Whose copy is stored
  // -------------------------------------------------------------------------

  /** Publication `q` is the last one read from the sources. */
  predicate LastRead(published: seq<Publication>, q: nat) {
    q < |published| && published[q].origin.FromSource? && forall k :: q < k < |published| ==> !published[k].origin.FromSource?
  }

  predicate NoneRead(published: seq<Publication>) { forall k :: 0 <= k < |published| ==> !published[k].origin.FromSource? }

  /** The stored copy is that of the last snapshot read, in this directory, or still the one found at the start. */
  predicate CopyOk(directory: string, db0: Database, s: State) {
    && s.service.directory == directory
    && match s.rowsFrom
       case None => NoneRead(s.published) && s.service.db == db0
       case Some(q) =>
         && LastRead(s.published, q) && s.service.db.manifest.Some? && s.service.db.manifest.value.directory == directory
         && s.service.db.manifest.value.signature == s.published[q].scan.signature
  }

  lemma ScannedCopy(directory: string, db0: Database, s: State, a: nat, scan: Scan, readable: bool, now: int)
    requires CopyOk(directory, db0, s) && Enabled(s, Scanned(a, scan, readable, now))
    ensures CopyOk(directory, db0, DoScanned(s, a, scan, readable, now))
  {
  }

  lemma ResumedCopy(directory: string, db0: Database, s: State, a: nat, fault: Option<nat>, now: int)
    requires CopyOk(directory, db0, s) && Enabled(s, Resumed(a, fault, now))
    ensures CopyOk(directory, db0, DoResumed(s, a, fault, now))
  {
  }

  lemma CopyStep(directory: string, db0: Database, s: State, e: Event)
    requires CopyOk(directory, db0, s) && Enabled(s, e)
    ensures CopyOk(directory, db0, Apply(s, e))
  {
    match e
    case Query(_) =>
    case Probe(_) =>
    case Scanned(a, scan, readable, now) => ScannedCopy(directory, db0, s, a, scan, readable, now);
    case ScanFailed(_) =>
    case ReadEnds(_, _) =>
    case SourceReleased(_) =>
    case Resumed(a, fault, now) => ResumedCopy(directory, db0, s, a, fault, now);
    case Ended(_) =>
    case ForceRefresh =>
  }

  lemma {:induction false} CopyKept(t: Trace, directory: string, ttl: nat, db0: Database, i: nat)
    requires From(t, directory, ttl, db0) && i < |t.states|
    ensures CopyOk(directory, db0, t.states[i])
  {
    if i > 0 {
      CopyKept(t, directory, ttl, db0, i - 1);
      assert Steps(t.states[i - 1], t.events[i - 1], t.states[i]);
      CopyStep(directory, db0, t.states[i - 1], t.events[i - 1]);
    }
  }

  /**
   What is stored matches the scan: it is of this directory and has the signature. It is the last snapshot that
   was read from the sources, or the copy an earlier process left when none was.
   */
  predicate CopyMatches(directory: string, db0: Database, published: seq<Publication>, scan: Scan) {
    || (NoneRead(published) && db0.manifest.Some?
        && db0.manifest.value.directory == directory && db0.manifest.value.signature == scan.signature)
    || exists q :: 0 <= q < |published| && LastRead(published, q) && published[q].scan.signature == scan.signature
  }

  lemma MatchesIffStored(directory: string, db0: Database, s: State, scan: Scan)
    requires CopyOk(directory, db0, s)
    ensures Stored(s.service, scan) <==> CopyMatches(directory, db0, s.published, scan)
  {
    if q :| 0 <= q < |s.published| && LastRead(s.published, q) {
      assert !NoneRead(s.published);
      assert s.rowsFrom == Some(q);
    }
  }

  // -------------------------------------------------------------------------
  // Decisions
  // -------------------------------------------------------------------------

  /** The attempt was overtaken: an invalidation came since it began. */
  ghost predicate Invalidated(t: Trace, i: nat, a: nat)
    requires i < |t.states| && i <= |t.events| && a < |t.states[i].attempts|
  {
    exists k :: t.states[i].attempts[a].began <= k < i && t.events[k].ForceRefresh?
  }

  lemma InvalidatedIff(t: Trace, directory: string, ttl: nat, db0: Database, i: nat, a: nat)
    requires From(t, directory, ttl, db0) && i < |t.states| && a < |t.states[i].attempts|
    ensures var s := t.states[i]; Invalidated(t, i, a) <==> s.attempts[a].generation != s.service.refreshGeneration
  {
    ReachableKeeps(t, directory, ttl, db0, i);
    assert AttemptOk(t.events, t.states[i], a);
    InvalidationsGrow(t.events, t.states[i].attempts[a].began, i);
  }

  /** The step begins the attempt again. */
  predicate Begins(s: State, s': State, a: nat) {
    && a < |s'.attempts| && s'.attempts[a].phase.Scanning? && s'.attempts[a].began == s.steps
    && s'.attempts[a].generation == s.service.refreshGeneration && s'.published == s.published && s'.service == s.service
  }

  predicate Fails(s: State, s': State, a: nat) {
    a < |s'.attempts| && s'.attempts[a].phase == Settled(Failed) && s'.published == s.published && s'.service == s.service
  }

  /** The step publishes one snapshot, which the attempt answers and the memory holds. */
  predicate Publishes(s: State, s': State, a: nat, scan: Scan, snapshot: Snapshot) {
    && a < |s'.attempts| && s'.attempts[a].phase == Settled(Answered(|s.published|)) && |s'.published| == |s.published| + 1
    && s.published <= s'.published && s'.service.memory == Some(snapshot)
    && var pub := s'.published[|s.published|];
       pub.attempt == a && pub.at == s.steps && pub.scan == scan && pub.snapshot == snapshot
  }

  predicate Reads(s': State, a: nat, scan: Scan) {
    a < |s'.attempts| && s'.attempts[a].phase.Reading? && s'.attempts[a].phase.scan == scan
  }

  /** The snapshot in memory has the scanned signature. */
  predicate InMemory(s: State, scan: Scan) {
    s.service.memory.Some? && s.memoryFrom < |s.published| && s.published[s.memoryFrom].scan.signature == scan.signature
  }

  /**
   A refresh that has scanned begins again exactly when it was overtaken. Otherwise it answers what is in memory when
   that has the scanned signature, or else what is stored when that matches and decodes, and reads the sources only
   when neither does.
   */
  lemma RefreshDecides(t: Trace, directory: string, ttl: nat, db0: Database, i: nat, a: nat, scan: Scan, readable: bool, now: int)
    requires From(t, directory, ttl, db0) && i < |t.events| && t.events[i] == Scanned(a, scan, readable, now)
    requires a < |t.states[i].attempts| && t.states[i].attempts[a].kind.Refresh?
    ensures var s, s' := t.states[i], t.states[i + 1];
            if Invalidated(t, i, a) then Begins(s, s', a)
            else if InMemory(s, scan) then Publishes(s, s', a, scan, s.published[s.memoryFrom].snapshot)
            else if readable && CopyMatches(directory, db0, s.published, scan)
            then s.service.db.manifest.Some? && Publishes(s, s', a, scan, StoredSnapshot(s.service.db))
            else Reads(s', a, scan) && s'.published == s.published
  {
    var s := t.states[i];
    assert Steps(s, t.events[i], t.states[i + 1]);
    ReachableKeeps(t, directory, ttl, db0, i);
    InvalidatedIff(t, directory, ttl, db0, i, a);
    CopyKept(t, directory, ttl, db0, i);
    MatchesIffStored(directory, db0, s, scan);
    if s.service.memory.Some? { assert PublicationOk(t.events, s, s.memoryFrom); }
  }

  /** The end of a validation that counts these items. */
  ghost predicate Validates(t: Trace, i: nat, a: nat, items: seq<Item>, now: int)
    requires i < |t.events| && i + 1 < |t.states| && a < |t.states[i].attempts|
  {
    var s, s' := t.states[i], t.states[i + 1];
    if Invalidated(t, i, a) then Begins(s, s', a)
    else if UsableIn(items) == {} then Fails(s, s', a)
    else
      && a < |s'.attempts| && HasValidated(s'.attempts[a], Readiness(|UsableIn(items)|, now))
      && s'.service.readiness == Some(Readiness(|UsableIn(items)|, now)) && s'.published == s.published
  }

  /** A validation that has scanned counts what is stored when that matches and decodes, and reads the sources otherwise. */
  lemma ValidationDecides(t: Trace, directory: string, ttl: nat, db0: Database, i: nat, a: nat, scan: Scan, readable: bool, now: int)
    requires From(t, directory, ttl, db0) && i < |t.events| && t.events[i] == Scanned(a, scan, readable, now)
    requires a < |t.states[i].attempts| && t.states[i].attempts[a].kind.Validation?
    ensures var s, s' := t.states[i], t.states[i + 1];
            if readable && CopyMatches(directory, db0, s.published, scan) then Validates(t, i, a, s.service.db.rows, now)
            else Reads(s', a, scan) && s'.published == s.published
  {
    var s := t.states[i];
    assert Steps(s, t.events[i], t.states[i + 1]);
    InvalidatedIff(t, directory, ttl, db0, i, a);
    CopyKept(t, directory, ttl, db0, i);
    MatchesIffStored(directory, db0, s, scan);
    CountIs(s.service.db.rows);
  }

  /**
   An attempt whose read has ended fails when nothing could be read. Otherwise a validation counts what was read, and a
   refresh begins again exactly when it was overtaken, fails exactly when what was read cannot be stored, and else
   answers the items read, as of now.
   */
  lemma ReadDecides(t: Trace, directory: string, ttl: nat, db0: Database, i: nat, a: nat, fault: Option<nat>, now: int)
    requires From(t, directory, ttl, db0) && i < |t.events| && t.events[i] == Resumed(a, fault, now)
    ensures var s, s' := t.states[i], t.states[i + 1];
            && a < |s.attempts| && s.attempts[a].phase.Reading? && s.attempts[a].phase.read < |s.loads|
            && var scan, result := s.attempts[a].phase.scan, s.loads[s.attempts[a].phase.read].result;
               && result.Some?
               && if result.value.Unreadable? then Fails(s, s', a)
                  else if s.attempts[a].kind.Validation? then Validates(t, i, a, result.value.items, now)
                  else if Invalidated(t, i, a) then Begins(s, s', a)
                  else if !DistinctPaths(result.value.items) || FaultHits(fault, result.value.items) then Fails(s, s', a)
                  else Publishes(s, s', a, scan, Snapshot(scan.signature, scan.fileCount, |result.value.items|, now, result.value.items))
  {
    var s := t.states[i];
    assert Steps(s, t.events[i], t.states[i + 1]);
    InvalidatedIff(t, directory, ttl, db0, i, a);
    var result := s.loads[s.attempts[a].phase.read].result.value;
    if result.Items? {
      CountIs(result.items);
      InsertRowsKeeps(result.items);
    }
  }

  // -------------------------------------------------------------------------
  // Which reads are shared
  // -------------------------------------------------------------------------

  /** The attempt started this read and has not gone on since. */
  predicate Owns(s: State, b: nat, r: nat) {
    b < |s.attempts| && s.attempts[b].phase.Reading? && s.attempts[b].phase.owner && s.attempts[b].phase.read == r
  }

  ghost predicate Open(s: State, r: nat) { exists b: nat :: Owns(s, b, r) }

  /** The read on offer is the last one started, for as long as its starter waits for it. */
  ghost predicate OfferOk(s: State) {
    && (forall b: nat, r: nat :: Owns(s, b, r) ==> r < |s.loads|)
    && (s.service.pendingSource.Some? <==> s.loads != [] && Open(s, |s.loads| - 1))
    && (s.service.pendingSource.Some? ==>
          var r := |s.loads| - 1; s.service.pendingSource == Some(Source(s.loads[r].generation, s.loads[r].signature, r)))
  }

  /** A step that starts no read and takes none back from its starter. */
  lemma SameOffer(s: State, s': State)
    requires OfferOk(s) && s'.service.pendingSource == s.service.pendingSource && |s'.loads| == |s.loads|
    requires forall r :: 0 <= r < |s.loads| ==> s'.loads[r].generation == s.loads[r].generation && s'.loads[r].signature == s.loads[r].signature
    requires forall b: nat, r: nat :: Owns(s', b, r) <==> Owns(s, b, r)
    ensures OfferOk(s')
  {
    if s.loads != [] {
      var r := |s.loads| - 1;
      if Open(s, r) { var b: nat :| Owns(s, b, r); assert Owns(s', b, r); }
      if Open(s', r) { var b: nat :| Owns(s', b, r); assert Owns(s, b, r); }
    }
  }

  lemma LoadOffer(s: State, a: nat, scan: Scan)
    requires OfferOk(s) && a < |s.attempts| && s.attempts[a].phase.Scanning?
    ensures OfferOk(DoLoadSource(s, a, scan))
  {
    var s' := DoLoadSource(s, a, scan);
    if SharesSource(s.service, s.attempts[a].generation, scan.signature) {
      SameOffer(s, s');
    } else {
      assert Owns(s', a, |s.loads|);
      forall b: nat, r: nat | Owns(s', b, r) ensures r < |s'.loads| { if b != a { assert Owns(s, b, r); } }
    }
  }

  lemma ScannedOffer(s: State, a: nat, scan: Scan, readable: bool, now: int)
    requires OfferOk(s) && Enabled(s, Scanned(a, scan, readable, now))
    ensures OfferOk(DoScanned(s, a, scan, readable, now))
  {
    var s' := DoScanned(s, a, scan, readable, now);
    if s' == DoLoadSource(s, a, scan) { LoadOffer(s, a, scan); } else { SameOffer(s, s'); }
  }

  lemma ReleasedOffer(s: State, a: nat)
    requires OfferOk(s) && Enabled(s, SourceReleased(a)) && OneOwner(s)
    ensures OfferOk(DoSourceReleased(s, a))
  {
    var s', read := DoSourceReleased(s, a), s.attempts[a].phase.read;
    assert Owns(s, a, read);
    forall b: nat, r: nat | Owns(s', b, r) ensures Owns(s, b, r) && b != a {}
    forall b: nat, r: nat | Owns(s, b, r) && b != a ensures Owns(s', b, r) {}
    var last := |s.loads| - 1;
    if read == last {
      assert !Open(s', last);
    } else if Open(s, last) {
      var b: nat :| Owns(s, b, last);
      assert Owns(s', b, last);
    }
  }

  /** No two attempts started the same read. */
  ghost predicate OneOwner(s: State) { forall b: nat, c: nat, r: nat :: Owns(s, b, r) && Owns(s, c, r) ==> b == c }

  lemma ScannedOwner(s: State, a: nat, scan: Scan, readable: bool, now: int)
    requires OfferOk(s) && OneOwner(s) && Enabled(s, Scanned(a, scan, readable, now))
    ensures OneOwner(DoScanned(s, a, scan, readable, now))
  {
    var s' := DoScanned(s, a, scan, readable, now);
    forall b: nat, r: nat | Owns(s', b, r) && b != a ensures Owns(s, b, r) {}
    forall r: nat | Owns(s', a, r) ensures r == |s.loads| {}
  }

  lemma OfferStep(s: State, e: Event)
    requires OfferOk(s) && OneOwner(s) && Enabled(s, e)
    ensures OfferOk(Apply(s, e)) && OneOwner(Apply(s, e))
  {
    var s' := Apply(s, e);
    if e.Scanned? {
      ScannedOffer(s, e.attempt, e.scan, e.readable, e.now);
      ScannedOwner(s, e.attempt, e.scan, e.readable, e.now);
      SameOffer(DoScanned(s, e.attempt, e.scan, e.readable, e.now), s');
    } else if e.SourceReleased? {
      ReleasedOffer(s, e.attempt);
      SameOffer(DoSourceReleased(s, e.attempt), s');
      forall b: nat, r: nat | Owns(s', b, r) ensures Owns(s, b, r) {}
    } else {
      SameOwners(s, e);
      SameOffer(s, s');
    }
  }

  lemma SameOwners(s: State, e: Event)
    requires Enabled(s, e) && !e.Scanned? && !e.SourceReleased?
    ensures forall b: nat, r: nat :: Owns(Apply(s, e), b, r) <==> Owns(s, b, r)
    ensures Apply(s, e).service.pendingSource == s.service.pendingSource
  {
  }

  lemma {:induction false} OfferKept(t: Trace, directory: string, ttl: nat, db0: Database, i: nat)
    requires From(t, directory, ttl, db0) && i < |t.states|
    ensures OfferOk(t.states[i]) && OneOwner(t.states[i])
  {
    if i > 0 {
      OfferKept(t, directory, ttl, db0, i - 1);
      assert Steps(t.states[i - 1], t.events[i - 1], t.states[i]);
      OfferStep(t.states[i - 1], t.events[i - 1]);
    }
  }

  /**
   An attempt that comes to read the sources joins the last read started exactly while the attempt that started it
   waits, in the same generation and for the same signature. In every other case it starts a read of its own.
   */
  lemma JoinsReadIff(t: Trace, directory: string, ttl: nat, db0: Database, i: nat, a: nat, scan: Scan, readable: bool, now: int)
    requires From(t, directory, ttl, db0) && i < |t.events| && t.events[i] == Scanned(a, scan, readable, now)
    requires Reads(t.states[i + 1], a, scan)
    ensures var s, s' := t.states[i], t.states[i + 1]; var last := |s.loads| - 1;
            if s.loads != [] && Open(s, last) && s.loads[last].signature == scan.signature && s.loads[last].generation == s'.attempts[a].generation
            then s'.loads == s.loads && s'.attempts[a].phase.read == last && !s'.attempts[a].phase.owner
            else |s'.loads| == |s.loads| + 1 && Owns(s', a, |s.loads|) && s'.loads[|s.loads|].result.None?
  {
    assert Steps(t.states[i], t.events[i], t.states[i + 1]);
    OfferKept(t, directory, ttl, db0, i);
  }
}
