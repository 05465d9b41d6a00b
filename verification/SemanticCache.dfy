/**
 The semantic cache: a snapshot held in memory and persisted with its manifest, refreshed by
 asynchronous attempts that may be overtaken by an invalidation. Code between two awaits is one step.
 */
module SemanticCache {
  import opened Options
  import opened TextOrder

  // -------------------------------------------------------------------------
  // The persisted copy
  // -------------------------------------------------------------------------

  datatype Item = Item(notePath: string, validVector: bool, detail: string)

  datatype Scan = Scan(signature: string, fileCount: nat)

  datatype Manifest = Manifest(directory: string, signature: string, fileCount: nat, vectorCount: nat, refreshedAt: int)

  /** The vector table, read in the order of its primary key, and the single manifest row. */
  datatype Database = Database(rows: seq<Item>, manifest: Option<Manifest>)

  datatype Snapshot = Snapshot(signature: string, fileCount: nat, vectorCount: nat, refreshedAt: int, items: seq<Item>)

  /** One insert; a second row for the same note violates the primary key. */
  function InsertRow(rows: seq<Item>, item: Item): Option<seq<Item>> {
    if rows == [] then Some([item])
    else if item.notePath == rows[0].notePath then None
    else if Less(item.notePath, rows[0].notePath) then Some([item] + rows)
    else
      var rest := InsertRow(rows[1..], item);
      if rest.None? then None else Some([rows[0]] + rest.value)
  }

  function InsertRows(items: seq<Item>): Option<seq<Item>> {
    if items == [] then Some([])
    else
      var before := InsertRows(items[..|items| - 1]);
      if before.None? then None else InsertRow(before.value, items[|items| - 1])
  }

  /** Statements of the transaction: begin, delete, one insert an item, the manifest, commit. */
  function Statements(items: seq<Item>): nat { |items| + 4 }

  /** The transaction fails at one of its statements. */
  predicate FaultHits(fault: Option<nat>, items: seq<Item>) { fault.Some? && fault.value < Statements(items) }

  /** The transaction; `fault` is the statement at which the database fails, if any. Nothing is kept of a failed one. */
  function Persist(db: Database, directory: string, items: seq<Item>, scan: Scan, now: int, fault: Option<nat>): Option<Database> {
    var rows := InsertRows(items);
    if rows.None? || FaultHits(fault, items) then None
    else Some(Database(rows.value, Some(Manifest(directory, scan.signature, scan.fileCount, |items|, now))))
  }

  function SourceSnapshot(items: seq<Item>, scan: Scan, now: int): Snapshot {
    Snapshot(scan.signature, scan.fileCount, |items|, now, items)
  }

  function StoredSnapshot(db: Database): Snapshot
    requires db.manifest.Some?
  {
    var m := db.manifest.value;
    Snapshot(m.signature, m.fileCount, m.vectorCount, m.refreshedAt, db.rows)
  }

  function CountValid(items: seq<Item>): nat {
    if items == [] then 0 else CountValid(items[..|items| - 1]) + (if items[|items| - 1].validVector then 1 else 0)
  }

  // -------------------------------------------------------------------------
  // The fields of the service
  // -------------------------------------------------------------------------

  datatype Readiness = Readiness(vectorCount: nat, observedAt: int)

  datatype Source = Source(generation: nat, signature: string, read: nat)

  datatype Service = Service(
    directory: string, ttl: nat, db: Database,
    memory: Option<Snapshot>, memoryLoadedAt: int, pendingSnapshot: Option<nat>,
    refreshGeneration: nat, pendingSource: Option<Source>,
    readiness: Option<Readiness>, pendingReadiness: Option<nat>, loadStartedAt: Option<int>)

  predicate MemoryFresh(sv: Service, now: int) {
    sv.memory.Some? && (sv.ttl == 0 || now - sv.memoryLoadedAt < sv.ttl)
  }

  function ReadinessTtl(sv: Service): nat {
    if sv.ttl == 0 || sv.ttl > 60000 then 60000 else sv.ttl
  }

  predicate ReadinessFresh(sv: Service, now: int) {
    sv.readiness.Some? && now - sv.readiness.value.observedAt < ReadinessTtl(sv)
  }

  /** How a call is served: not at all without a directory, from a field at once, by an attempt already running, or by a new one. */
  datatype Reply = NotConfigured | AtOnce | Joins(attempt: nat) | Starts

  function QueryReply(sv: Service, now: int): Reply {
    if sv.directory == "" then NotConfigured
    else if MemoryFresh(sv, now) then AtOnce
    else if sv.pendingSnapshot.Some? then Joins(sv.pendingSnapshot.value)
    else Starts
  }

  function ProbeReply(sv: Service, now: int): Reply {
    if sv.directory == "" then NotConfigured
    else if MemoryFresh(sv, now) || ReadinessFresh(sv, now) then AtOnce
    else if sv.pendingSnapshot.Some? then Joins(sv.pendingSnapshot.value)
    else if sv.pendingReadiness.Some? then Joins(sv.pendingReadiness.value)
    else Starts
  }

  function MarkLoad(sv: Service, now: int): Service {
    if sv.loadStartedAt.None? then sv.(loadStartedAt := Some(now)) else sv
  }

  function ReleaseLoadMarker(sv: Service): Service {
    if sv.pendingSnapshot.None? && sv.pendingReadiness.None? then sv.(loadStartedAt := None) else sv
  }

  function BeginSnapshot(sv: Service, attempt: nat, now: int): Service {
    MarkLoad(sv, now).(pendingSnapshot := Some(attempt))
  }

  function EndSnapshot(sv: Service, attempt: nat): Service {
    ReleaseLoadMarker(if sv.pendingSnapshot == Some(attempt) then sv.(pendingSnapshot := None) else sv)
  }

  function BeginReadiness(sv: Service, attempt: nat, now: int): Service {
    MarkLoad(sv, now).(pendingReadiness := Some(attempt))
  }

  function EndReadiness(sv: Service, attempt: nat): Service {
    ReleaseLoadMarker(if sv.pendingReadiness == Some(attempt) then sv.(pendingReadiness := None) else sv)
  }

  function ForcedRefresh(sv: Service): Service {
    sv.(refreshGeneration := sv.refreshGeneration + 1, readiness := None, memory := None, memoryLoadedAt := 0)
  }

  predicate Stored(sv: Service, scan: Scan) {
    sv.db.manifest.Some? && sv.db.manifest.value.signature == scan.signature && sv.db.manifest.value.directory == sv.directory
  }

  /** What a refresh finds after its scan. `readable` says whether the stored rows decode. */
  datatype Found = Again | Held(snapshot: Snapshot) | Loaded(snapshot: Snapshot) | Missing

  function RefreshFinds(sv: Service, generation: nat, scan: Scan, readable: bool): Found {
    if generation != sv.refreshGeneration then Again
    else if sv.memory.Some? && sv.memory.value.signature == scan.signature then Held(sv.memory.value)
    else if Stored(sv, scan) && readable then Loaded(StoredSnapshot(sv.db))
    else Missing
  }

  function Remember(sv: Service, snapshot: Snapshot, now: int): Service {
    sv.(memory := Some(snapshot), memoryLoadedAt := now)
  }

  predicate SharesSource(sv: Service, generation: nat, signature: string) {
    sv.pendingSource.Some? && sv.pendingSource.value.generation == generation && sv.pendingSource.value.signature == signature
  }

  function ReleaseSource(sv: Service, read: nat): Service {
    if sv.pendingSource.Some? && sv.pendingSource.value.read == read then sv.(pendingSource := None) else sv
  }

  // -------------------------------------------------------------------------
  // Attempts, reads and what was published
  // -------------------------------------------------------------------------

  datatype Kind = Refresh | Validation

  /** Where a validated count was taken from. */
  datatype Evidence = Rows | SourceRead(read: nat)

  datatype Answer = Answered(publication: nat) | Validated(value: Readiness, evidence: Evidence) | Failed

  datatype Phase =
    | Scanning
    | Reading(scan: Scan, scannedAt: nat, read: nat, owner: bool)
    | Settled(answer: Answer)
    | Finished(answer: Answer)

  /** `began` is the step at which the attempt last read the generation; `startedAt` the time of the call that started it. */
  datatype Attempt = Attempt(kind: Kind, startedAt: int, generation: nat, began: nat, phase: Phase)

  /** What a read gives; sources without any item are an error. */
  datatype Contents = Items(items: seq<Item>) | Unreadable

  predicate ReadGives(contents: Contents) { contents.Items? ==> contents.items != [] }

  datatype Read = Read(generation: nat, signature: string, begun: nat, result: Option<Contents>)

  datatype Origin = FromMemory(earlier: nat) | FromRows(writer: Option<nat>) | FromSource(read: nat)

  /** Record of one snapshot answered by a refresh, at step `at`. */
  datatype Publication = Publication(attempt: nat, began: nat, scannedAt: nat, at: nat, scan: Scan, snapshot: Snapshot, origin: Origin)

  /** `memoryFrom`, `rowsFrom`, `readinessFrom` and `markedBy` say which publication or attempt last wrote the field. */
  datatype State = State(
    service: Service, attempts: seq<Attempt>, loads: seq<Read>, published: seq<Publication>,
    memoryFrom: nat, rowsFrom: Option<nat>, readinessFrom: nat, markedBy: nat, steps: nat)

  function Start(directory: string, ttl: nat, db: Database): State {
    State(Service(directory, ttl, db, None, 0, None, 0, None, None, None, None), [], [], [], 0, None, 0, 0, 0)
  }

  datatype Event =
    | Query(now: int)
    | Probe(now: int)
    | Scanned(attempt: nat, scan: Scan, readable: bool, now: int)
    | ScanFailed(attempt: nat)
    | ReadEnds(read: nat, contents: Contents)
    | SourceReleased(attempt: nat)
    | Resumed(attempt: nat, fault: Option<nat>, now: int)
    | Ended(attempt: nat)
    | ForceRefresh

  predicate Enabled(s: State, e: Event) {
    match e
    case Query(_) => true
    case Probe(_) => true
    case Scanned(a, _, _, _) => a < |s.attempts| && s.attempts[a].phase.Scanning?
    case ScanFailed(a) => a < |s.attempts| && s.attempts[a].phase.Scanning?
    case ReadEnds(r, contents) => r < |s.loads| && s.loads[r].result.None? && ReadGives(contents)
    case SourceReleased(a) =>
      && a < |s.attempts| && s.attempts[a].phase.Reading? && s.attempts[a].phase.owner
      && s.attempts[a].phase.read < |s.loads| && s.loads[s.attempts[a].phase.read].result.Some?
    case Resumed(a, _, _) =>
      && a < |s.attempts| && s.attempts[a].phase.Reading? && !s.attempts[a].phase.owner
      && s.attempts[a].phase.read < |s.loads| && s.loads[s.attempts[a].phase.read].result.Some?
    case Ended(a) => a < |s.attempts| && s.attempts[a].phase.Settled?
    case ForceRefresh => true
  }

  function Goto(s: State, a: nat, phase: Phase): State
    requires a < |s.attempts|
  {
    s.(attempts := s.attempts[a := s.attempts[a].(phase := phase)])
  }

  /** The recursive call after an invalidation: the attempt begins again in the current generation. */
  function Restart(s: State, a: nat): State
    requires a < |s.attempts|
  {
    var again := s.attempts[a].(generation := s.service.refreshGeneration, began := s.steps, phase := Scanning);
    s.(attempts := s.attempts[a := again])
  }

  /** A refresh answers with a snapshot, which becomes the one in memory. */
  function Publish(s: State, a: nat, scan: Scan, scannedAt: nat, snapshot: Snapshot, origin: Origin, now: int): State
    requires a < |s.attempts|
  {
    Goto(s, a, Settled(Answered(|s.published|))).(
    service := Remember(s.service, snapshot, now),
    published := s.published + [Publication(a, s.attempts[a].began, scannedAt, s.steps, scan, snapshot, origin)],
    memoryFrom := |s.published|)
  }

  function DoQuery(s: State, now: int): State {
    if QueryReply(s.service, now) != Starts then s
    else s.(service := BeginSnapshot(s.service, |s.attempts|, now),
            attempts := s.attempts + [Attempt(Refresh, now, s.service.refreshGeneration, s.steps, Scanning)],
            markedBy := if s.service.loadStartedAt.None? then |s.attempts| else s.markedBy)
  }

  function DoProbe(s: State, now: int): State {
    if ProbeReply(s.service, now) != Starts then s
    else s.(service := BeginReadiness(s.service, |s.attempts|, now),
            attempts := s.attempts + [Attempt(Validation, now, s.service.refreshGeneration, s.steps, Scanning)],
            markedBy := if s.service.loadStartedAt.None? then |s.attempts| else s.markedBy)
  }

  /** Joins the read in flight for the same generation and signature, or starts one. */
  function DoLoadSource(s: State, a: nat, scan: Scan): State
    requires a < |s.attempts|
  {
    var generation := s.attempts[a].generation;
    if SharesSource(s.service, generation, scan.signature)
    then Goto(s, a, Reading(scan, s.steps, s.service.pendingSource.value.read, false))
    else Goto(s, a, Reading(scan, s.steps, |s.loads|, true)).(
         loads := s.loads + [Read(generation, scan.signature, s.steps, None)],
         service := s.service.(pendingSource := Some(Source(generation, scan.signature, |s.loads|))))
  }

  function DoScanned(s: State, a: nat, scan: Scan, readable: bool, now: int): State
    requires Enabled(s, Scanned(a, scan, readable, now))
  {
    match s.attempts[a].kind
    case Refresh =>
      (match RefreshFinds(s.service, s.attempts[a].generation, scan, readable)
       case Again => Restart(s, a)
       case Held(snapshot) => Publish(s, a, scan, s.steps, snapshot, FromMemory(s.memoryFrom), now)
       case Loaded(snapshot) => Publish(s, a, scan, s.steps, snapshot, FromRows(s.rowsFrom), now)
       case Missing => DoLoadSource(s, a, scan))
    case Validation =>
      if Stored(s.service, scan) && readable then Validate(s, a, s.service.db.rows, Rows, now)
      else DoLoadSource(s, a, scan)
  }

  /** The end of a validation: begin again after an invalidation, fail without a usable vector, or keep the count. */
  function Validate(s: State, a: nat, items: seq<Item>, evidence: Evidence, now: int): State
    requires a < |s.attempts|
  {
    if s.attempts[a].generation != s.service.refreshGeneration then Restart(s, a)
    else if CountValid(items) == 0 then Goto(s, a, Settled(Failed))
    else
      var value := Readiness(CountValid(items), now);
      Goto(s, a, Settled(Validated(value, evidence))).(
      service := s.service.(readiness := Some(value)), readinessFrom := a)
  }

  function DoResumed(s: State, a: nat, fault: Option<nat>, now: int): State
    requires Enabled(s, Resumed(a, fault, now))
  {
    var attempt := s.attempts[a];
    var contents := s.loads[attempt.phase.read].result.value;
    if contents.Unreadable? then Goto(s, a, Settled(Failed))
    else if attempt.kind.Validation? then Validate(s, a, contents.items, SourceRead(attempt.phase.read), now)
    else if attempt.generation != s.service.refreshGeneration then Restart(s, a)
    else
      var db := Persist(s.service.db, s.service.directory, contents.items, attempt.phase.scan, now, fault);
      if db.None? then Goto(s, a, Settled(Failed))
      else Publish(s.(service := s.service.(db := db.value), rowsFrom := Some(|s.published|)), a,
                   attempt.phase.scan, attempt.phase.scannedAt,
                   SourceSnapshot(contents.items, attempt.phase.scan, now), FromSource(attempt.phase.read), now)
  }

  function DoEnded(s: State, a: nat): State
    requires Enabled(s, Ended(a))
  {
    Goto(s, a, Finished(s.attempts[a].phase.answer)).(
    service := if s.attempts[a].kind.Refresh? then EndSnapshot(s.service, a) else EndReadiness(s.service, a))
  }

  function DoSourceReleased(s: State, a: nat): State
    requires Enabled(s, SourceReleased(a))
  {
    var phase := s.attempts[a].phase;
    Goto(s, a, phase.(owner := false)).(service := ReleaseSource(s.service, phase.read))
  }

  function Act(s: State, e: Event): State
    requires Enabled(s, e)
  {
    match e
    case Query(now) => DoQuery(s, now)
    case Probe(now) => DoProbe(s, now)
    case Scanned(a, scan, readable, now) => DoScanned(s, a, scan, readable, now)
    case ScanFailed(a) => Goto(s, a, Settled(Failed))
    case ReadEnds(r, contents) => s.(loads := s.loads[r := s.loads[r].(result := Some(contents))])
    case SourceReleased(a) => DoSourceReleased(s, a)
    case Resumed(a, fault, now) => DoResumed(s, a, fault, now)
    case Ended(a) => DoEnded(s, a)
    case ForceRefresh => s.(service := ForcedRefresh(s.service))
  }

  function Apply(s: State, e: Event): State
    requires Enabled(s, e)
  {
    Act(s, e).(steps := s.steps + 1)
  }

  /** A run: any interleaving of enabled steps, from any persisted copy an earlier process left. */
  datatype Trace = Trace(events: seq<Event>, states: seq<State>)

  ghost predicate Run(t: Trace, first: State) {
    && |t.states| == |t.events| + 1 && t.states[0] == first
    && forall i, j :: 0 <= i < |t.events| && j == i + 1 ==> Steps(t.states[i], t.events[i], t.states[j])
  }

  ghost predicate Steps(s: State, e: Event, s': State) { Enabled(s, e) && s' == Apply(s, e) }
}
