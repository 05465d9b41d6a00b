/** The objects the semantic cache updates in place: the database tables and the fields of the service. */
module SemanticCacheService {
  import opened Options
  import opened SemanticCache

  class CacheDatabase {
    var rows: seq<Item>
    var manifest: Option<Manifest>

    constructor ()
      ensures View() == Database([], None)
    {
      rows, manifest := [], None;
    }

    function View(): Database
      reads this
    {
      Database(rows, manifest)
    }

    /** One transaction: all rows and the manifest are replaced together, or everything is rolled back. */
    method PersistSnapshot(directory: string, items: seq<Item>, scan: Scan, now: int, fault: Option<nat>) returns (snapshot: Option<Snapshot>)
      modifies this
      ensures Persist(old(View()), directory, items, scan, now, fault).None? ==> snapshot.None? && View() == old(View())
      ensures Persist(old(View()), directory, items, scan, now, fault).Some? ==>
                && snapshot == Some(SourceSnapshot(items, scan, now))
                && View() == Persist(old(View()), directory, items, scan, now, fault).value
    {
      if fault.Some? && fault.value < 2 { return None; }
      var savedRows, savedManifest := rows, manifest;
      rows := [];
      var i := 0;
      while i < |items|
        invariant 0 <= i <= |items| && InsertRows(items[..i]) == Some(rows)
        invariant fault.Some? ==> fault.value >= i + 2
        invariant manifest == savedManifest
      {
        var longer := InsertRow(rows, items[i]);
        assert items[..i + 1][..i] == items[..i];
        if longer.None? || fault == Some(i + 2) {
          if longer.None? { PrefixRefused(items, i + 1); }
          rows, manifest := savedRows, savedManifest;
          return None;
        }
        rows := longer.value;
        i := i + 1;
      }
      assert items[..i] == items;
      if fault == Some(|items| + 2) || fault == Some(|items| + 3) {
        rows, manifest := savedRows, savedManifest;
        return None;
      }
      manifest := Some(Manifest(directory, scan.signature, scan.fileCount, |items|, now));
      snapshot := Some(SourceSnapshot(items, scan, now));
    }
  }

  lemma {:induction false} PrefixRefused(items: seq<Item>, n: nat)
    requires n <= |items| && InsertRows(items[..n]).None?
    ensures InsertRows(items).None?
    decreases |items|
  {
    if n == |items| {
      assert items[..n] == items;
    } else {
      assert items[..|items| - 1][..n] == items[..n];
      PrefixRefused(items[..|items| - 1], n);
    }
  }

  /** The end of a refresh that has read the sources. */
  datatype Outcome = BeginAgain | StorageFailed | Published(snapshot: Snapshot)

  class Cache {
    const directory: string
    const ttl: nat
    const database: CacheDatabase
    var memorySnapshot: Option<Snapshot>
    var memorySnapshotLoadedAt: int
    var pendingSnapshot: Option<nat>
    var refreshGeneration: nat
    var pendingSource: Option<Source>
    var readiness: Option<Readiness>
    var pendingReadiness: Option<nat>
    var loadStartedAt: Option<int>

    constructor (directory: string, database: CacheDatabase, ttl: nat)
      ensures this.database == database
      ensures View() == Start(directory, ttl, database.View()).service
    {
      this.directory, this.database, this.ttl := directory, database, ttl;
      memorySnapshot, memorySnapshotLoadedAt, pendingSnapshot, refreshGeneration := None, 0, None, 0;
      pendingSource, readiness, pendingReadiness, loadStartedAt := None, None, None, None;
    }

    function View(): Service
      reads this, database
    {
      Service(directory, ttl, database.View(), memorySnapshot, memorySnapshotLoadedAt, pendingSnapshot, refreshGeneration,
              pendingSource, readiness, pendingReadiness, loadStartedAt)
    }

    /** The synchronous part of getSnapshot; `attempt` names the refresh it starts, if it starts one. */
    method GetSnapshot(attempt: nat, now: int) returns (reply: Reply)
      modifies this
      ensures reply == QueryReply(old(View()), now)
      ensures View() == if reply == Starts then BeginSnapshot(old(View()), attempt, now) else old(View())
    {
      if directory == "" { return NotConfigured; }
      if memorySnapshot.Some? && (ttl == 0 || now - memorySnapshotLoadedAt < ttl) { return AtOnce; }
      if pendingSnapshot.Some? { return Joins(pendingSnapshot.value); }
      if loadStartedAt.None? { loadStartedAt := Some(now); }
      pendingSnapshot := Some(attempt);
      reply := Starts;
    }

    method ReleaseMarker()
      modifies this`loadStartedAt
      ensures View() == ReleaseLoadMarker(old(View()))
    {
      if pendingSnapshot.None? && pendingReadiness.None? { loadStartedAt := None; }
    }

    method GetSnapshotEnds(attempt: nat)
      modifies this
      ensures View() == EndSnapshot(old(View()), attempt)
    {
      if pendingSnapshot == Some(attempt) { pendingSnapshot := None; }
      ReleaseMarker();
    }

    /** The synchronous part of probeReadiness. */
    method ProbeReadiness(attempt: nat, now: int) returns (reply: Reply)
      modifies this
      ensures reply == ProbeReply(old(View()), now)
      ensures View() == if reply == Starts then BeginReadiness(old(View()), attempt, now) else old(View())
    {
      if directory == "" { return NotConfigured; }
      if memorySnapshot.Some? && (ttl == 0 || now - memorySnapshotLoadedAt < ttl) { return AtOnce; }
      var limit := if ttl == 0 then 60000 else ttl;
      if limit > 60000 { limit := 60000; }
      if readiness.Some? && now - readiness.value.observedAt < limit { return AtOnce; }
      if pendingSnapshot.Some? { return Joins(pendingSnapshot.value); }
      if pendingReadiness.Some? { return Joins(pendingReadiness.value); }
      if loadStartedAt.None? { loadStartedAt := Some(now); }
      pendingReadiness := Some(attempt);
      reply := Starts;
    }

    method ProbeReadinessEnds(attempt: nat)
      modifies this
      ensures View() == EndReadiness(old(View()), attempt)
    {
      if pendingReadiness == Some(attempt) { pendingReadiness := None; }
      ReleaseMarker();
    }

    /** A refresh goes on after its scan: begin again, answer from memory or rows, or read the sources. */
    method RefreshScanned(generation: nat, scan: Scan, readable: bool, now: int) returns (found: Found)
      modifies this
      ensures found == RefreshFinds(old(View()), generation, scan, readable)
      ensures View() == if found.Held? || found.Loaded? then Remember(old(View()), found.snapshot, now) else old(View())
    {
      if generation != refreshGeneration { return Again; }
      if memorySnapshot.Some? && memorySnapshot.value.signature == scan.signature {
        memorySnapshotLoadedAt := now;
        return Held(memorySnapshot.value);
      }
      var manifest := database.manifest;
      if manifest.Some? && manifest.value.signature == scan.signature && manifest.value.directory == directory && readable {
        var snapshot := StoredSnapshot(database.View());
        memorySnapshot, memorySnapshotLoadedAt := Some(snapshot), now;
        return Loaded(snapshot);
      }
      found := Missing;
    }

    method LoadSource(generation: nat, signature: string, nextRead: nat) returns (read: nat, owner: bool)
      modifies this`pendingSource
      ensures owner <==> !SharesSource(old(View()), generation, signature)
      ensures owner ==> read == nextRead && View() == old(View()).(pendingSource := Some(Source(generation, signature, nextRead)))
      ensures !owner ==> old(pendingSource) == Some(Source(generation, signature, read)) && View() == old(View())
    {
      if pendingSource.Some? && pendingSource.value.generation == generation && pendingSource.value.signature == signature {
        return pendingSource.value.read, false;
      }
      pendingSource := Some(Source(generation, signature, nextRead));
      return nextRead, true;
    }

    method SourceLoaded(read: nat)
      modifies this`pendingSource
      ensures View() == ReleaseSource(old(View()), read)
    {
      if pendingSource.Some? && pendingSource.value.read == read { pendingSource := None; }
    }

    /** A refresh goes on after reading the sources: an overtaken result is not published. */
    method RefreshResumed(generation: nat, items: seq<Item>, scan: Scan, fault: Option<nat>, now: int) returns (outcome: Outcome)
      modifies this, database
      ensures outcome.BeginAgain? <==> generation != old(refreshGeneration)
      ensures outcome.Published? <==> generation == old(refreshGeneration) && Persist(old(database.View()), directory, items, scan, now, fault).Some?
      ensures outcome.Published? ==>
                && outcome.snapshot == SourceSnapshot(items, scan, now)
                && View() == Remember(old(View()).(db := Persist(old(database.View()), directory, items, scan, now, fault).value), outcome.snapshot, now)
      ensures !outcome.Published? ==> View() == old(View())
    {
      if generation != refreshGeneration { return BeginAgain; }
      var snapshot := database.PersistSnapshot(directory, items, scan, now, fault);
      if snapshot.None? { return StorageFailed; }
      memorySnapshot, memorySnapshotLoadedAt := snapshot, now;
      outcome := Published(snapshot.value);
    }

    /** The last part of a validation. */
    method ValidationEnds(generation: nat, items: seq<Item>, now: int) returns (again: bool, value: Option<Readiness>)
      modifies this`readiness
      ensures again <==> generation != refreshGeneration
      ensures value.Some? <==> !again && CountValid(items) > 0
      ensures value.Some? ==> value.value == Readiness(CountValid(items), now)
      ensures View() == if value.Some? then old(View()).(readiness := value) else old(View())
    {
      if generation != refreshGeneration { return true, None; }
      again := false;
      var count := CountValid(items);
      if count == 0 { return false, None; }
      value := Some(Readiness(count, now));
      readiness := value;
    }

    method ForceRefresh()
      modifies this
      ensures View() == ForcedRefresh(old(View()))
    {
      refreshGeneration := refreshGeneration + 1;
      readiness := None;
      memorySnapshot := None;
      memorySnapshotLoadedAt := 0;
    }
  }
}
