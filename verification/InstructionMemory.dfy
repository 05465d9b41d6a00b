/** For how long the ledger remembers what a reader was served. */
module InstructionMemory {
  import opened Options
  import opened InstructionRules
  import opened InstructionLedger

  /** A use of the ledger: a version served to a reader, or a question about one. */
  datatype Use = Served(key: string, path: string, digest: Digest, now: int) | Asked(key: string, now: int)

  function Used(l: Ledger, u: Use): Ledger {
    match u
    case Served(key, path, digest, now) => Record(l, key, path, digest, now)
    case Asked(key, now) => Visit(l, key, false, now)
  }

  function UsedAll(l: Ledger, us: seq<Use>): Ledger
    decreases |us|
  {
    if us == [] then l else UsedAll(Used(l, us[0]), us[1..])
  }

  /** The other readers seen in these uses. */
  function OthersIn(us: seq<Use>, key: string): set<string> { set u | u in us && u.key != key :: u.key }

  /** The paths served to the reader in these uses. */
  function PathsIn(us: seq<Use>, key: string): set<string> { set u | u in us && u.Served? && u.key == key :: u.path }

  /** The reader, last seen `at`, is seen again before its time is over, up to the question at `now`. */
  predicate NeverIdle(at: int, us: seq<Use>, key: string, idle: int, now: int)
    decreases |us|
  {
    if us == [] then now - at <= idle
    else if us[0].key == key then us[0].now - at <= idle && NeverIdle(us[0].now, us[1..], key, idle, now)
    else NeverIdle(at, us[1..], key, idle, now)
  }

  // -------------------------------------------------------------------------
  // Lists that forget their first items
  // -------------------------------------------------------------------------

  lemma SuffixStays<T>(before: seq<T>, x: T, after: seq<T>, n: nat) returns (kept: seq<T>)
    requires |after| < n
    ensures Last(before + [x] + after, n) == kept + [x] + after && forall y :: y in kept ==> y in before
  {
    var s := before + [x] + after;
    kept := if |s| <= n then before else before[|s| - n..];
  }

  predicate DistinctKeys(readers: seq<Entry>) {
    forall i, j :: 0 <= i < j < |readers| ==> readers[i].key != readers[j].key
  }

  predicate KeysIn(readers: seq<Entry>, keys: set<string>) { forall e :: e in readers ==> e.key in keys }

  lemma {:induction false} FewReaders(readers: seq<Entry>, keys: set<string>)
    requires DistinctKeys(readers) && KeysIn(readers, keys)
    ensures |readers| <= |keys|
  {
    if readers != [] {
      var n := |readers| - 1;
      FewReaders(readers[..n], keys - {readers[n].key});
    }
  }

  lemma {:induction false} WithoutConcat(a: seq<Entry>, b: seq<Entry>, key: string)
    ensures Without(a + b, key) == Without(a, key) + Without(b, key)
  {
    if a == [] { assert a + b == b; } else { assert (a + b)[1..] == a[1..] + b; WithoutConcat(a[1..], b, key); }
  }

  lemma {:induction false} WithoutDistinct(readers: seq<Entry>, key: string)
    requires DistinctKeys(readers)
    ensures DistinctKeys(Without(readers, key))
  {
    if readers != [] { WithoutDistinct(readers[1..], key); }
  }

  predicate NoKey(readers: seq<Entry>, key: string) { forall e :: e in readers ==> e.key != key }

  predicate PathsAmong(proofs: seq<Proof>, paths: set<string>) { forall p :: p in proofs ==> p.path in paths }

  predicate NoPath(proofs: seq<Proof>, path: string) { forall p :: p in proofs ==> p.path != path }

  predicate DistinctPaths(proofs: seq<Proof>) {
    forall i, j :: 0 <= i < j < |proofs| ==> proofs[i].path != proofs[j].path
  }

  lemma {:induction false} FewProofs(proofs: seq<Proof>, paths: set<string>)
    requires DistinctPaths(proofs) && PathsAmong(proofs, paths)
    ensures |proofs| <= |paths|
  {
    if proofs != [] {
      var n := |proofs| - 1;
      FewProofs(proofs[..n], paths - {proofs[n].path});
    }
  }

  lemma {:induction false} WithoutPathConcat(a: seq<Proof>, b: seq<Proof>, path: string)
    ensures WithoutPath(a + b, path) == WithoutPath(a, path) + WithoutPath(b, path)
  {
    if a == [] { assert a + b == b; } else { assert (a + b)[1..] == a[1..] + b; WithoutPathConcat(a[1..], b, path); }
  }

  lemma {:induction false} WithoutPathDistinct(proofs: seq<Proof>, path: string)
    requires DistinctPaths(proofs)
    ensures DistinctPaths(WithoutPath(proofs, path))
  {
    if proofs != [] { WithoutPathDistinct(proofs[1..], path); }
  }

  // -------------------------------------------------------------------------
  // What stays remembered
  // -------------------------------------------------------------------------

  /** The proof stands in the entry, and those after it are of the given paths. */
  ghost predicate ProofStands(e: Entry, proof: Proof, paths: set<string>) {
    exists before, after :: Proofs(e.proofs, before, proof, after, paths)
  }

  predicate Proofs(proofs: seq<Proof>, before: seq<Proof>, proof: Proof, after: seq<Proof>, paths: set<string>) {
    proofs == before + [proof] + after && DistinctPaths(after) && PathsAmong(after, paths) && NoPath(before, proof.path)
  }

  /** The reader's entry stands in the ledger, and those after it are of the given readers. */
  ghost predicate Stands(l: Ledger, e: Entry, others: set<string>) {
    exists before, after :: Readers(l.readers, before, e, after, others)
  }

  predicate Readers(readers: seq<Entry>, before: seq<Entry>, e: Entry, after: seq<Entry>, others: set<string>) {
    readers == before + [e] + after && DistinctKeys(after) && KeysIn(after, others) && NoKey(before, e.key)
  }

  lemma StandsIsFound(l: Ledger, e: Entry, others: set<string>)
    requires Stands(l, e, others)
    ensures Find(l.readers, e.key) == Some(e)
  {
    var before, after :| Readers(l.readers, before, e, after, others);
    FoundAfter(before, e, after);
  }

  lemma {:induction false} FoundAfter(before: seq<Entry>, e: Entry, after: seq<Entry>)
    requires NoKey(before, e.key)
    ensures Find(before + [e] + after, e.key) == Some(e)
  {
    if before != [] {
      assert (before + [e] + after)[1..] == before[1..] + [e] + after;
      FoundAfter(before[1..], e, after);
    }
  }

  lemma {:induction false} ProofFoundAfter(before: seq<Proof>, proof: Proof, after: seq<Proof>)
    requires NoPath(before, proof.path)
    ensures FindProof(before + [proof] + after, proof.path) == Some(proof.digest)
  {
    if before != [] {
      assert (before + [proof] + after)[1..] == before[1..] + [proof] + after;
      ProofFoundAfter(before[1..], proof, after);
    }
  }

  /** A visit of another reader leaves the entry standing. */
  lemma OtherVisit(l: Ledger, e: Entry, others: set<string>, key: string, create: bool, now: int)
    requires Stands(l, e, others) && key in others && e.key !in others && |others| < l.maxReaders
    ensures Stands(Visit(l, key, create, now), e, others)
  {
    var before, after :| Readers(l.readers, before, e, after, others);
    var b, a := Without(before, key), Without(after, key);
    OtherWithout(l.readers, before, e, after, others, key);
    var found := Find(l.readers, key);
    if found.Some? && !Idle(l, found.value, now) {
      Appended(l, b, e, a, found.value.(lastSeen := now), others);
    } else if create {
      Appended(l, b, e, a, Entry(key, [], now), others);
    } else {
      assert Readers(Visit(l, key, create, now).readers, b, e, a, others);
    }
  }

  lemma OtherWithout(readers: seq<Entry>, before: seq<Entry>, e: Entry, after: seq<Entry>, others: set<string>, key: string)
    requires Readers(readers, before, e, after, others) && key != e.key
    ensures Readers(Without(readers, key), Without(before, key), e, Without(after, key), others)
    ensures NoKey(Without(after, key), key)
  {
    WithoutConcat(before + [e], after, key);
    WithoutConcat(before, [e], key);
    WithoutDistinct(after, key);
    assert Without([e], key) == [e];
  }

  lemma Appended(l: Ledger, before: seq<Entry>, e: Entry, after: seq<Entry>, x: Entry, others: set<string>)
    requires Readers(before + [e] + after, before, e, after, others)
    requires x.key in others && |others| < l.maxReaders && NoKey(after, x.key)
    ensures Stands(l.(readers := Last(before + [e] + after + [x], l.maxReaders)), e, others)
  {
    FewReaders(after + [x], others);
    assert before + [e] + after + [x] == before + [e] + (after + [x]);
    var kept := SuffixStays(before, e, after + [x], l.maxReaders);
    assert Readers(Last(before + [e] + after + [x], l.maxReaders), kept, e, after + [x], others);
  }

  /** A visit of the reader in time makes its entry the last one. */
  lemma OwnVisit(l: Ledger, e: Entry, others: set<string>, create: bool, now: int)
    requires Stands(l, e, others) && e.key !in others && l.maxReaders > 0 && now - e.lastSeen <= l.idle
    ensures var visited := Visit(l, e.key, create, now);
            && Stands(visited, e.(lastSeen := now), others)
            && visited.readers != [] && visited.readers[|visited.readers| - 1] == e.(lastSeen := now)
            && NoKey(visited.readers[..|visited.readers| - 1], e.key)
  {
    StandsIsFound(l, e, others);
    var seen := e.(lastSeen := now);
    var without := Without(l.readers, e.key);
    assert without + [seen] == without + [seen] + [];
    var kept := SuffixStays(without, seen, [], l.maxReaders);
    assert Readers(Visit(l, e.key, create, now).readers, kept, seen, [], others);
  }

  /** Another path recorded in the entry leaves the proof standing. */
  lemma OtherPath(e: Entry, proof: Proof, paths: set<string>, maxPaths: nat, path: string, digest: Digest)
    requires ProofStands(e, proof, paths) && path in paths && proof.path !in paths && |paths| < maxPaths
    ensures ProofStands(RecordIn(e, maxPaths, path, digest), proof, paths)
  {
    var before, after :| Proofs(e.proofs, before, proof, after, paths);
    WithoutBoth(before, proof, after, path);
    WithoutPathDistinct(after, path);
    AppendedPath(e, WithoutPath(before, path), proof, WithoutPath(after, path), paths, maxPaths, path, digest);
  }

  lemma WithoutBoth(before: seq<Proof>, proof: Proof, after: seq<Proof>, path: string)
    requires path != proof.path
    ensures WithoutPath(before + [proof] + after, path) == WithoutPath(before, path) + [proof] + WithoutPath(after, path)
  {
    WithoutPathConcat(before + [proof], after, path);
    WithoutPathConcat(before, [proof], path);
    assert WithoutPath([proof], path) == [proof];
  }

  lemma OneMorePath(a: seq<Proof>, paths: set<string>, path: string, digest: Digest)
    requires DistinctPaths(a) && PathsAmong(a, paths) && NoPath(a, path) && path in paths
    ensures DistinctPaths(a + [Proof(path, digest)]) && PathsAmong(a + [Proof(path, digest)], paths)
  {
  }

  lemma AppendedPath(e: Entry, b: seq<Proof>, proof: Proof, a: seq<Proof>, paths: set<string>, maxPaths: nat, path: string, digest: Digest)
    requires WithoutPath(e.proofs, path) == b + [proof] + a && DistinctPaths(a) && PathsAmong(a, paths) && NoPath(b, proof.path)
    requires NoPath(a, path) && path in paths && |paths| < maxPaths
    ensures ProofStands(RecordIn(e, maxPaths, path, digest), proof, paths)
  {
    var later := a + [Proof(path, digest)];
    OneMorePath(a, paths, path, digest);
    FewProofs(later, paths);
    assert b + [proof] + a + [Proof(path, digest)] == b + [proof] + later;
    var kept := SuffixStays(b, proof, later, maxPaths);
    assert Proofs(RecordIn(e, maxPaths, path, digest).proofs, kept, proof, later, paths);
  }

  /** What a use of the ledger must be for the proof to outlast it. */
  predicate Harmless(u: Use, e: Entry, others: set<string>, paths: set<string>, idle: int) {
    if u.key == e.key then u.now - e.lastSeen <= idle && (u.Served? ==> u.path in paths) else u.key in others
  }

  /** The reader's entry and its proof outlast such a use. */
  lemma Outlasts(l: Ledger, e: Entry, proof: Proof, others: set<string>, paths: set<string>, u: Use) returns (e': Entry)
    requires Stands(l, e, others) && ProofStands(e, proof, paths) && Harmless(u, e, others, paths, l.idle)
    requires e.key !in others && |others| < l.maxReaders && proof.path !in paths && |paths| < l.maxPaths
    ensures Stands(Used(l, u), e', others) && ProofStands(e', proof, paths)
    ensures e'.key == e.key && e'.lastSeen == (if u.key == e.key then u.now else e.lastSeen)
  {
    if u.key == e.key {
      e' := OwnOutlasts(l, e, proof, others, paths, u);
    } else {
      e' := e;
      OtherVisit(l, e, others, u.key, u.Served?, u.now);
      if u.Served? { RecordsLast(l, e, others, u.key, u.path, u.digest, u.now); }
    }
  }

  lemma OwnOutlasts(l: Ledger, e: Entry, proof: Proof, others: set<string>, paths: set<string>, u: Use) returns (e': Entry)
    requires Stands(l, e, others) && ProofStands(e, proof, paths) && u.key == e.key && Harmless(u, e, others, paths, l.idle)
    requires e.key !in others && 0 < l.maxReaders && proof.path !in paths && |paths| < l.maxPaths
    ensures Stands(Used(l, u), e', others) && ProofStands(e', proof, paths) && e'.key == e.key && e'.lastSeen == u.now
  {
    var seen := e.(lastSeen := u.now);
    OwnVisit(l, e, others, u.Served?, u.now);
    StillStands(e, seen, proof, paths);
    if u.Asked? {
      e' := seen;
    } else {
      e' := RecordIn(seen, l.maxPaths, u.path, u.digest);
      OtherPath(seen, proof, paths, l.maxPaths, u.path, u.digest);
      OwnRecord(l, seen, e', others, u.path, u.digest, u.now);
    }
  }

  lemma OwnRecord(l: Ledger, seen: Entry, e': Entry, others: set<string>, path: string, digest: Digest, now: int)
    requires e' == RecordIn(seen, l.maxPaths, path, digest)
    requires var readers := Visit(l, seen.key, true, now).readers;
             readers != [] && readers[|readers| - 1] == seen && NoKey(readers[..|readers| - 1], seen.key)
    ensures Stands(Record(l, seen.key, path, digest, now), e', others)
  {
    LastStands(Visit(l, seen.key, true, now).readers, e', others);
  }

  lemma StillStands(e: Entry, e': Entry, proof: Proof, paths: set<string>)
    requires ProofStands(e, proof, paths) && e'.proofs == e.proofs
    ensures ProofStands(e', proof, paths)
  {
    var before, after :| Proofs(e.proofs, before, proof, after, paths);
    assert Proofs(e'.proofs, before, proof, after, paths);
  }

  lemma LastStands(readers: seq<Entry>, e: Entry, others: set<string>)
    requires readers != [] && NoKey(readers[..|readers| - 1], e.key)
    ensures Readers(readers[|readers| - 1 := e], readers[..|readers| - 1], e, [], others)
  {
    var before := readers[..|readers| - 1];
    assert readers[|readers| - 1 := e] == before + [e] + [];
  }

  /** Recording for another reader changes that reader's entry alone. */
  lemma RecordsLast(l: Ledger, e: Entry, others: set<string>, key: string, path: string, digest: Digest, now: int)
    requires key != e.key && Stands(Visit(l, key, true, now), e, others)
    ensures Stands(Record(l, key, path, digest, now), e, others)
  {
    VisitedLast(l, key, now);
    var readers := Visit(l, key, true, now).readers;
    var before, after :| Readers(readers, before, e, after, others);
    LastOfThose(readers, before, e, after, others, RecordIn(readers[|readers| - 1], l.maxPaths, path, digest));
  }

  lemma LastOfThose(readers: seq<Entry>, before: seq<Entry>, e: Entry, after: seq<Entry>, others: set<string>, x: Entry)
    requires Readers(readers, before, e, after, others) && readers[|readers| - 1].key == x.key != e.key
    ensures after != [] && Readers(readers[|readers| - 1 := x], before, e, after[|after| - 1 := x], others)
  {
    assert after == [] ==> readers == before + [e];
    var m := |after| - 1;
    assert readers[|readers| - 1] == after[m];
    var changed := after[m := x];
    assert readers[|readers| - 1 := x] == before + [e] + changed;
    forall y: Entry | y in changed ensures y.key in others {
      var i :| 0 <= i < |changed| && changed[i] == y;
      assert after[i] in after && after[i].key == y.key;
    }
    assert DistinctKeys(changed);
  }

  predicate AllHarmless(us: seq<Use>, key: string, others: set<string>, paths: set<string>) {
    forall i :: 0 <= i < |us| ==> if us[i].key == key then us[i].Served? ==> us[i].path in paths else us[i].key in others
  }

  lemma {:induction false} StaysFound(l: Ledger, e: Entry, proof: Proof, others: set<string>, paths: set<string>, us: seq<Use>, now: int)
    requires Stands(l, e, others) && ProofStands(e, proof, paths) && AllHarmless(us, e.key, others, paths)
    requires e.key !in others && |others| < l.maxReaders && proof.path !in paths && |paths| < l.maxPaths
    requires NeverIdle(e.lastSeen, us, e.key, l.idle, now)
    ensures ProofOf(Visit(UsedAll(l, us), e.key, false, now), e.key, proof.path) == Some(proof.digest)
    decreases |us|
  {
    if us == [] {
      var e' := Outlasts(l, e, proof, others, paths, Asked(e.key, now));
      StandsIsFound(Visit(l, e.key, false, now), e', others);
      var before, after :| Proofs(e'.proofs, before, proof, after, paths);
      ProofFoundAfter(before, proof, after);
    } else {
      assert us[0].key == e.key || us[0].key in others;
      var e' := Outlasts(l, e, proof, others, paths, us[0]);
      assert AllHarmless(us[1..], e.key, others, paths) by {
        forall i | 0 <= i < |us[1..]|
          ensures if us[1..][i].key == e.key then us[1..][i].Served? ==> us[1..][i].path in paths else us[1..][i].key in others
        { assert us[1..][i] == us[i + 1]; }
      }
      StaysFound(Used(l, us[0]), e', proof, others, paths, us[1..], now);
    }
  }

  /**
   A version served to a reader is remembered through any uses of the ledger in which fewer other readers occur than
   it has room for, fewer other files are served to the reader than it keeps, and the reader is seen before its time
   is over. A later serving of the same file takes its place.
   */
  lemma ServedIsRemembered(l: Ledger, key: string, path: string, digest: Digest, at: int, us: seq<Use>, now: int)
    requires |OthersIn(us, key)| < l.maxReaders && |PathsIn(us, key)| < l.maxPaths && path !in PathsIn(us, key)
    requires NeverIdle(at, us, key, l.idle, now)
    ensures ProofOf(Visit(UsedAll(Record(l, key, path, digest, at), us), key, false, now), key, path) == Some(digest)
  {
    var others, paths := OthersIn(us, key), PathsIn(us, key);
    var e := JustServed(l, key, path, digest, at, others, paths);
    StaysFound(Record(l, key, path, digest, at), e, Proof(path, digest), others, paths, us, now);
  }

  lemma JustServed(l: Ledger, key: string, path: string, digest: Digest, at: int, others: set<string>, paths: set<string>) returns (e: Entry)
    requires l.maxReaders > 0 && l.maxPaths > 0
    ensures Stands(Record(l, key, path, digest, at), e, others) && ProofStands(e, Proof(path, digest), paths)
    ensures e.key == key && e.lastSeen == at
  {
    VisitedLast(l, key, at);
    SeenNow(l, key, at);
    var visited := Visit(l, key, true, at).readers;
    e := RecordIn(visited[|visited| - 1], l.maxPaths, path, digest);
    LastStands(visited, e, others);
    RecordedStands(visited[|visited| - 1], l.maxPaths, path, digest, paths);
  }

  lemma RecordedStands(last: Entry, maxPaths: nat, path: string, digest: Digest, paths: set<string>)
    requires maxPaths > 0
    ensures ProofStands(RecordIn(last, maxPaths, path, digest), Proof(path, digest), paths)
  {
    var without, proof := WithoutPath(last.proofs, path), Proof(path, digest);
    assert without + [proof] == without + [proof] + [];
    var kept := SuffixStays(without, proof, [], maxPaths);
    assert Proofs(RecordIn(last, maxPaths, path, digest).proofs, kept, proof, [], paths);
  }

  lemma SeenNow(l: Ledger, key: string, now: int)
    requires l.maxReaders > 0
    ensures var visited := Visit(l, key, true, now).readers; visited != [] && visited[|visited| - 1].lastSeen == now
  {
  }

  /** A reader not seen for longer than its time has no proof left, whatever it was served. */
  lemma IdleIsForgotten(l: Ledger, key: string, path: string, now: int)
    requires Find(l.readers, key).Some? ==> now - Find(l.readers, key).value.lastSeen > l.idle
    ensures ProofOf(Visit(l, key, false, now), key, path).None?
  {
  }
}
