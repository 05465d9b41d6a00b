/** Which instruction versions each reader was served: a bounded registry that forgets the least recent. */
module InstructionLedger {
  import opened Options
  import opened InstructionRules

  datatype Proof = Proof(path: string, digest: Digest)

  datatype Entry = Entry(key: string, proofs: seq<Proof>, lastSeen: int)

  /** Readers, and the proofs of each, in the order they were last written. */
  datatype Ledger = Ledger(readers: seq<Entry>, maxReaders: nat, maxPaths: nat, idle: int)

  function Find(readers: seq<Entry>, key: string): (r: Option<Entry>)
    ensures r.Some? ==> r.value in readers && r.value.key == key
    ensures r.None? ==> forall e :: e in readers ==> e.key != key
  {
    if readers == [] then None else if readers[0].key == key then Some(readers[0]) else Find(readers[1..], key)
  }

  function Without(readers: seq<Entry>, key: string): (r: seq<Entry>)
    ensures forall e :: e in r <==> e in readers && e.key != key
  {
    if readers == [] then [] else (if readers[0].key == key then [] else [readers[0]]) + Without(readers[1..], key)
  }

  /** The last `n` items: the first ones are forgotten. */
  function Last<T>(s: seq<T>, n: nat): (r: seq<T>)
    ensures |r| <= n && (forall x :: x in r ==> x in s) && (|s| <= n ==> r == s)
    ensures s != [] && n > 0 ==> r != [] && r[|r| - 1] == s[|s| - 1]
  {
    if |s| <= n then s else s[|s| - n..]
  }

  function FindProof(proofs: seq<Proof>, path: string): (r: Option<Digest>)
    ensures r.Some? ==> Proof(path, r.value) in proofs
  {
    if proofs == [] then None else if proofs[0].path == path then Some(proofs[0].digest) else FindProof(proofs[1..], path)
  }

  function WithoutPath(proofs: seq<Proof>, path: string): (r: seq<Proof>)
    ensures forall x :: x in r <==> x in proofs && x.path != path
  {
    if proofs == [] then [] else (if proofs[0].path == path then [] else [proofs[0]]) + WithoutPath(proofs[1..], path)
  }

  predicate Idle(l: Ledger, e: Entry, now: int) { now - e.lastSeen > l.idle }

  /** Looks the reader up: an idle one is dropped, a live one becomes the most recent, and a missing one is created on demand. */
  function Visit(l: Ledger, key: string, create: bool, now: int): Ledger {
    var found := Find(l.readers, key);
    var others := Without(l.readers, key);
    if found.Some? && !Idle(l, found.value, now) then
      l.(readers := Last(others + [found.value.(lastSeen := now)], l.maxReaders))
    else if create then l.(readers := Last(others + [Entry(key, [], now)], l.maxReaders))
    else l.(readers := others)
  }

  function RecordIn(e: Entry, maxPaths: nat, path: string, digest: Digest): Entry {
    e.(proofs := Last(WithoutPath(e.proofs, path) + [Proof(path, digest)], maxPaths))
  }

  function Record(l: Ledger, key: string, path: string, digest: Digest, now: int): Ledger {
    var visited := Visit(l, key, true, now);
    if visited.readers == [] then visited
    else
      var last := |visited.readers| - 1;
      visited.(readers := visited.readers[last := RecordIn(visited.readers[last], l.maxPaths, path, digest)])
  }

  function ProofOf(l: Ledger, key: string, path: string): Option<Digest> {
    var e := Find(l.readers, key);
    if e.None? then None else FindProof(e.value.proofs, path)
  }

  /** A proof the ledger holds. */
  predicate Holds(l: Ledger, key: string, path: string, digest: Digest) {
    exists i :: 0 <= i < |l.readers| && HoldsIn(l.readers[i], key, path, digest)
  }

  predicate HoldsIn(e: Entry, key: string, path: string, digest: Digest) { e.key == key && Proof(path, digest) in e.proofs }

  lemma VisitForgets(l: Ledger, key: string, create: bool, now: int, k: string, path: string, digest: Digest)
    requires Holds(Visit(l, key, create, now), k, path, digest)
    ensures Holds(l, k, path, digest)
  {
    var visited := Visit(l, key, create, now).readers;
    var i :| 0 <= i < |visited| && HoldsIn(visited[i], k, path, digest);
    var e := visited[i];
    VisitedFrom(l, key, create, now, e);
    if e in l.readers {
      HeldBy(l, e, k, path, digest);
    } else {
      var before := Find(l.readers, key).value;
      assert e == before.(lastSeen := now);
      HeldBy(l, before, k, path, digest);
    }
  }

  lemma HeldBy(l: Ledger, e: Entry, key: string, path: string, digest: Digest)
    requires e in l.readers && HoldsIn(e, key, path, digest)
    ensures Holds(l, key, path, digest)
  {
    var j :| 0 <= j < |l.readers| && l.readers[j] == e;
  }

  /** An entry after a visit was there before, is a visited one with its proofs, or is new and empty. */
  lemma VisitedFrom(l: Ledger, key: string, create: bool, now: int, e: Entry)
    requires e in Visit(l, key, create, now).readers
    ensures e in l.readers || (Find(l.readers, key).Some? && e == Find(l.readers, key).value.(lastSeen := now)) || e.proofs == []
  {
  }

  /** Recording and looking up never invent a proof: what is held was held before, or is the one recorded. */
  lemma RecordAddsOne(l: Ledger, key: string, path: string, digest: Digest, now: int, k: string, p: string, d: Digest)
    requires Holds(Record(l, key, path, digest, now), k, p, d)
    ensures Holds(l, k, p, d) || (k == key && p == path && d == digest)
  {
    var after := Record(l, key, path, digest, now).readers;
    var i :| 0 <= i < |after| && HoldsIn(after[i], k, p, d);
    if !(k == key && p == path && d == digest) {
      VisitedLast(l, key, now);
      var visited := Visit(l, key, true, now);
      RecordedFrom(visited.readers, l.maxPaths, key, path, digest, i, k, p, d);
      HeldBy(visited, visited.readers[i], k, p, d);
      VisitForgets(l, key, true, now, k, p, d);
    }
  }

  lemma RecordedFrom(visited: seq<Entry>, maxPaths: nat, key: string, path: string, digest: Digest, i: nat, k: string, p: string, d: Digest)
    requires i < |visited| && visited[|visited| - 1].key == key
    requires HoldsIn(visited[|visited| - 1 := RecordIn(visited[|visited| - 1], maxPaths, path, digest)][i], k, p, d)
    requires !(k == key && p == path && d == digest)
    ensures HoldsIn(visited[i], k, p, d)
  {
    if i == |visited| - 1 {
      assert Proof(p, d) in WithoutPath(visited[i].proofs, path) + [Proof(path, digest)];
    }
  }

  /** After a visit on demand the reader comes last, and nowhere else. */
  lemma VisitedLast(l: Ledger, key: string, now: int)
    ensures var visited := Visit(l, key, true, now).readers;
            && (visited != [] ==> visited[|visited| - 1].key == key)
            && (forall i :: 0 <= i < |visited| - 1 ==> visited[i].key != key)
            && (l.maxReaders > 0 ==> visited != []) && |visited| <= l.maxReaders
  {
    var found := Find(l.readers, key);
    var e := if found.Some? && !Idle(l, found.value, now) then found.value.(lastSeen := now) else Entry(key, [], now);
    LastKey(Without(l.readers, key), e, l.maxReaders);
  }

  lemma LastKey(others: seq<Entry>, e: Entry, n: nat)
    requires forall x :: x in others ==> x.key != e.key
    ensures var r := Last(others + [e], n);
            && (r != [] ==> r[|r| - 1] == e) && (forall i :: 0 <= i < |r| - 1 ==> r[i].key != e.key)
  {
    var r := Last(others + [e], n);
    forall i | 0 <= i < |r| - 1 ensures r[i].key != e.key {
      assert r[i] == (others + [e])[i + (|others| + 1 - |r|)];
      assert r[i] == others[i + (|others| + 1 - |r|)];
    }
  }

  lemma LastProof(others: seq<Proof>, proof: Proof, n: nat)
    requires n > 0 && forall x :: x in others ==> x.path != proof.path
    ensures FindProof(Last(others + [proof], n), proof.path) == Some(proof.digest)
  {
    var r := Last(others + [proof], n);
    forall i | 0 <= i < |r| - 1 ensures r[i].path != proof.path {
      assert r[i] == (others + [proof])[i + (|others| + 1 - |r|)];
      assert r[i] == others[i + (|others| + 1 - |r|)];
    }
    FindProofLast(r, proof.path, proof.digest);
  }

  /** Just after recording, the reader has that proof, whatever was forgotten, and the ledger stays bounded. */
  lemma RecordedIsFound(l: Ledger, key: string, path: string, digest: Digest, now: int)
    requires l.maxReaders > 0 && l.maxPaths > 0
    ensures ProofOf(Record(l, key, path, digest, now), key, path) == Some(digest)
    ensures |Record(l, key, path, digest, now).readers| <= l.maxReaders
  {
    VisitedLast(l, key, now);
    var visited := Visit(l, key, true, now).readers;
    var last := visited[|visited| - 1];
    LastRecorded(visited, RecordIn(last, l.maxPaths, path, digest), key);
    LastProof(WithoutPath(last.proofs, path), Proof(path, digest), l.maxPaths);
  }

  lemma LastRecorded(visited: seq<Entry>, last: Entry, key: string)
    requires visited != [] && last.key == key && forall i :: 0 <= i < |visited| - 1 ==> visited[i].key != key
    ensures Find(visited[|visited| - 1 := last], key) == Some(last)
  {
    FindLast(visited[|visited| - 1 := last], key);
  }

  lemma {:induction false} FindLast(readers: seq<Entry>, key: string)
    requires readers != [] && readers[|readers| - 1].key == key && forall i :: 0 <= i < |readers| - 1 ==> readers[i].key != key
    ensures Find(readers, key) == Some(readers[|readers| - 1])
  {
    if |readers| > 1 { FindLast(readers[1..], key); }
  }

  lemma {:induction false} FindProofLast(proofs: seq<Proof>, path: string, digest: Digest)
    requires proofs != [] && proofs[|proofs| - 1] == Proof(path, digest) && forall i :: 0 <= i < |proofs| - 1 ==> proofs[i].path != path
    ensures FindProof(proofs, path) == Some(digest)
  {
    if |proofs| > 1 { FindProofLast(proofs[1..], path, digest); }
  }

  // -------------------------------------------------------------------------
  // The state of a file for a reader
  // -------------------------------------------------------------------------

  /** Some spelling of the file was served to the reader with this content. */
  predicate ReadBy(f: Forms, l: Ledger, key: string, file: RuleFile) {
    exists i :: 0 <= i < |Aliases(f, file.path)| && ProofOf(l, key, Aliases(f, file.path)[i]) == Some(file.digest)
  }

  predicate AllRead(f: Forms, l: Ledger, key: string, files: seq<RuleFile>) {
    forall i :: 0 <= i < |files| ==> ReadBy(f, l, key, files[i])
  }

  /** The registry as it is used: every lookup visits the reader. */
  class ReadLedger {
    const maxReaders: nat
    const maxPathsPerReader: nat
    const idleMs: int
    var readers: seq<Entry>

    constructor (maxReaders: nat, maxPathsPerReader: nat, idleMs: int)
      ensures View() == Ledger([], maxReaders, maxPathsPerReader, idleMs)
    {
      this.maxReaders, this.maxPathsPerReader, this.idleMs := maxReaders, maxPathsPerReader, idleMs;
      readers := [];
    }

    function View(): Ledger
      reads this
    {
      Ledger(readers, maxReaders, maxPathsPerReader, idleMs)
    }

    method VisitEntry(key: string, create: bool, now: int)
      modifies this
      ensures View() == Visit(old(View()), key, create, now)
    {
      var entry := Find(readers, key);
      readers := Without(readers, key);
      if entry.Some? && now - entry.value.lastSeen > idleMs { entry := None; }
      if entry.None? && !create { return; }
      var seen := if entry.Some? then entry.value.(lastSeen := now) else Entry(key, [], now);
      readers := Last(readers + [seen], maxReaders);
    }

    method RecordProof(key: string, path: string, digest: Digest, now: int)
      modifies this
      ensures View() == Record(old(View()), key, path, digest, now)
    {
      VisitEntry(key, true, now);
      if readers != [] {
        var last := |readers| - 1;
        readers := readers[last := RecordIn(readers[last], maxPathsPerReader, path, digest)];
      }
    }

    method LookUp(key: string, path: string, now: int) returns (digest: Option<Digest>)
      modifies this
      ensures View() == Visit(old(View()), key, false, now) && digest == ProofOf(View(), key, path)
    {
      VisitEntry(key, false, now);
      digest := ProofOf(View(), key, path);
    }
  }
}
