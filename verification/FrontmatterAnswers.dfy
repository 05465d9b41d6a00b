/** Exactly which patches of a note are accepted. */
module FrontmatterAnswers {
  import opened Options
  import opened TextSplice
  import opened TextLines
  import opened FrontmatterSource
  import opened FrontmatterLines
  import opened FrontmatterLayout
  import opened FrontmatterPatch
  import opened FrontmatterProofs
  import opened FrontmatterResults

  /** The entry an operation is about: its key differs from the operation's in case at most. */
  predicate IsAbout(p: Platform, src: Source, op: Operation, i: nat) {
    i < |src.entries| && p.fold(src.entries[i].key) == p.fold(op.key)
  }

  predicate IsNew(p: Platform, src: Source, op: Operation) { forall i :: 0 <= i < |src.entries| ==> !IsAbout(p, src, op, i) }

  /** An entry that can be edited at all: no block scalar, and no quoted scalar over several lines. */
  predicate Editable(e: Entry) { !e.blockScalar && !e.quoted }

  predicate Uncommented(e: Entry) { !e.leadingComment && !e.trailingComment }

  /** A value can be written when its rendering fits and has no line break. */
  predicate Writable(p: Platform, op: Operation)
    requires op.Set?
  {
    '\n' !in p.json(op.value) && '\r' !in p.json(op.value) && p.bytes(p.json(op.value)) <= 262144
  }

  /** An entry to be changed is editable, one to be deleted is there and has no comment next to it. */
  predicate Allowed(p: Platform, src: Source, op: Operation) {
    && (forall i :: 0 <= i < |src.entries| && IsAbout(p, src, op, i) ==> Editable(src.entries[i]) && (op.Delete? ==> Uncommented(src.entries[i])))
    && (if op.Set? then Writable(p, op) else !IsNew(p, src, op))
  }

  predicate AllAllowed(p: Platform, src: Source, ops: seq<Operation>) { forall k :: 0 <= k < |ops| ==> Allowed(p, src, ops[k]) }

  /** Keys can be added unless a comment follows the last entry. */
  predicate MayAdd(p: Platform, src: Source, ops: seq<Operation>) {
    src.trailingComment ==> NoneNew(p, src, ops)
  }

  predicate NoneNew(p: Platform, src: Source, ops: seq<Operation>) { forall k :: 0 <= k < |ops| ==> !IsNew(p, src, ops[k]) }

  /** The entry found is the only one the operation is about. */
  lemma HitIs(p: Platform, src: Source, op: Operation)
    requires SourceOk(p, src)
    ensures Hit(p, src, op).None? <==> IsNew(p, src, op)
    ensures Hit(p, src, op).Some? ==>
              && (exists i :: 0 <= i < |src.entries| && IsAbout(p, src, op, i))
              && forall i :: 0 <= i < |src.entries| && IsAbout(p, src, op, i) ==> src.entries[i] == Hit(p, src, op).value
  {
    if Hit(p, src, op).Some? {
      var n := HitEntry(p, src, op);
      assert IsAbout(p, src, op, n);
      forall i | 0 <= i < |src.entries| && IsAbout(p, src, op, i) ensures src.entries[i] == src.entries[n] { SameKeySameEntry(p, src, i, n); }
    } else {
      forall i | 0 <= i < |src.entries| ensures !IsAbout(p, src, op, i) { AdditionIsNew(p, src, op, i); }
    }
  }

  lemma OneAllowed(p: Platform, src: Source, plan: Plan, op: Operation)
    requires SourceOk(p, src)
    ensures PlanOne(p, src, plan, op).Ok? <==> Allowed(p, src, op)
  {
    HitIs(p, src, op);
    AllowedOn(p, src, op, Hit(p, src, op));
    PlansOn(p, src, plan, op);
  }

  lemma PlansOn(p: Platform, src: Source, plan: Plan, op: Operation)
    ensures var hit := Hit(p, src, op);
            PlanOne(p, src, plan, op).Ok? <==>
              && (hit.Some? ==> Editable(hit.value) && (op.Delete? ==> Uncommented(hit.value)))
              && (if op.Set? then Writable(p, op) else hit.Some?)
  {
  }

  /** An operation is allowed exactly when it is on the entry found, or as one on a new key. */
  lemma AllowedOn(p: Platform, src: Source, op: Operation, hit: Option<Entry>)
    requires hit.None? <==> IsNew(p, src, op)
    requires hit.Some? ==> (exists i :: 0 <= i < |src.entries| && IsAbout(p, src, op, i))
    requires hit.Some? ==> forall i :: 0 <= i < |src.entries| && IsAbout(p, src, op, i) ==> src.entries[i] == hit.value
    ensures Allowed(p, src, op) <==>
              && (hit.Some? ==> Editable(hit.value) && (op.Delete? ==> Uncommented(hit.value)))
              && (if op.Set? then Writable(p, op) else hit.Some?)
  {
  }

  lemma {:induction false} PlannedIff(p: Platform, src: Source, ops: seq<Operation>)
    requires SourceOk(p, src)
    ensures PlanAll(p, src, ops).Ok? <==> AllAllowed(p, src, ops)
    decreases |ops|
  {
    if ops != [] {
      var before, last := ops[..|ops| - 1], ops[|ops| - 1];
      PlannedIff(p, src, before);
      if PlanAll(p, src, before).Ok? { OneAllowed(p, src, PlanAll(p, src, before).value, last); }
      AllowedSnoc(p, src, ops);
    }
  }

  lemma AllowedSnoc(p: Platform, src: Source, ops: seq<Operation>)
    requires ops != []
    ensures AllAllowed(p, src, ops) <==> AllAllowed(p, src, ops[..|ops| - 1]) && Allowed(p, src, ops[|ops| - 1])
  {
  }

  lemma {:induction false} AddsNothingIff(p: Platform, src: Source, ops: seq<Operation>)
    requires SourceOk(p, src) && AllAllowed(p, src, ops)
    ensures AddedLines(p, src, Additions(p, src, ops)) == [] <==> NoneNew(p, src, ops)
    decreases |ops|
  {
    if ops != [] {
      var before, last := ops[..|ops| - 1], ops[|ops| - 1];
      AllowedSnoc(p, src, ops);
      AddsNothingIff(p, src, before);
      AddedLinesSnoc(p, src, ops);
      AddsLineIff(p, src, last);
      NoneNewSnoc(p, src, ops);
    }
  }

  lemma AddsLineIff(p: Platform, src: Source, op: Operation)
    requires SourceOk(p, src) && Allowed(p, src, op)
    ensures Hit(p, src, op).None? <==> IsNew(p, src, op)
    ensures IsNew(p, src, op) ==> LineFor(p, src, op) != []
  {
    HitIs(p, src, op);
  }

  lemma NoneNewSnoc(p: Platform, src: Source, ops: seq<Operation>)
    requires ops != []
    ensures NoneNew(p, src, ops) <==> NoneNew(p, src, ops[..|ops| - 1]) && !IsNew(p, src, ops[|ops| - 1])
  {
  }

  /** Edits are found exactly when every operation is allowed and keys may be added if some are. */
  lemma EditsIff(p: Platform, src: Source, ops: seq<Operation>)
    requires SourceOk(p, src)
    ensures Edits(p, src, ops).Ok? <==> AllAllowed(p, src, ops) && MayAdd(p, src, ops)
  {
    PlannedIff(p, src, ops);
    if AllAllowed(p, src, ops) {
      PlanIs(p, src, ops);
      AddsNothingIff(p, src, ops);
    }
  }

  lemma SameAllowed(p: Platform, src: Source, a: seq<Operation>, b: seq<Operation>)
    requires multiset(a) == multiset(b)
    ensures AllAllowed(p, src, a) ==> AllAllowed(p, src, b)
    ensures MayAdd(p, src, a) ==> MayAdd(p, src, b)
    ensures AllOneLine(p, a) ==> AllOneLine(p, b)
  {
    forall k | 0 <= k < |b| ensures exists j :: 0 <= j < |a| && a[j] == b[k] { SameItem(b, a, k); }
  }

  /** Between 1 and 64 operations on bare keys that differ in more than case, with values that can be written as JSON. */
  predicate ListOk(p: Platform, ops: seq<Operation>) {
    && 1 <= |ops| <= 64 && (forall i :: 0 <= i < |ops| ==> BareKey(p, ops[i].key) && (ops[i].Set? ==> p.canonical(ops[i].value)))
    && forall i, j :: 0 <= i < j < |ops| ==> p.fold(ops[i].key) != p.fold(ops[j].key)
  }

  lemma ListIff(p: Platform, ops: seq<Operation>)
    ensures Canonicalize(p, ops).Ok? <==> ListOk(p, ops)
  {
    CheckMeans(p, ops);
    if ListOk(p, ops) {
      forall i | 0 <= i < |ops| ensures OperationOk(p, ops[i]) {}
    }
    if AllOperationsOk(p, ops) {
      forall i | 0 <= i < |ops| ensures BareKey(p, ops[i].key) && (ops[i].Set? ==> p.canonical(ops[i].value)) { assert OperationOk(p, ops[i]); }
    }
  }

  /**
   A patch is accepted exactly when its list is, the note can be read, every operation is allowed on what was read,
   no key is added behind a comment, every rendered value is one line, and the YAML library accepts the result.
   */
  lemma AcceptedExactly(p: Platform, content: string, operations: seq<Operation>)
    requires Conventional(p)
    ensures var src := Parse(p, content);
            Compile(p, content, operations).Ok? <==>
              && ListOk(p, operations) && src.Ok? && AllAllowed(p, src.value, operations) && MayAdd(p, src.value, operations)
              && AllOneLine(p, operations) && Accepts(p, src.value, operations)
  {
    ListIff(p, operations);
    if Canonicalize(p, operations).Ok? && Parse(p, content).Ok? {
      var ops, src := Canonicalize(p, operations).value, Parse(p, content).value;
      CanonicalIsOk(p, operations);
      SourceIsOk(p, content);
      EditsIff(p, src, ops);
      SameAllowed(p, src, ops, operations);
      SameAllowed(p, src, operations, ops);
      if Edits(p, src, ops).Ok? { AcceptedIff(p, content, operations); }
    }
  }

  lemma SourceIsOk(p: Platform, content: string)
    requires Parse(p, content).Ok?
    ensures SourceOk(p, Parse(p, content).value)
  {
    var src := Parse(p, content).value;
    ParsedIsFramed(p, content);
    ParsedIsOk(p, src.opening, src.lines, src.closing, src.body);
  }

  /** The YAML library reads the lines the patch would give. */
  predicate Accepts(p: Platform, src: Source, operations: seq<Operation>) {
    Canonicalize(p, operations).Ok? ==>
      var ordered := Ordered(p, src, Canonicalize(p, operations).value);
      Fits(src.lines, ordered) ==>
        var result := Spliced(src.lines, ordered); p.scan(Contents(result)).Some? && p.mapping(Flatten(result))
  }
}
