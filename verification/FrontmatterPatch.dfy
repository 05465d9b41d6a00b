/** Compiling key operations into edits of the lines their keys own. */
module FrontmatterPatch {
  import opened Options
  import opened JsonValues
  import opened TextOrder
  import opened StableSort
  import opened TextSplice
  import opened TextLines
  import opened FrontmatterSource

  datatype Operation = Set(key: string, value: Json) | Delete(key: string)

  const MaxOperations: nat := 64
  const MaxRenderedBytes: nat := 262144

  // -------------------------------------------------------------------------
  // Operations in canonical order
  // -------------------------------------------------------------------------

  predicate Targets(p: Platform, ops: seq<Operation>, fold: string) {
    exists i :: 0 <= i < |ops| && p.fold(ops[i].key) == fold
  }

  /** The first reason to refuse an operation list, going through it in order. */
  function CheckEach(p: Platform, ops: seq<Operation>): Option<Reason> {
    if ops == [] then None
    else
      var before, last := ops[..|ops| - 1], ops[|ops| - 1];
      var refused := CheckEach(p, before);
      if refused.Some? then refused
      else if !BareKey(p, last.key) then Some(KeyUnsupported)
      else if Targets(p, before, p.fold(last.key)) then Some(DuplicateTarget)
      else if last.Set? && !p.canonical(last.value) then Some(ValueUnsupported)
      else None
  }

  predicate KeyBefore(p: Platform, a: Operation, b: Operation) {
    Less(p.fold(a.key), p.fold(b.key)) || (p.fold(a.key) == p.fold(b.key) && Less(a.key, b.key))
  }

  function KeyOrder(p: Platform): (Operation, Operation) -> bool { (a, b) => KeyBefore(p, a, b) }

  function Canonicalize(p: Platform, ops: seq<Operation>): Result<seq<Operation>> {
    if ops == [] then Fail(EmptyPatch)
    else if |ops| > MaxOperations then Fail(TooManyOperations)
    else
      var refused := CheckEach(p, ops);
      if refused.Some? then Fail(refused.value) else Ok(SortBy(KeyOrder(p), ops))
  }

  // -------------------------------------------------------------------------
  // Edits
  // -------------------------------------------------------------------------

  function EntryOf(p: Platform, entries: seq<Entry>, fold: string): (e: Option<Entry>)
    ensures e.Some? ==> e.value in entries && p.fold(e.value.key) == fold
    ensures e.None? ==> forall x :: x in entries ==> p.fold(x.key) != fold
  {
    if entries == [] then None
    else if p.fold(entries[0].key) == fold then Some(entries[0])
    else EntryOf(p, entries[1..], fold)
  }

  /** Edits of existing lines, and the lines to add. */
  datatype Plan = Plan(edits: seq<Edit<string>>, additions: seq<string>)

  function JsonLine(key: string, json: string, eol: string): string { key + ": " + json + eol }

  function PlanOne(p: Platform, src: Source, plan: Plan, op: Operation): Result<Plan> {
    var entry := EntryOf(p, src.entries, p.fold(op.key));
    if entry.Some? && entry.value.blockScalar then Fail(BlockScalar)
    else if entry.Some? && entry.value.quoted then Fail(QuotedScalar)
    else
      match op
      case Delete(_) =>
        if entry.None? then Fail(KeyMissing)
        else if entry.value.leadingComment || entry.value.trailingComment then Fail(AmbiguousComment)
        else Ok(plan.(edits := plan.edits + [Edit(entry.value.first, entry.value.last, [])]))
      case Set(key, value) =>
        var json := p.json(value);
        if '\n' in json || '\r' in json then Fail(ValueUnsupported)
        else if p.bytes(json) > MaxRenderedBytes then Fail(ValueTooLarge)
        else if entry.Some? then
          Ok(plan.(edits := plan.edits + [Edit(entry.value.first, entry.value.last, [JsonLine(entry.value.key, json, src.eol)])]))
        else Ok(plan.(additions := plan.additions + [JsonLine(key, json, src.eol)]))
  }

  function PlanAll(p: Platform, src: Source, ops: seq<Operation>): Result<Plan> {
    if ops == [] then Ok(Plan([], []))
    else
      var before := PlanAll(p, src, ops[..|ops| - 1]);
      if before.Fail? then before else PlanOne(p, src, before.value, ops[|ops| - 1])
  }

  function AllEdits(src: Source, plan: Plan): Result<seq<Edit<string>>> {
    if plan.additions == [] then Ok(plan.edits)
    else if src.trailingComment then Fail(AmbiguousComment)
    else Ok(plan.edits + [Edit(src.appendLine, src.appendLine, plan.additions)])
  }

  // -------------------------------------------------------------------------
  // The whole compilation, on lines
  // -------------------------------------------------------------------------

  /** The digests of the proof stand here as the texts they are taken of. */
  datatype Compiled = Compiled(
    operations: seq<Operation>, nextContent: string, untouched: string, before: Source, after: Source)

  function Note(src: Source, lines: seq<string>): string { src.opening + Flatten(lines) + src.closing + src.body }

  function Finish(p: Platform, src: Source, ops: seq<Operation>, edits: seq<Edit<string>>): Result<Compiled> {
    var ordered := SortBy(Before, edits);
    if !Fits(src.lines, ordered) then Fail(Overlap)
    else
      var next := Note(src, Spliced(src.lines, ordered));
      var after := Parse(p, next);
      if after.Fail? then Fail(after.reason)
      else if after.value.body != src.body then Fail(BodyDrift)
      else Ok(Compiled(ops, next, Note(src, Untouched(src.lines, ordered)), src, after.value))
  }

  function Edits(p: Platform, src: Source, ops: seq<Operation>): Result<seq<Edit<string>>> {
    var plan := PlanAll(p, src, ops);
    if plan.Fail? then Fail(plan.reason) else AllEdits(src, plan.value)
  }

  function Compile(p: Platform, content: string, operations: seq<Operation>): Result<Compiled> {
    var ops := Canonicalize(p, operations);
    if ops.Fail? then Fail(ops.reason)
    else
      var src := Parse(p, content);
      if src.Fail? then Fail(src.reason)
      else
        var edits := Edits(p, src.value, ops.value);
        if edits.Fail? then Fail(edits.reason) else Finish(p, src.value, ops.value, edits.value)
  }
}
