/** The compilation of a patch on the text of a note, and that it computes what the lines say. */
module FrontmatterCompile {
  import opened Options
  import opened JsonValues
  import opened StableSort
  import opened TextSplice
  import opened TextLines
  import opened FrontmatterSource
  import opened FrontmatterLines
  import opened FrontmatterPatch
  import opened FrontmatterProofs
  import opened FrontmatterResults
  import opened FrontmatterCompiler

  function LocatedEntryOf(p: Platform, entries: seq<LocatedEntry>, fold: string): Option<LocatedEntry> {
    if entries == [] then None
    else if p.fold(entries[0].key) == fold then Some(entries[0])
    else LocatedEntryOf(p, entries[1..], fold)
  }

  lemma {:induction false} SameEntryFound(p: Platform, lines: seq<string>, at: nat, entries: seq<Entry>, fold: string)
    ensures LocatedEntryOf(p, LocateEntries(lines, at, entries), fold)
            == match EntryOf(p, entries, fold) case None => None case Some(e) => Some(LocateEntry(lines, at, e))
  {
    if entries != [] {
      SameEntryFound(p, lines, at, entries[1..], fold);
      assert LocateEntries(lines, at, entries)[1..] == LocateEntries(lines, at, entries[1..]);
    }
  }

  /** The edits and additions so far; `plan` is the same on lines. */
  ghost predicate SamePlan(src: Source, edits: seq<Edit<char>>, additions: seq<string>, plan: Plan) {
    edits == TextEdits(src, plan.edits) && additions == plan.additions
  }

  method RenderValue(p: Platform, value: Json) returns (r: Result<string>)
    ensures r == (var json := p.json(value);
                  if '\n' in json || '\r' in json then Fail(ValueUnsupported)
                  else if p.bytes(json) > MaxRenderedBytes then Fail(ValueTooLarge)
                  else Ok(json))
  {
    var json := p.json(value);
    if '\n' in json || '\r' in json { return Fail(ValueUnsupported); }
    if p.bytes(json) > MaxRenderedBytes { return Fail(ValueTooLarge); }
    r := Ok(json);
  }

  /** One operation: an edit of an existing entry, or a line to add. */
  method PlanOperation(p: Platform, loc: LocatedSource, op: Operation, ghost src: Source, ghost plan: Plan)
    returns (r: Result<(Option<Edit<char>>, Option<string>)>)
    requires loc == LocateSource(src)
    ensures r.Fail? ==> PlanOne(p, src, plan, op) == Fail(r.reason)
    ensures r.Ok? ==> PlanOne(p, src, plan, op).Ok?
    ensures r.Ok? && r.value.0.Some? ==>
              && r.value.1.None? && Hit(p, src, op).Some? && r.value.0.value == TextEdit(src, EditFor(p, src, op))
              && PlanOne(p, src, plan, op).value == plan.(edits := plan.edits + [EditFor(p, src, op)])
    ensures r.Ok? && r.value.0.None? ==>
              r.value.1.Some? && PlanOne(p, src, plan, op).value == plan.(additions := plan.additions + [r.value.1.value])
  {
    var entry := LocatedEntryOf(p, loc.entries, p.fold(op.key));
    SameEntryFound(p, src.lines, |src.opening|, src.entries, p.fold(op.key));
    if entry.Some? && entry.value.blockScalar { return Fail(BlockScalar); }
    if entry.Some? && entry.value.quoted { return Fail(QuotedScalar); }
    match op
    case Delete(_) =>
      if entry.None? { return Fail(KeyMissing); }
      if entry.value.leadingComment || entry.value.trailingComment { return Fail(AmbiguousComment); }
      r := Ok((Some(Edit(entry.value.start, entry.value.end, "")), None));
    case Set(key, value) =>
      var rendered := RenderValue(p, value);
      if rendered.Fail? { return Fail(rendered.reason); }
      var line := JsonLine(if entry.Some? then entry.value.key else key, rendered.value, loc.eol);
      FlattenOne(line);
      r := Ok(if entry.Some? then (Some(Edit(entry.value.start, entry.value.end, line)), None) else (None, Some(line)));
  }

  lemma PlanNext(p: Platform, src: Source, ops: seq<Operation>, i: nat, plan: Plan)
    requires i < |ops| && PlanAll(p, src, ops[..i]) == Ok(plan)
    ensures PlanAll(p, src, ops[..i + 1]) == PlanOne(p, src, plan, ops[i])
  {
    assert ops[..i + 1][..i] == ops[..i];
  }

  lemma {:induction false} PlanPrefixFails(p: Platform, src: Source, ops: seq<Operation>, n: nat)
    requires n <= |ops| && PlanAll(p, src, ops[..n]).Fail?
    ensures PlanAll(p, src, ops) == PlanAll(p, src, ops[..n])
    decreases |ops|
  {
    if n == |ops| {
      assert ops[..n] == ops;
    } else {
      assert ops[..|ops| - 1][..n] == ops[..n];
      PlanPrefixFails(p, src, ops[..|ops| - 1], n);
    }
  }

  /** The loop over the operations. */
  method PlanOperations(p: Platform, loc: LocatedSource, ops: seq<Operation>, ghost src: Source)
    returns (r: Result<(seq<Edit<char>>, seq<string>)>, ghost plan: Plan)
    requires loc == LocateSource(src)
    ensures r.Fail? ==> PlanAll(p, src, ops) == Fail(r.reason)
    ensures r.Ok? ==> PlanAll(p, src, ops) == Ok(plan) && SamePlan(src, r.value.0, r.value.1, plan)
  {
    var edits: seq<Edit<char>> := [];
    var additions: seq<string> := [];
    plan := Plan([], []);
    var i := 0;
    while i < |ops|
      invariant 0 <= i <= |ops| && PlanAll(p, src, ops[..i]) == Ok(plan) && SamePlan(src, edits, additions, plan)
    {
      PlanNext(p, src, ops, i, plan);
      var step := PlanOperation(p, loc, ops[i], src, plan);
      if step.Fail? {
        PlanPrefixFails(p, src, ops, i + 1);
        return Fail(step.reason), plan;
      }
      if step.value.0.Some? {
        TextEditsSnoc(src, plan.edits, EditFor(p, src, ops[i]));
        edits := edits + [step.value.0.value];
      } else {
        additions := additions + [step.value.1.value];
      }
      plan := PlanOne(p, src, plan, ops[i]).value;
      i := i + 1;
    }
    assert ops[..i] == ops;
    r := Ok((edits, additions));
  }

  /** The operations, then one edit for all additions. */
  method CollectEdits(p: Platform, loc: LocatedSource, ops: seq<Operation>, ghost src: Source) returns (r: Result<seq<Edit<char>>>)
    requires loc == LocateSource(src)
    ensures r.Fail? ==> Edits(p, src, ops) == Fail(r.reason)
    ensures r.Ok? ==> Edits(p, src, ops).Ok? && r.value == TextEdits(src, Edits(p, src, ops).value)
  {
    ghost var plan;
    var planned;
    planned, plan := PlanOperations(p, loc, ops, src);
    if planned.Fail? { return Fail(planned.reason); }
    var edits, additions := planned.value.0, planned.value.1;
    if additions == [] { return Ok(edits); }
    if loc.trailingComment { return Fail(AmbiguousComment); }
    TextEditsSnoc(src, plan.edits, Edit(src.appendLine, src.appendLine, additions));
    r := Ok(edits + [Edit(loc.appendOffset, loc.appendOffset, Flatten(additions))]);
  }

  lemma TextEditsSnoc(src: Source, before: seq<Edit<string>>, last: Edit<string>)
    ensures TextEdits(src, before + [last]) == TextEdits(src, before) + [TextEdit(src, last)]
  {
  }

  /** The compiled texts as they are returned: offsets, and the spans the proof is about. */
  datatype Output = Output(operations: seq<Operation>, nextContent: string, untouched: string, before: LocatedSource, after: LocatedSource)

  function OutputOf(c: Compiled): Output {
    Output(c.operations, c.nextContent, c.untouched, LocateSource(c.before), LocateSource(c.after))
  }

  /** The edits of lines are in range, so that sorting and splicing them is sorting and splicing characters. */
  lemma EditsOfText(p: Platform, content: string, operations: seq<Operation>)
    requires Conventional(p) && Canonicalize(p, operations).Ok? && Parse(p, content).Ok?
    requires Edits(p, Parse(p, content).value, Canonicalize(p, operations).value).Ok?
    ensures var src := Parse(p, content).value; var edits := Edits(p, src, Canonicalize(p, operations).value).value;
            var texts := TextEdits(src, edits); var asc := SortBy(Before, edits);
            && InRange(content, texts) && Fits(src.lines, asc)
            && SortBy(Before, texts) == TextEdits(src, asc) && Fits(content, SortBy(Before, texts))
            && Spliced(content, SortBy(Before, texts)) == Note(src, Spliced(src.lines, asc))
            && Untouched(content, SortBy(Before, texts)) == Note(src, Untouched(src.lines, asc))
  {
    Prepared(p, content, operations);
    var src := Parse(p, content).value;
    var edits := Edits(p, src, Canonicalize(p, operations).value).value;
    EditsInRange(p, src, edits);
    SortText(src, edits);
    TextsInRange(src, content, edits);
    SpliceText(src, content, SortBy(Before, edits));
    UntouchedText(src, content, SortBy(Before, edits));
  }

  lemma EditsInRange(p: Platform, src: Source, edits: seq<Edit<string>>)
    requires Fits(src.lines, SortBy(Before, edits))
    ensures InRange(src.lines, edits)
  {
    SortItems(Before, edits);
    FitsOrder(src.lines, SortBy(Before, edits));
    forall i | 0 <= i < |edits| ensures edits[i].start <= edits[i].end <= |src.lines| {
      assert edits[i] in multiset(SortBy(Before, edits));
      var k :| 0 <= k < |SortBy(Before, edits)| && SortBy(Before, edits)[k] == edits[i];
    }
  }

  lemma TextsInRange(src: Source, content: string, edits: seq<Edit<string>>)
    requires content == Note(src, src.lines) && InRange(src.lines, edits)
    ensures InRange(content, TextEdits(src, edits))
  {
    forall i | 0 <= i < |edits|
      ensures TextEdit(src, edits[i]).start <= TextEdit(src, edits[i]).end <= |content|
    {
      ReplaceText(src, content, edits[i]);
    }
  }

  /** The compiler: canonical operations, the source, the edits, one forward pass, the source read again. */
  method CompileFrontmatterPatch(p: Platform, content: string, operations: seq<Operation>) returns (r: Result<Output>)
    requires Conventional(p)
    ensures r == (var c := Compile(p, content, operations); if c.Fail? then Fail(c.reason) else Ok(OutputOf(c.value)))
  {
    var ops := Canonicalize(p, operations);
    if ops.Fail? { return Fail(ops.reason); }
    var source := ParseFrontmatterSource(p, content);
    if source.Fail? { return Fail(source.reason); }
    ghost var src := Parse(p, content).value;
    var edits := CollectEdits(p, source.value, ops.value, src);
    if edits.Fail? { return Fail(edits.reason); }
    EditsOfText(p, content, operations);
    var applied := ApplyForward(content, edits.value);
    var next, untouched := applied.value.0, applied.value.1;
    var after := ParseFrontmatterSource(p, next);
    if after.Fail? { return Fail(after.reason); }
    if after.value.body != source.value.body { return Fail(BodyDrift); }
    r := Ok(Output(ops.value, next, untouched, source.value, after.value));
  }

  /** The ranges of the note an accepted patch replaces, in order. */
  function AuthorizedRanges(p: Platform, content: string, operations: seq<Operation>): seq<Edit<char>>
    requires Compile(p, content, operations).Ok?
  {
    var src := Parse(p, content).value;
    TextEdits(src, SortBy(Before, Edits(p, src, Canonicalize(p, operations).value).value))
  }

  lemma NextIsSpliced(p: Platform, content: string, operations: seq<Operation>)
    requires Conventional(p) && Compile(p, content, operations).Ok?
    ensures var ranges, c := AuthorizedRanges(p, content, operations), Compile(p, content, operations).value;
            Fits(content, ranges) && c.nextContent == Spliced(content, ranges) && c.untouched == Untouched(content, ranges)
  {
    EditsOfText(p, content, operations);
  }

  lemma KeptByRanges(content: string, ranges: seq<Edit<char>>, next: string, k: nat)
    requires Fits(content, ranges) && next == Spliced(content, ranges) && k < |content| && Outside(ranges, k)
    ensures 0 <= k + Shift(ranges, k) < |next| && next[k + Shift(ranges, k)] == content[k]
  {
    OutsideKept(content, ranges, k);
  }

  /** Every character outside the ranges is in the next text, moved by what was gained and lost before it. */
  ghost predicate KeepsOutside(content: string, ranges: seq<Edit<char>>, next: string) {
    forall k :: 0 <= k < |content| && Outside(ranges, k) ==> 0 <= k + Shift(ranges, k) < |next| && next[k + Shift(ranges, k)] == content[k]
  }

  /** An accepted patch keeps every character outside its ranges, and its remainder is all of those and nothing else. */
  lemma BytesOutsideKept(p: Platform, content: string, operations: seq<Operation>)
    requires Conventional(p) && Compile(p, content, operations).Ok?
    ensures var ranges, c := AuthorizedRanges(p, content, operations), Compile(p, content, operations).value;
            Fits(content, ranges) && c.untouched == Untouched(content, ranges) && KeepsOutside(content, ranges, c.nextContent)
  {
    NextIsSpliced(p, content, operations);
    AllKept(content, AuthorizedRanges(p, content, operations), Compile(p, content, operations).value.nextContent);
  }

  lemma AllKept(content: string, ranges: seq<Edit<char>>, next: string)
    requires Fits(content, ranges) && next == Spliced(content, ranges)
    ensures KeepsOutside(content, ranges, next)
  {
    forall k | 0 <= k < |content| && Outside(ranges, k)
      ensures 0 <= k + Shift(ranges, k) < |next| && next[k + Shift(ranges, k)] == content[k]
    {
      KeptByRanges(content, ranges, next, k);
    }
  }

  // -------------------------------------------------------------------------
  // The loop of the Base formula compiler on the same ranges
  // -------------------------------------------------------------------------

  lemma LaterTexts(src: Source, edits: seq<Edit<string>>)
    requires AllWhole(src.lines) && Fits(src.lines, edits) && SortedBy(StartsBefore, edits)
    ensures DistinctStarts(TextEdits(src, edits))
  {
    FitsOrder(src.lines, edits);
    forall i, j | 0 <= i < j < |edits| ensures TextEdits(src, edits)[i].start != TextEdits(src, edits)[j].start {
      assert StartsBefore(edits[i], edits[j]);
      OffsetGrows(src.lines, edits[i].start, edits[j].start);
    }
  }

  /** No two ranges of an accepted patch share a start, so that splicing them from the back gives the same text and remainder. */
  lemma BothPassesAgree(p: Platform, content: string, operations: seq<Operation>)
    requires Conventional(p) && Compile(p, content, operations).Ok?
    ensures var ranges := AuthorizedRanges(p, content, operations);
            && DistinctStarts(ranges) && PassesAgreeOn(content, ranges) && SortBy(Before, ranges) == ranges
            && BackToFront(content, SortBy(StartsAfter, ranges)) == Compile(p, content, operations).value.nextContent
  {
    var ranges := AuthorizedRanges(p, content, operations);
    RangesApart(p, content, operations);
    NextIsSpliced(p, content, operations);
    FitsApart(content, ranges);
    PassesAgree(content, ranges);
    SortsAgree(ranges);
    SortItems(Before, ranges);
    FitsSorted(content, ranges);
    OneOrder(StartsBefore, SortBy(Before, ranges), ranges);
  }

  lemma RangesApart(p: Platform, content: string, operations: seq<Operation>)
    requires Conventional(p) && Compile(p, content, operations).Ok?
    ensures DistinctStarts(AuthorizedRanges(p, content, operations))
  {
    Prepared(p, content, operations);
    var ops, src := Canonicalize(p, operations).value, Parse(p, content).value;
    OrderedIs(p, src, ops, Edits(p, src, ops).value);
    LaterTexts(src, Ordered(p, src, ops));
  }

  lemma FitsApart(content: string, ranges: seq<Edit<char>>)
    requires Fits(content, ranges)
    ensures InRange(content, ranges) && Disjoint(ranges)
  {
    FitsOrder(content, ranges);
  }

  lemma FitsSorted(content: string, ranges: seq<Edit<char>>)
    requires Fits(content, ranges) && DistinctStarts(ranges)
    ensures SortedBy(StartsBefore, ranges)
  {
    FitsOrder(content, ranges);
  }

  // -------------------------------------------------------------------------
  // A value with a line separator
  // -------------------------------------------------------------------------

  /** A runtime with one line separator besides CR and LF, whose JSON keeps it. */
  const Plain: Platform := Platform(
    c => 'a' <= c <= 'z', c => 'a' <= c <= 'z', c => c == ' ' || c == '\t', c => c == '\n' || c == '\r' || c == '\U{2028}', s => s,
    lines => Some(Features({}, {})), source => true,
    (value: Json) => true, (value: Json) => if value.Str? then "\"" + value.text + "\"" else "", text => |text|)

  lemma EmptyNote()
    ensures Parse(Plain, "---\n---\n").Ok?
    ensures var src := Parse(Plain, "---\n---\n").value;
            src.opening == "---\n" && src.lines == [] && src.entries == [] && !src.trailingComment && src.eol == "\n" && src.appendLine == 0
  {
    var content, rest := "---\n---\n", "---\n";
    assert content[4..] == rest;
    FirstLineIs(rest, 3);
    FirstCut(rest, 4);
    assert rest[..4] == rest && rest[4..] == "" && RawLines("") == [];
    var lines: seq<string> := [rest];
    assert RawLines(rest) == lines;
    assert Content(rest) == "---";
    assert lines[..0] == [] && lines[1..] == [];
    BlockFrame(Plain, "---\n", [], rest, "");
    assert Starts(Plain, []) == Ok([]) && Flatten([]) == "";
    assert !Includes("", "\n");
  }

  const Separated: Operation := Set("a", Str("\U{2028}"))

  lemma PlainIsConventional()
    ensures Conventional(Plain)
  {
  }

  lemma SeparatedIsCanonical()
    ensures Canonicalize(Plain, [Separated]) == Ok([Separated])
  {
    var before: seq<Operation> := [Separated][..0];
    assert before == [];
    assert KeyLength(Plain, "a") == 1;
    assert CheckEach(Plain, [Separated]).None?;
    assert SortBy(KeyOrder(Plain), [Separated]) == [Separated];
  }

  /** The line written for the operation. */
  const SeparatedLine: string := "a: \"\U{2028}\"\n"

  lemma SeparatedIsPlanned(src: Source)
    requires src.entries == [] && !src.trailingComment && src.eol == "\n"
    ensures Edits(Plain, src, [Separated]) == Ok([Edit(src.appendLine, src.appendLine, [SeparatedLine])])
  {
    assert [Separated][..0] == [];
    assert Plain.json(Separated.value) == "\"\U{2028}\"";
    assert JsonLine("a", "\"\U{2028}\"", "\n") == SeparatedLine;
    assert PlanAll(Plain, src, [Separated]) == PlanOne(Plain, src, Plan([], []), Separated);
    var plan := Plan([], [SeparatedLine]);
    assert EntryOf(Plain, src.entries, "a").None?;
    assert Plan([], []).additions + [SeparatedLine] == [SeparatedLine];
    assert JsonLine(Separated.key, Plain.json(Separated.value), src.eol) == SeparatedLine;
    assert PlanOne(Plain, src, Plan([], []), Separated) == Ok(plan);
    assert plan.edits + [Edit(src.appendLine, src.appendLine, plan.additions)] == [Edit(src.appendLine, src.appendLine, [SeparatedLine])];
  }

  /** No key is recognised in the line, because its value is not on one line. */
  lemma SeparatedIsUnsupported()
    ensures Starts(Plain, [SeparatedLine]) == Fail(TopLevelUnsupported)
  {
    var text := Content(SeparatedLine);
    assert text == "a: \"\U{2028}\"" && text[..1] == "a";
    assert KeyLength(Plain, text) == 1 by { assert text[1..][0] == ':'; }
    assert !OneLine(Plain, text[2..]) by { assert Plain.terminator(text[2..][2]); }
    assert KindOf(Plain, SeparatedLine) == Unsupported;
    assert [SeparatedLine][..0] == [];
  }

  lemma OneEdit(lines: seq<string>, e: Edit<string>, line: string)
    requires lines == [] && e == Edit(0, 0, [line])
    ensures Fits(lines, [e]) && Spliced(lines, [e]) == [line] && SortBy(Before, [e]) == [e]
  {
    var none: seq<Edit<string>> := [];
    assert [e][..0] == none && Fits(lines, none) && EndOf(none) == 0;
    assert Built(lines, [e]) == [line];
    assert [e][1..] == none && SortBy(Before, none) == none;
  }

  /** The note with the line written is read again, and refused for that line. */
  lemma SeparatedIsReread(src: Source)
    requires Parse(Plain, "---\n---\n") == Ok(src) && src.lines == [] && src.appendLine == 0
    requires Canonicalize(Plain, [Separated]) == Ok([Separated])
    requires Edits(Plain, src, [Separated]) == Ok([Edit(src.appendLine, src.appendLine, [SeparatedLine])])
    ensures Finish(Plain, src, [Separated], [Edit(src.appendLine, src.appendLine, [SeparatedLine])]) == Fail(TopLevelUnsupported)
  {
    PlainIsConventional();
    Prepared(Plain, "---\n---\n", [Separated]);
    Rescan(Plain, src, [Separated]);
    OneEdit(src.lines, Edit(0, 0, [SeparatedLine]), SeparatedLine);
    SeparatedIsUnsupported();
  }

  /** U+2028 in a value is written into the note, and then refused when the note is read again, as an unsupported line. */
  lemma SeparatorIsRefused()
    ensures var note := "---\n---\n";
            && Conventional(Plain) && Canonicalize(Plain, [Separated]) == Ok([Separated]) && Parse(Plain, note).Ok?
            && Edits(Plain, Parse(Plain, note).value, [Separated]).Ok? && Compile(Plain, note, [Separated]) == Fail(TopLevelUnsupported)
  {
    PlainIsConventional();
    EmptyNote();
    SeparatedIsCanonical();
    var src := Parse(Plain, "---\n---\n").value;
    SeparatedIsPlanned(src);
    SeparatedIsReread(src);
  }
}
