/** The compiler as it runs: cursors over the text, offsets of lines and entries, and edits of characters. */
module FrontmatterCompiler {
  import opened Options
  import opened StableSort
  import opened TextSplice
  import opened TextLines
  import opened FrontmatterSource
  import opened FrontmatterLines
  import opened FrontmatterPatch
  import opened FrontmatterProofs

  // -------------------------------------------------------------------------
  // Lines with their offsets
  // -------------------------------------------------------------------------

  datatype SourceLine = SourceLine(start: nat, end: nat, endWithEol: nat, text: string)

  function Locate(raw: string, at: nat): SourceLine {
    SourceLine(at, at + |DropLast(raw, '\n')|, at + |raw|, Content(raw))
  }

  function LocateAll(lines: seq<string>, at: nat): seq<SourceLine> {
    if lines == [] then [] else [Locate(lines[0], at)] + LocateAll(lines[1..], at + |lines[0]|)
  }

  method IndexOfNewline(content: string, from: nat) returns (i: int)
    requires from <= |content|
    ensures i >= 0 ==> from <= i < |content| && content[i] == '\n' && forall k :: from <= k < i ==> content[k] != '\n'
    ensures i < 0 ==> forall k :: from <= k < |content| ==> content[k] != '\n'
  {
    i := from;
    while i < |content| && content[i] != '\n'
      invariant from <= i <= |content| && forall k :: from <= k < i ==> content[k] != '\n'
    {
      i := i + 1;
    }
    if i == |content| { i := -1; }
  }

  lemma {:induction false} FirstLineIs(text: string, n: nat)
    requires n <= |text| && (forall k :: 0 <= k < n ==> text[k] != '\n') && (n < |text| ==> text[n] == '\n')
    ensures FirstLine(text) == if n < |text| then n + 1 else n
  {
    if n > 0 { FirstLineIs(text[1..], n - 1); }
  }

  /** The next line starts at the cursor and ends at the next line feed, or at the end. */
  lemma NextLine(content: string, cursor: nat, end: nat, rawEnd: nat)
    requires cursor < end <= |content| && cursor <= rawEnd <= end
    requires (forall k :: cursor <= k < rawEnd ==> content[k] != '\n') && (rawEnd < end ==> content[rawEnd] == '\n')
    ensures var next := if rawEnd < end then rawEnd + 1 else end;
            && RawLines(content[cursor..end]) == [content[cursor..next]] + RawLines(content[next..end])
            && DropLast(content[cursor..next], '\n') == content[cursor..rawEnd]
  {
    var text := content[cursor..end];
    FirstLineIs(text, rawEnd - cursor);
    var next := if rawEnd < end then rawEnd + 1 else end;
    FirstCut(text, next - cursor);
    CutSlice(content, cursor, next, end);
    WithoutFeed(content, cursor, rawEnd, next);
  }

  lemma CutSlice(content: string, i: nat, j: nat, k: nat)
    requires i <= j <= k <= |content|
    ensures content[i..k][..j - i] == content[i..j] && content[i..k][j - i..] == content[j..k]
  {
  }

  lemma WithoutFeed(content: string, i: nat, j: nat, next: nat)
    requires i <= j <= next <= |content| && i < next && (forall k :: i <= k < j ==> content[k] != '\n')
    requires if j < next then next == j + 1 && content[j] == '\n' else next == j
    ensures DropLast(content[i..next], '\n') == content[i..j]
  {
    if j < next {
      CutSlice(content, i, j, next);
      assert content[i..next][|content[i..next]| - 1] == content[j];
    }
  }

  lemma FirstCut(text: string, n: nat)
    requires text != [] && FirstLine(text) == n
    ensures RawLines(text) == [text[..n]] + RawLines(text[n..])
  {
  }

  /** The line at the cursor, up to its line feed or the end of the range; `raw` and `rest` are its text and the lines after it. */
  method TakeLine(content: string, cursor: nat, end: nat) returns (line: SourceLine, ghost raw: string, ghost rest: seq<string>)
    requires cursor < end <= |content|
    ensures cursor < line.endWithEol <= end && line == Locate(raw, cursor) && line.endWithEol == cursor + |raw|
    ensures RawLines(content[cursor..end]) == [raw] + rest && RawLines(content[line.endWithEol..end]) == rest
  {
    var newline := IndexOfNewline(content, cursor);
    var hasEol := newline >= 0 && newline < end;
    var rawEnd := if hasEol then newline else end;
    var next := if hasEol then newline + 1 else end;
    NextLine(content, cursor, end, rawEnd);
    raw, rest := content[cursor..next], RawLines(content[next..end]);
    line := SourceLine(cursor, rawEnd, next, DropLast(content[cursor..rawEnd], '\r'));
    assert line == Locate(raw, cursor);
  }

  lemma LocateCons(raw: string, rest: seq<string>, at: nat)
    ensures LocateAll([raw] + rest, at) == [Locate(raw, at)] + LocateAll(rest, at + |raw|)
  {
    assert ([raw] + rest)[1..] == rest;
  }

  /** The lines taken so far, and those from the cursor on, are all the lines of the range. */
  ghost predicate Splitting(content: string, cursor: nat, end: nat, lines: seq<SourceLine>, all: seq<SourceLine>) {
    cursor <= end <= |content| && all == lines + LocateAll(RawLines(content[cursor..end]), cursor)
  }

  method SplitOne(content: string, cursor: nat, end: nat, lines: seq<SourceLine>, ghost all: seq<SourceLine>) returns (line: SourceLine)
    requires cursor < end && Splitting(content, cursor, end, lines, all)
    ensures cursor < line.endWithEol <= end && Splitting(content, line.endWithEol, end, lines + [line], all)
  {
    ghost var raw, rest;
    line, raw, rest := TakeLine(content, cursor, end);
    LocateCons(raw, rest, cursor);
    AppendRest(lines, line, LocateAll(rest, line.endWithEol));
  }

  method SplitLines(content: string, start: nat, end: nat) returns (lines: seq<SourceLine>)
    requires start <= end <= |content|
    ensures lines == LocateAll(RawLines(content[start..end]), start)
  {
    ghost var all := LocateAll(RawLines(content[start..end]), start);
    lines := [];
    var cursor := start;
    while cursor < end
      invariant start <= cursor <= end && Splitting(content, cursor, end, lines, all)
    {
      var line := SplitOne(content, cursor, end, lines, all);
      lines := lines + [line];
      cursor := line.endWithEol;
    }
    NothingLeft(content, end);
  }

  lemma AppendRest<T>(s: seq<T>, x: T, rest: seq<T>)
    ensures s + ([x] + rest) == (s + [x]) + rest
  {
  }

  /** Where the first delimiter among the lines starts and ends, when the first of them starts at `at`. */
  function ClosingSpan(lines: seq<string>, at: nat): Option<(nat, nat)> {
    if lines == [] then None
    else if IsDelimiter(lines[0]) then Some((at, at + |lines[0]|))
    else ClosingSpan(lines[1..], at + |lines[0]|)
  }

  lemma {:induction false} ClosingSpanIs(lines: seq<string>, at: nat)
    ensures ClosingSpan(lines, at).None? <==> ClosingLine(lines).None?
    ensures ClosingLine(lines).Some? ==>
              var c := ClosingLine(lines).value;
              && c < |lines|
              && ClosingSpan(lines, at) == Some((at + |Flatten(lines[..c])|, at + |Flatten(lines[..c])| + |lines[c]|))
  {
    if lines != [] && !IsDelimiter(lines[0]) {
      var rest := lines[1..];
      ClosingSpanIs(rest, at + |lines[0]|);
      if ClosingLine(rest).Some? { FlattenPrefix(lines, ClosingLine(rest).value + 1); }
    }
  }

  lemma FlattenPrefix(lines: seq<string>, n: nat)
    requires 0 < n <= |lines|
    ensures Flatten(lines[..n]) == lines[0] + Flatten(lines[1..][..n - 1])
  {
    assert lines[..n] == [lines[0]] + lines[1..][..n - 1];
    FlattenCons(lines[0], lines[1..][..n - 1]);
  }

  /** `left` are the lines from the cursor on, and `span` where the first delimiter among them is. */
  ghost predicate Searching(content: string, cursor: nat, left: seq<string>, span: Option<(nat, nat)>) {
    cursor <= |content| && left == RawLines(content[cursor..|content|]) && span == ClosingSpan(left, cursor)
  }

  lemma SearchedLine(content: string, cursor: nat, line: SourceLine, left: seq<string>, span: Option<(nat, nat)>, raw: string, rest: seq<string>)
    requires Searching(content, cursor, left, span) && left == [raw] + rest && line == Locate(raw, cursor)
    requires line.endWithEol == cursor + |raw| <= |content| && RawLines(content[line.endWithEol..|content|]) == rest
    ensures line.text == "---" ==> span == Some((cursor, line.endWithEol))
    ensures line.text != "---" ==> Searching(content, line.endWithEol, rest, span)
  {
    ClosingCons(raw, rest, cursor);
  }

  /** Takes one line of the search: its end, and whether it is the delimiter. */
  method SearchLine(content: string, cursor: nat, ghost left: seq<string>, ghost span: Option<(nat, nat)>)
    returns (next: nat, found: bool, ghost rest: seq<string>)
    requires cursor < |content| && Searching(content, cursor, left, span)
    ensures cursor < next <= |content|
    ensures found ==> span == Some((cursor, next))
    ensures !found ==> Searching(content, next, rest, span)
  {
    ghost var raw;
    var line;
    line, raw, rest := TakeLine(content, cursor, |content|);
    SearchedLine(content, cursor, line, left, span, raw, rest);
    next := line.endWithEol;
    found := line.text == "---";
  }

  method FindClosing(content: string, contentStart: nat) returns (closing: Option<(nat, nat)>)
    requires contentStart <= |content|
    ensures closing == ClosingSpan(RawLines(content[contentStart..|content|]), contentStart)
  {
    ghost var left := RawLines(content[contentStart..|content|]);
    ghost var span := ClosingSpan(left, contentStart);
    var cursor := contentStart;
    while cursor < |content|
      invariant contentStart <= cursor <= |content| && Searching(content, cursor, left, span)
    {
      var next, found;
      next, found, left := SearchLine(content, cursor, left, span);
      if found { return Some((cursor, next)); }
      cursor := next;
    }
    NothingLeft(content, |content|);
    closing := None;
  }

  lemma NothingLeft(content: string, end: nat)
    requires end <= |content|
    ensures RawLines(content[end..end]) == []
  {
  }

  lemma ClosingCons(raw: string, rest: seq<string>, at: nat)
    ensures ClosingSpan([raw] + rest, at) == if IsDelimiter(raw) then Some((at, at + |raw|)) else ClosingSpan(rest, at + |raw|)
  {
    assert ([raw] + rest)[1..] == rest;
  }

  // -------------------------------------------------------------------------
  // Keys and entries
  // -------------------------------------------------------------------------

  ghost predicate Texts(lines: seq<SourceLine>, raws: seq<string>) {
    |lines| == |raws| && forall i :: 0 <= i < |lines| ==> lines[i].text == Content(raws[i])
  }

  function FoldsOf(p: Platform, starts: seq<StartLine>): set<string> {
    if starts == [] then {} else FoldsOf(p, starts[..|starts| - 1]) + {p.fold(starts[|starts| - 1].key)}
  }

  lemma {:induction false} FoldsMean(p: Platform, starts: seq<StartLine>, fold: string)
    ensures fold in FoldsOf(p, starts) <==> HasFold(p, starts, fold)
  {
    if starts != [] {
      var before, last := starts[..|starts| - 1], starts[|starts| - 1];
      FoldsMean(p, before, fold);
      if HasFold(p, before, fold) {
        var i :| 0 <= i < |before| && p.fold(before[i].key) == fold;
        assert p.fold(starts[i].key) == fold;
      }
    }
  }

  lemma FoldsSnoc(p: Platform, starts: seq<StartLine>, last: StartLine)
    ensures FoldsOf(p, starts + [last]) == FoldsOf(p, starts) + {p.fold(last.key)}
  {
    assert (starts + [last])[..|starts|] == starts;
  }

  /** Takes one line into account; `seen` are the folded keys so far. */
  method TakeStart(p: Platform, kind: Kind, n: nat, starts: seq<StartLine>, seen: set<string>)
    returns (r: Result<seq<StartLine>>, seen': set<string>)
    requires seen == FoldsOf(p, starts)
    ensures r == NextStarts(p, starts, kind, n)
    ensures r.Ok? ==> seen' == FoldsOf(p, r.value)
  {
    seen' := seen;
    match kind {
      case Separator => r := Ok(starts);
      case Indented => r := if starts == [] then Fail(LayoutUnsupported) else Ok(starts);
      case Unsupported => r := Fail(TopLevelUnsupported);
      case Key(key) =>
        FoldsMean(p, starts, p.fold(key));
        if p.fold(key) in seen { return Fail(DuplicateKey), seen; }
        FoldsSnoc(p, starts, StartLine(key, n));
        seen' := seen + {p.fold(key)};
        r := Ok(starts + [StartLine(key, n)]);
    }
  }

  method FindStarts(p: Platform, lines: seq<SourceLine>, ghost raws: seq<string>) returns (r: Result<seq<StartLine>>)
    requires Texts(lines, raws)
    ensures r == Starts(p, raws)
  {
    var starts: seq<StartLine> := [];
    var seen: set<string> := {};
    var i := 0;
    while i < |lines|
      invariant 0 <= i <= |lines| && Starts(p, raws[..i]) == Ok(starts) && seen == FoldsOf(p, starts)
    {
      NextOfPrefix(p, raws, i, starts);
      r, seen := TakeStart(p, KindOfText(p, lines[i].text), i, starts, seen);
      if r.Fail? {
        StartsPrefixFails(p, raws, i + 1);
        return;
      }
      starts := r.value;
      i := i + 1;
    }
    assert raws[..i] == raws;
    r := Ok(starts);
  }

  lemma NextOfPrefix(p: Platform, raws: seq<string>, i: nat, starts: seq<StartLine>)
    requires i < |raws| && Starts(p, raws[..i]) == Ok(starts)
    ensures Starts(p, raws[..i + 1]) == NextStarts(p, starts, KindOf(p, raws[i]), i)
  {
    assert raws[..i + 1][..i] == raws[..i];
  }

  lemma {:induction false} StartsPrefixFails(p: Platform, raws: seq<string>, n: nat)
    requires n <= |raws| && Starts(p, raws[..n]).Fail?
    ensures Starts(p, raws) == Starts(p, raws[..n])
    decreases |raws|
  {
    if n == |raws| {
      assert raws[..n] == raws;
    } else {
      assert raws[..|raws| - 1][..n] == raws[..n];
      StartsPrefixFails(p, raws[..|raws| - 1], n);
    }
  }

  /** Goes back over separators; `commented` says whether one of those passed is a comment. */
  method TrimSeparators(p: Platform, lines: seq<SourceLine>, ghost raws: seq<string>, from: nat, to: nat) returns (end: nat, commented: bool)
    requires Texts(lines, raws) && to <= |lines|
    ensures end == TrimEnd(p, raws, from, to) && (commented <==> AnyComment(p, raws, end, to))
  {
    end := to;
    commented := false;
    while end > from && SeparatorText(p, lines[end - 1].text)
      invariant end <= to && TrimEnd(p, raws, from, to) == TrimEnd(p, raws, from, end)
      invariant commented <==> AnyComment(p, raws, end, to)
    {
      CommentBefore(p, raws, end, to);
      end := end - 1;
      if CommentText(p, lines[end].text) { commented := true; }
    }
  }

  lemma CommentBefore(p: Platform, raws: seq<string>, from: nat, to: nat)
    requires 0 < from <= to <= |raws|
    ensures AnyComment(p, raws, from - 1, to) <==> IsComment(p, raws[from - 1]) || AnyComment(p, raws, from, to)
  {
    if AnyComment(p, raws, from, to) {
      var i :| from <= i < to && IsComment(p, raws[i]);
      assert from - 1 <= i < to;
    }
  }

  /** An entry with the offsets of its first line and of the end of its last one. */
  datatype LocatedEntry = LocatedEntry(
    key: string, start: nat, end: nat, blockScalar: bool, quoted: bool, leadingComment: bool, trailingComment: bool)

  function Offset(lines: seq<string>, k: nat): nat { if k <= |lines| then |Flatten(lines[..k])| else |Flatten(lines)| }

  function LocateEntry(lines: seq<string>, at: nat, e: Entry): LocatedEntry {
    LocatedEntry(e.key, at + Offset(lines, e.first), at + Offset(lines, e.last), e.blockScalar, e.quoted, e.leadingComment, e.trailingComment)
  }

  function LocateEntries(lines: seq<string>, at: nat, entries: seq<Entry>): seq<LocatedEntry> {
    seq(|entries|, i requires 0 <= i < |entries| => LocateEntry(lines, at, entries[i]))
  }

  lemma {:induction false} LocatedAt(lines: seq<string>, at: nat, k: nat)
    requires k < |lines|
    ensures |LocateAll(lines, at)| == |lines|
    ensures LocateAll(lines, at)[k] == Locate(lines[k], at + Offset(lines, k))
    ensures Offset(lines, k + 1) == Offset(lines, k) + |lines[k]|
  {
    FlattenLast(lines, k);
    if k == 0 {
      LocateLength(lines, at);
    } else {
      LocatedAt(lines[1..], at + |lines[0]|, k - 1);
      FlattenPrefix(lines, k);
    }
  }

  lemma FlattenLast(lines: seq<string>, k: nat)
    requires k < |lines|
    ensures Flatten(lines[..k + 1]) == Flatten(lines[..k]) + lines[k]
  {
    assert lines[..k + 1][..k] == lines[..k];
  }

  lemma {:induction false} LocateLength(lines: seq<string>, at: nat)
    ensures |LocateAll(lines, at)| == |lines|
  {
    if lines != [] { LocateLength(lines[1..], at + |lines[0]|); }
  }

  method AnyIn(features: set<nat>, first: nat, next: nat) returns (found: bool)
    requires first <= next
    ensures found <==> exists k :: first <= k < next && k in features
  {
    found := false;
    var k := first;
    while k < next
      invariant first <= k <= next && (found <==> exists j :: first <= j < k && j in features)
    {
      if k in features { found := true; }
      k := k + 1;
    }
  }

  /** The lines `from..to`, their last one not a separator unless it is the first: where they end, and what comes after. */
  method OwnedEnd(p: Platform, lines: seq<SourceLine>, ghost raws: seq<string>, at: nat, first: nat, next: nat)
    returns (start: nat, end: nat, trailing: bool)
    requires lines == LocateAll(raws, at) && Texts(lines, raws) && first < next <= |lines|
    ensures start == at + Offset(raws, first) && end == at + Offset(raws, TrimEnd(p, raws, first + 1, next))
    ensures trailing <==> AnyComment(p, raws, TrimEnd(p, raws, first + 1, next), next)
  {
    var last;
    last, trailing := TrimSeparators(p, lines, raws, first + 1, next);
    LocatedAt(raws, at, first);
    LocatedAt(raws, at, last - 1);
    start, end := lines[first].start, lines[last - 1].endWithEol;
  }

  method BuildEntry(p: Platform, lines: seq<SourceLine>, ghost raws: seq<string>, at: nat, features: Features, starts: seq<StartLine>, i: nat)
    returns (e: LocatedEntry)
    requires lines == LocateAll(raws, at) && Texts(lines, raws) && StartsInside(raws, starts) && i < |starts|
    ensures e == LocateEntry(raws, at, EntryAt(p, raws, features, starts, i))
  {
    var first := starts[i].line;
    var next := if i + 1 < |starts| then starts[i + 1].line else |lines|;
    var above, leading := TrimSeparators(p, lines, raws, 0, first);
    var blockScalar := AnyIn(features.blockScalars, first, next);
    var quoted := AnyIn(features.quoted, first, next);
    var start, end, trailing := OwnedEnd(p, lines, raws, at, first, next);
    e := LocatedEntry(starts[i].key, start, end, blockScalar, quoted, leading, trailing);
  }

  // -------------------------------------------------------------------------
  // The block with its offsets
  // -------------------------------------------------------------------------

  datatype LocatedSource = LocatedSource(
    eol: string, contentStart: nat, contentEnd: nat, closingEnd: nat, body: string,
    entries: seq<LocatedEntry>, appendOffset: nat, trailingComment: bool)

  function LocateSource(src: Source): LocatedSource {
    var at := |src.opening|;
    LocatedSource(src.eol, at, at + |Flatten(src.lines)|, at + |Flatten(src.lines)| + |src.closing|, src.body,
                  LocateEntries(src.lines, at, src.entries), at + Offset(src.lines, src.appendLine), src.trailingComment)
  }

  method BuildEntries(p: Platform, lines: seq<SourceLine>, ghost raws: seq<string>, at: nat, features: Features, starts: seq<StartLine>)
    returns (entries: seq<LocatedEntry>)
    requires lines == LocateAll(raws, at) && Texts(lines, raws) && StartsInside(raws, starts)
    ensures entries == LocateEntries(raws, at, Entries(p, raws, features, starts, |starts|))
  {
    entries := [];
    var i := 0;
    while i < |starts|
      invariant 0 <= i <= |starts| && |entries| == i
      invariant forall k :: 0 <= k < i ==> entries[k] == LocateEntry(raws, at, EntryAt(p, raws, features, starts, k))
    {
      var e := BuildEntry(p, lines, raws, at, features, starts, i);
      entries := entries + [e];
      i := i + 1;
    }
  }

  lemma TextsOf(lines: seq<string>, at: nat)
    ensures Texts(LocateAll(lines, at), lines)
  {
    LocateLength(lines, at);
    forall i | 0 <= i < |lines| ensures LocateAll(lines, at)[i].text == Content(lines[i]) { LocatedAt(lines, at, i); }
  }

  /** Where trailing separators begin, or the end of the block. */
  lemma OffsetOfTrim(p: Platform, lines: seq<string>, at: nat, end: nat)
    requires end <= |lines|
    ensures |LocateAll(lines, at)| == |lines|
    ensures (if end < |lines| then LocateAll(lines, at)[end].start else at + |Flatten(lines)|) == at + Offset(lines, end)
  {
    LocateLength(lines, at);
    if end < |lines| { LocatedAt(lines, at, end); } else { assert lines[..end] == lines; }
  }

  function TextOf(lines: seq<SourceLine>): seq<string> {
    seq(|lines|, i requires 0 <= i < |lines| => lines[i].text)
  }

  lemma TextIsContents(located: seq<SourceLine>, lines: seq<string>)
    requires Texts(located, lines)
    ensures TextOf(located) == Contents(lines)
  {
  }

  method FindFeatures(p: Platform, located: seq<SourceLine>, source: string, ghost lines: seq<string>)
    returns (r: Result<(Features, seq<StartLine>)>)
    requires Texts(located, lines) && source == Flatten(lines)
    ensures r == ReadStarts(p, lines)
  {
    TextIsContents(located, lines);
    var scanned := p.scan(TextOf(located));
    if scanned.None? { return Fail(YamlUnsupported); }
    if !p.mapping(source) { return Fail(YamlInvalid); }
    var starts := FindStarts(p, located, lines);
    if starts.Fail? { return Fail(starts.reason); }
    r := Ok((scanned.value, starts.value));
  }

  /** Where additions go, and whether comments stand behind. */
  method FindAppend(p: Platform, located: seq<SourceLine>, at: nat, closingStart: nat, ghost lines: seq<string>)
    returns (appendOffset: nat, trailing: bool)
    requires located == LocateAll(lines, at) && Texts(located, lines) && closingStart == at + |Flatten(lines)|
    ensures appendOffset == at + Offset(lines, TrimEnd(p, lines, 0, |lines|))
    ensures trailing <==> AnyComment(p, lines, TrimEnd(p, lines, 0, |lines|), |lines|)
  {
    var end;
    end, trailing := TrimSeparators(p, located, lines, 0, |located|);
    OffsetOfTrim(p, lines, at, end);
    appendOffset := if end < |located| then located[end].start else closingStart;
  }

  /** The entries of the block and where additions go, with their offsets. */
  method ReadSource(p: Platform, located: seq<SourceLine>, source: string, opening: string, closingEnd: nat, body: string,
                    features: Features, starts: seq<StartLine>, ghost lines: seq<string>, ghost closing: string)
    returns (r: LocatedSource)
    requires opening == "---\n" || opening == "---\r\n"
    requires located == LocateAll(lines, |opening|) && Texts(located, lines) && StartsInside(lines, starts) && source == Flatten(lines)
    requires closingEnd == |opening| + |source| + |closing|
    ensures r == LocateSource(Assemble(p, opening, lines, closing, body, features, starts))
  {
    var at, closingStart := |opening|, |opening| + |source|;
    var entries := BuildEntries(p, located, lines, at, features, starts);
    var appendOffset, trailing := FindAppend(p, located, at, closingStart, lines);
    r := LocatedSource(Eol(opening, source), at, closingStart, closingEnd, body, entries, appendOffset, trailing);
  }

  /** A text that consists of whole lines is cut into them. */
  lemma CutAll(lines: seq<string>)
    requires AllWhole(lines)
    ensures RawLines(Flatten(lines)) == lines
  {
    CutWhole(lines, "");
    assert Flatten(lines) + "" == Flatten(lines) && lines + RawLines("") == lines;
  }

  function LocateResult(r: Result<Source>): Result<LocatedSource> {
    if r.Fail? then Fail(r.reason) else Ok(LocateSource(r.value))
  }

  /** The block between two offsets, read line by line; `source` is its text, `opening`, `closing` and `body` the texts around it. */
  method ParseLines(p: Platform, located: seq<SourceLine>, source: string, closingEnd: nat, opening: string, body: string,
                    ghost lines: seq<string>, ghost closing: string)
    returns (r: Result<LocatedSource>)
    requires opening == "---\n" || opening == "---\r\n"
    requires located == LocateAll(lines, |opening|) && source == Flatten(lines)
    requires closingEnd == |opening| + |source| + |closing|
    ensures r == LocateResult(ParseBlock(p, opening, lines, closing, body))
  {
    TextsOf(lines, |opening|);
    var found := FindFeatures(p, located, source, lines);
    if found.Fail? { return Fail(found.reason); }
    StartsAreInside(p, lines);
    var src := ReadSource(p, located, source, opening, closingEnd, body, found.value.0, found.value.1, lines, closing);
    r := Ok(src);
  }

  lemma ParseIs(p: Platform, content: string, opening: string, rest: seq<string>)
    requires Opening(content) == Some(opening) && rest == RawLines(content[|opening|..])
    ensures opening == "---\n" || opening == "---\r\n"
    ensures ClosingLine(rest).None? ==> Parse(p, content) == Fail(Unclosed)
    ensures ClosingLine(rest).Some? ==>
              var c := ClosingLine(rest).value;
              c < |rest| && Parse(p, content) == ParseBlock(p, opening, rest[..c], rest[c], Flatten(rest[c + 1..]))
  {
    OpeningIs(content);
    ClosingIs(rest);
    if ClosingLine(rest).Some? { ParseAt(p, content, opening, rest, ClosingLine(rest).value); } else { NotClosed(p, content, opening, rest); }
  }

  lemma NotClosed(p: Platform, content: string, opening: string, rest: seq<string>)
    requires Opening(content) == Some(opening) && rest == RawLines(content[|opening|..]) && ClosingLine(rest).None?
    ensures Parse(p, content) == Fail(Unclosed)
  {
  }

  /** Where the parts of a note are once its closing delimiter is found in what follows the opening. */
  lemma PartsOf(content: string, opening: string, lines: seq<string>, closing: string, body: string)
    requires Opening(content) == Some(opening) && content[|opening|..] == Flatten(lines) + (closing + body)
    ensures var i := |opening| + |Flatten(lines)|; var j := i + |closing|;
            j <= |content| && content[|opening|..i] == Flatten(lines) && content[j..] == body
  {
    var tail := content[|opening|..];
    assert tail[..|Flatten(lines)|] == Flatten(lines);
    assert tail[|Flatten(lines)| + |closing|..] == body;
  }

  method ParseFrontmatterSource(p: Platform, content: string) returns (r: Result<LocatedSource>)
    ensures r == LocateResult(Parse(p, content))
  {
    var opening := Opening(content);
    if opening.None? { return Fail(Missing); }
    var contentStart := |opening.value|;
    ghost var rest := RawLines(content[contentStart..]);
    assert content[contentStart..|content|] == content[contentStart..];
    ParseIs(p, content, opening.value, rest);
    ClosingSpanIs(rest, contentStart);
    var found := FindClosing(content, contentStart);
    if found.None? { return Fail(Unclosed); }
    ghost var c := ClosingLine(rest).value;
    r := ParseFound(p, content, opening.value, found.value.0, found.value.1, rest, c);
  }

  lemma SpanIs(rest: seq<string>, c: nat, at: nat)
    requires ClosingLine(rest) == Some(c)
    ensures c < |rest| && ClosingSpan(rest, at) == Some((at + |Flatten(rest[..c])|, at + |Flatten(rest[..c])| + |rest[c]|))
  {
    ClosingSpanIs(rest, at);
  }

  lemma BlockText(text: string, rest: seq<string>, c: nat)
    requires rest == RawLines(text) && ClosingLine(rest) == Some(c)
    ensures c < |rest| && AllWhole(rest[..c]) && text == Flatten(rest[..c]) + (rest[c] + Flatten(rest[c + 1..]))
  {
    BlockParts(text);
  }

  lemma FoundText(content: string, opening: string, rest: seq<string>, c: nat)
    requires Opening(content) == Some(opening) && rest == RawLines(content[|opening|..]) && ClosingLine(rest) == Some(c)
    ensures c < |rest| && (opening == "---\n" || opening == "---\r\n")
    ensures AllWhole(rest[..c]) && content[|opening|..] == Flatten(rest[..c]) + (rest[c] + Flatten(rest[c + 1..]))
  {
    OpeningIs(content);
    BlockText(content[|opening|..], rest, c);
  }

  lemma FoundParts(content: string, opening: string, closingStart: nat, closingEnd: nat, rest: seq<string>, c: nat)
    requires Opening(content) == Some(opening) && rest == RawLines(content[|opening|..])
    requires ClosingLine(rest) == Some(c) && ClosingSpan(rest, |opening|) == Some((closingStart, closingEnd))
    ensures c < |rest| && (opening == "---\n" || opening == "---\r\n")
    ensures |opening| <= closingStart <= closingEnd <= |content| && closingEnd == closingStart + |rest[c]|
    ensures content[|opening|..closingStart] == Flatten(rest[..c]) && RawLines(Flatten(rest[..c])) == rest[..c]
    ensures content[closingEnd..] == Flatten(rest[c + 1..])
  {
    FoundText(content, opening, rest, c);
    SpanIs(rest, c, |opening|);
    CutAll(rest[..c]);
    PartsAt(content, opening, rest[..c], rest[c], Flatten(rest[c + 1..]), closingStart, closingEnd);
  }

  lemma PartsAt(content: string, opening: string, lines: seq<string>, closing: string, body: string, i: nat, j: nat)
    requires Opening(content) == Some(opening) && content[|opening|..] == Flatten(lines) + (closing + body)
    requires i == |opening| + |Flatten(lines)| && j == i + |closing|
    ensures j <= |content| && content[|opening|..i] == Flatten(lines) && content[j..] == body
  {
    PartsOf(content, opening, lines, closing, body);
  }

  method ParseFound(p: Platform, content: string, opening: string, closingStart: nat, closingEnd: nat, ghost rest: seq<string>, ghost c: nat)
    returns (r: Result<LocatedSource>)
    requires Opening(content) == Some(opening) && rest == RawLines(content[|opening|..])
    requires ClosingLine(rest) == Some(c) && ClosingSpan(rest, |opening|) == Some((closingStart, closingEnd))
    ensures c < |rest| && (opening == "---\n" || opening == "---\r\n")
    ensures r == LocateResult(ParseBlock(p, opening, rest[..c], rest[c], Flatten(rest[c + 1..])))
  {
    FoundParts(content, opening, closingStart, closingEnd, rest, c);
    ghost var lines, closing := rest[..c], rest[c];
    var source, body := content[|opening|..closingStart], content[closingEnd..];
    var located := SplitLines(content, |opening|, closingStart);
    assert located == LocateAll(lines, |opening|);
    r := ParseLines(p, located, source, closingEnd, opening, body, lines, closing);
  }

  // -------------------------------------------------------------------------
  // Edits of characters
  // -------------------------------------------------------------------------

  function TextEdit(src: Source, e: Edit<string>): Edit<char> {
    Edit(|src.opening| + Offset(src.lines, e.start), |src.opening| + Offset(src.lines, e.end), Flatten(e.replacement))
  }

  function TextEdits(src: Source, edits: seq<Edit<string>>): seq<Edit<char>> {
    seq(|edits|, i requires 0 <= i < |edits| => TextEdit(src, edits[i]))
  }

  lemma {:induction false} OffsetGrows(lines: seq<string>, i: nat, j: nat)
    requires AllWhole(lines) && i <= j <= |lines|
    ensures Offset(lines, i) <= Offset(lines, j) && (i < j ==> Offset(lines, i) < Offset(lines, j))
  {
    if i < j {
      OffsetGrows(lines, i, j - 1);
      FlattenLast(lines, j - 1);
      assert Whole(lines[j - 1]);
    }
  }

  lemma OffsetOrder(lines: seq<string>, i: nat, j: nat)
    requires AllWhole(lines) && i <= |lines| && j <= |lines|
    ensures Offset(lines, i) < Offset(lines, j) <==> i < j
    ensures Offset(lines, i) == Offset(lines, j) <==> i == j
  {
    if i < j { OffsetGrows(lines, i, j); } else { OffsetGrows(lines, j, i); }
  }

  lemma SameBefore(src: Source, a: Edit<string>, b: Edit<string>)
    requires AllWhole(src.lines) && a.start <= a.end <= |src.lines| && b.start <= b.end <= |src.lines|
    ensures Before(TextEdit(src, a), TextEdit(src, b)) <==> Before(a, b)
  {
    OffsetOrder(src.lines, a.start, b.start);
    OffsetOrder(src.lines, a.end, b.end);
  }

  lemma TextEditsCons(src: Source, e: Edit<string>, rest: seq<Edit<string>>)
    ensures TextEdits(src, [e] + rest) == [TextEdit(src, e)] + TextEdits(src, rest)
  {
  }

  lemma {:induction false} InsertText(src: Source, e: Edit<string>, edits: seq<Edit<string>>)
    requires AllWhole(src.lines) && InRange(src.lines, edits) && e.start <= e.end <= |src.lines|
    ensures Insert(Before, TextEdit(src, e), TextEdits(src, edits)) == TextEdits(src, Insert(Before, e, edits))
  {
    if edits == [] || !Before(edits[0], e) {
      if edits != [] { SameBefore(src, edits[0], e); }
      TextEditsCons(src, e, edits);
    } else {
      SameBefore(src, edits[0], e);
      InsertText(src, e, edits[1..]);
      assert edits == [edits[0]] + edits[1..];
      TextEditsCons(src, edits[0], edits[1..]);
      TextEditsCons(src, edits[0], Insert(Before, e, edits[1..]));
    }
  }

  lemma SortInRange(lines: seq<string>, edits: seq<Edit<string>>)
    requires InRange(lines, edits)
    ensures InRange(lines, SortBy(Before, edits))
  {
    var s := SortBy(Before, edits);
    SortItems(Before, edits);
    forall i | 0 <= i < |s| ensures s[i].start <= s[i].end <= |lines| { assert s[i] in multiset(edits); }
  }

  /** Sorting the edits of characters is sorting the edits of lines. */
  lemma {:induction false} SortText(src: Source, edits: seq<Edit<string>>)
    requires AllWhole(src.lines) && InRange(src.lines, edits)
    ensures SortBy(Before, TextEdits(src, edits)) == TextEdits(src, SortBy(Before, edits))
  {
    if edits != [] {
      var first, rest := edits[0], edits[1..];
      SortText(src, rest);
      SortInRange(src.lines, rest);
      InsertText(src, first, SortBy(Before, rest));
      assert TextEdits(src, edits)[1..] == TextEdits(src, rest);
    }
  }

  lemma FlattenCut(lines: seq<string>, k: nat)
    requires k <= |lines|
    ensures Flatten(lines) == Flatten(lines[..k]) + Flatten(lines[k..])
  {
    assert lines == lines[..k] + lines[k..];
    FlattenConcat(lines[..k], lines[k..]);
  }

  lemma FlattenSplit(lines: seq<string>, i: nat, j: nat)
    requires i <= j <= |lines|
    ensures Flatten(lines[..j]) == Flatten(lines[..i]) + Flatten(lines[i..j])
    ensures Flatten(lines) == Flatten(lines[..j]) + Flatten(lines[j..])
  {
    assert Flatten(lines[..j]) == Flatten(lines[..i]) + Flatten(lines[i..j]) by {
      FlattenCut(lines[..j], i);
      assert lines[..j][..i] == lines[..i] && lines[..j][i..] == lines[i..j];
    }
    FlattenCut(lines, j);
  }

  lemma FlattenReplaced(lines: seq<string>, e: Edit<string>)
    requires e.start <= e.end <= |lines|
    ensures Flatten(ReplaceRange(lines, e)) == Flatten(lines[..e.start]) + Flatten(e.replacement) + Flatten(lines[e.end..])
  {
    FlattenConcat(lines[..e.start] + e.replacement, lines[e.end..]);
    FlattenConcat(lines[..e.start], e.replacement);
    assert ReplaceRange(lines, e) == lines[..e.start] + e.replacement + lines[e.end..];
  }

  /** Replacing lines in the block replaces the corresponding characters of the note. */
  lemma ReplaceText(src: Source, content: string, e: Edit<string>)
    requires content == Note(src, src.lines) && e.start <= e.end <= |src.lines|
    ensures TextEdit(src, e).start <= TextEdit(src, e).end <= |content|
    ensures ReplaceRange(content, TextEdit(src, e)) == Note(src, ReplaceRange(src.lines, e))
  {
    FlattenReplaced(src.lines, e);
    OffsetSplit(src.lines, e.start, e.end);
    ReplacedBlock(src, content, e, ReplaceRange(src.lines, e), Flatten(src.lines[..e.start]), Flatten(src.lines[e.start..e.end]), Flatten(src.lines[e.end..]));
  }

  lemma ReplacedBlock(src: Source, content: string, e: Edit<string>, lines: seq<string>, a: string, b: string, c: string)
    requires content == Note(src, src.lines) && Flatten(src.lines) == a + b + c && Flatten(lines) == a + Flatten(e.replacement) + c
    requires Offset(src.lines, e.start) == |a| && Offset(src.lines, e.end) == |a| + |b|
    ensures TextEdit(src, e).start <= TextEdit(src, e).end <= |content|
    ensures ReplaceRange(content, TextEdit(src, e)) == Note(src, lines)
  {
    ReplacedNote(content, src.opening, a, b, Flatten(e.replacement), c, src.closing, src.body);
    assert TextEdit(src, e) == Edit(|src.opening| + |a|, |src.opening| + |a| + |b|, Flatten(e.replacement));
  }

  lemma OffsetSplit(lines: seq<string>, i: nat, j: nat)
    requires i <= j <= |lines|
    ensures Offset(lines, i) == |Flatten(lines[..i])| && Offset(lines, j) == Offset(lines, i) + |Flatten(lines[i..j])|
    ensures Flatten(lines) == Flatten(lines[..i]) + Flatten(lines[i..j]) + Flatten(lines[j..])
  {
    FlattenSplit(lines, i, j);
  }

  lemma ReplacedNote(content: string, opening: string, a: string, b: string, replacement: string, c: string, closing: string, body: string)
    requires content == opening + (a + b + c) + closing + body
    ensures |opening| + |a| + |b| <= |content|
    ensures ReplaceRange(content, Edit(|opening| + |a|, |opening| + |a| + |b|, replacement)) == opening + (a + replacement + c) + closing + body
  {
    var head, tail := opening + a, c + closing + body;
    assert content == head + (b + tail);
    assert content[..|head|] == head && content[|head| + |b|..] == tail;
    assert opening + (a + replacement + c) + closing + body == head + replacement + tail;
  }

  lemma OffsetsUpTo(lines: seq<string>, other: seq<string>, k: nat, j: nat)
    requires j <= k <= |lines| && k <= |other| && lines[..k] == other[..k]
    ensures Offset(lines, j) == Offset(other, j)
  {
    assert lines[..j] == lines[..k][..j] && other[..j] == other[..k][..j];
  }

  /** Edits before a line are the same edits of characters whatever follows that line. */
  lemma SameTexts(src: Source, lines: seq<string>, edits: seq<Edit<string>>, k: nat)
    requires Fits(src.lines, edits) && EndOf(edits) <= k <= |src.lines| && k <= |lines| && lines[..k] == src.lines[..k]
    ensures TextEdits(src.(lines := lines), edits) == TextEdits(src, edits)
  {
    FitsOrder(src.lines, edits);
    forall i | 0 <= i < |edits| ensures TextEdit(src.(lines := lines), edits[i]) == TextEdit(src, edits[i]) {
      OffsetsUpTo(lines, src.lines, k, edits[i].start);
      OffsetsUpTo(lines, src.lines, k, edits[i].end);
    }
  }

  lemma OffsetMonotone(lines: seq<string>, i: nat, j: nat)
    requires i <= j <= |lines|
    ensures Offset(lines, i) <= Offset(lines, j)
  {
    FlattenSplit(lines, i, j);
  }

  /** Edits of lines that fit are edits of characters that fit. */
  lemma {:induction false} FitText(src: Source, content: string, edits: seq<Edit<string>>)
    requires content == Note(src, src.lines) && Fits(src.lines, edits)
    ensures Fits(content, TextEdits(src, edits))
  {
    if edits != [] {
      var before, last := edits[..|edits| - 1], edits[|edits| - 1];
      FitText(src, content, before);
      assert TextEdits(src, edits)[..|edits| - 1] == TextEdits(src, before);
      OffsetMonotone(src.lines, EndOf(before), last.start);
      ReplaceText(src, content, last);
    }
  }

  /** Splicing the characters of the note is splicing its lines. */
  lemma {:induction false} SpliceText(src: Source, content: string, edits: seq<Edit<string>>)
    requires content == Note(src, src.lines) && Fits(src.lines, edits)
    ensures Fits(content, TextEdits(src, edits))
    ensures Spliced(content, TextEdits(src, edits)) == Note(src, Spliced(src.lines, edits))
    decreases |edits|
  {
    FitText(src, content, edits);
    if edits == [] {
      NothingSpliced(content, TextEdits(src, edits));
      NothingSpliced(src.lines, edits);
    } else {
      var before, last := edits[..|edits| - 1], edits[|edits| - 1];
      var lines, replaced := ReplaceRange(src.lines, last), ReplaceRange(content, TextEdit(src, last));
      LastLines(src, content, edits, lines);
      LastText(src, content, edits, before, replaced);
      SpliceText(src.(lines := lines), replaced, before);
    }
  }

  /** Replacing the last range of lines first: what is left to splice. */
  lemma LastLines(src: Source, content: string, edits: seq<Edit<string>>, lines: seq<string>)
    requires content == Note(src, src.lines) && Fits(src.lines, edits) && edits != []
    requires lines == ReplaceRange(src.lines, edits[|edits| - 1])
    ensures var before, last := edits[..|edits| - 1], edits[|edits| - 1];
            && TextEdit(src, last).start <= TextEdit(src, last).end <= |content|
            && ReplaceRange(content, TextEdit(src, last)) == Note(src, lines)
            && Fits(lines, before) && Spliced(lines, before) == Spliced(src.lines, edits)
            && TextEdits(src.(lines := lines), before) == TextEdits(src, before)
  {
    var before, last := edits[..|edits| - 1], edits[|edits| - 1];
    FitsOrder(src.lines, edits);
    ReplaceText(src, content, last);
    ReplaceLast(src.lines, edits);
    SameTexts(src, lines, before, last.start);
  }

  /** The same of the characters. */
  lemma LastText(src: Source, content: string, edits: seq<Edit<string>>, before: seq<Edit<string>>, replaced: string)
    requires edits != [] && before == edits[..|edits| - 1] && Fits(content, TextEdits(src, edits))
    requires replaced == ReplaceRange(content, TextEdit(src, edits[|edits| - 1]))
    ensures Fits(replaced, TextEdits(src, before))
    ensures Spliced(replaced, TextEdits(src, before)) == Spliced(content, TextEdits(src, edits))
  {
    ReplaceLast(content, TextEdits(src, edits));
    assert TextEdits(src, edits)[..|edits| - 1] == TextEdits(src, before);
  }

  lemma NothingSpliced<T>(content: seq<T>, edits: seq<Edit<T>>)
    requires edits == []
    ensures Spliced(content, edits) == content
  {
  }

  /** The remainder is what splicing leaves when every replacement is empty. */
  function Blank<T>(edits: seq<Edit<T>>): seq<Edit<T>> {
    seq(|edits|, i requires 0 <= i < |edits| => Edit(edits[i].start, edits[i].end, []))
  }

  lemma {:induction false} BlankSpared<T>(content: seq<T>, edits: seq<Edit<T>>)
    requires Fits(content, edits)
    ensures Fits(content, Blank(edits)) && EndOf(Blank(edits)) == EndOf(edits) && Built(content, Blank(edits)) == Spared(content, edits)
  {
    if edits != [] {
      BlankSpared(content, edits[..|edits| - 1]);
      assert Blank(edits)[..|edits| - 1] == Blank(edits[..|edits| - 1]);
    }
  }

  lemma UntouchedIsSplice<T>(content: seq<T>, edits: seq<Edit<T>>)
    requires Fits(content, edits)
    ensures Fits(content, Blank(edits)) && Untouched(content, edits) == Spliced(content, Blank(edits))
  {
    BlankSpared(content, edits);
  }

  lemma BlankText(src: Source, edits: seq<Edit<string>>)
    ensures TextEdits(src, Blank(edits)) == Blank(TextEdits(src, edits))
  {
  }

  lemma UntouchedText(src: Source, content: string, edits: seq<Edit<string>>)
    requires content == Note(src, src.lines) && Fits(src.lines, edits)
    ensures Fits(content, TextEdits(src, edits))
    ensures Untouched(content, TextEdits(src, edits)) == Note(src, Untouched(src.lines, edits))
  {
    FitText(src, content, edits);
    UntouchedIsSplice(src.lines, edits);
    UntouchedIsSplice(content, TextEdits(src, edits));
    BlankText(src, edits);
    SpliceText(src, content, Blank(edits));
  }
}
