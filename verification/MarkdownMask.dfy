/**
 Masking code in Markdown: lines of fenced blocks (section 4.5 of CommonMark 0.31.2), then spans between backtick
 runs of equal length (section 6.1), over code points, without moving a line break.
 */
module MarkdownMask {
  import opened Options
  import opened TextLines

  predicate IsBreak(c: char) { c == '\n' || c == '\r' }

  function MaskChar(c: char): char { if IsBreak(c) then c else ' ' }

  function MaskLine(line: string): string { seq(|line|, i requires 0 <= i < |line| => MaskChar(line[i])) }

  // -------------------------------------------------------------------------
  // Fences
  // -------------------------------------------------------------------------

  datatype Fence = Fence(marker: char, length: nat)

  /** Number of characters `c` at the start of a text. */
  function RunLength(text: string, c: char): (n: nat)
    ensures n <= |text| && (forall i :: 0 <= i < n ==> text[i] == c) && (n < |text| ==> text[n] != c)
  {
    if text != [] && text[0] == c then
      var rest := RunLength(text[1..], c);
      assert forall i :: 1 <= i < rest + 1 ==> text[i] == text[1..][i - 1];
      rest + 1
    else 0
  }

  /** The run of backticks or tildes after at most three spaces, and what follows it. */
  function MarkerRun(line: string): (Option<Fence>, string) {
    var indent := RunLength(line, ' ');
    var rest := line[indent..];
    if indent > 3 || rest == [] || rest[0] !in {'`', '~'} then (None, "")
    else var n := RunLength(rest, rest[0]); (Some(Fence(rest[0], n)), rest[n..])
  }

  function UntilBreak(text: string): string {
    if text == [] || IsBreak(text[0]) then [] else [text[0]] + UntilBreak(text[1..])
  }

  /** The fence a line opens: at least three markers, and no backtick in the info string of a backtick fence. */
  function Opens(line: string): Option<Fence> {
    var (run, rest) := MarkerRun(line);
    if run.None? || run.value.length < 3 || (run.value.marker == '`' && '`' in UntilBreak(rest)) then None else run
  }

  function SkipBlanks(text: string): string {
    if text != [] && text[0] in {' ', '\t'} then SkipBlanks(text[1..]) else text
  }

  /** A line closes a fence with a run of the same marker at least as long, and nothing else but blanks. */
  predicate Closes(line: string, fence: Fence) {
    var (run, rest) := MarkerRun(line);
    && run.Some? && run.value.marker == fence.marker && run.value.length >= fence.length
    && SkipBlanks(rest) in {"", "\n", "\r", "\r\n"}
  }

  /** The fence open before line `n`. */
  function FenceBefore(lines: seq<string>, n: nat): Option<Fence>
    requires n <= |lines|
  {
    if n == 0 then None
    else
      match FenceBefore(lines, n - 1)
      case None => Opens(lines[n - 1])
      case Some(fence) => if Closes(lines[n - 1], fence) then None else Some(fence)
  }

  /** The line belongs to a fenced block, its delimiters included. */
  predicate Fenced(lines: seq<string>, n: nat)
    requires n < |lines|
  {
    FenceBefore(lines, n).Some? || Opens(lines[n]).Some?
  }

  function MaskFences(lines: seq<string>, n: nat): string
    requires n <= |lines|
  {
    if n == 0 then [] else MaskFences(lines, n - 1) + (if Fenced(lines, n - 1) then MaskLine(lines[n - 1]) else lines[n - 1])
  }

  /** An opening line outside any block, of a block that no line after it and before line `n` closes. */
  predicate OpenedAt(lines: seq<string>, o: nat, n: nat)
    requires n < |lines|
  {
    o <= n && FenceBefore(lines, o).None? && Opens(lines[o]).Some? && forall k :: o < k < n ==> !Closes(lines[k], Opens(lines[o]).value)
  }

  /** A line is fenced exactly when a block opened at it or before it is not closed by a line in between. */
  lemma {:induction false} FencedIff(lines: seq<string>, n: nat)
    requires n < |lines|
    ensures Fenced(lines, n) <==> exists o :: 0 <= o <= n && OpenedAt(lines, o, n)
  {
    if Fenced(lines, n) {
      if FenceBefore(lines, n).None? {
        assert OpenedAt(lines, n, n);
      } else {
        var o := OpenerOf(lines, n);
        assert OpenedAt(lines, o, n);
      }
    }
    if o :| 0 <= o <= n && OpenedAt(lines, o, n) { StaysOpen(lines, o, n); }
  }

  lemma {:induction false} OpenerOf(lines: seq<string>, n: nat) returns (o: nat)
    requires n < |lines| && FenceBefore(lines, n).Some?
    ensures o < n && OpenedAt(lines, o, n) && Opens(lines[o]) == FenceBefore(lines, n)
  {
    if FenceBefore(lines, n - 1).None? { o := n - 1; } else { o := OpenerOf(lines, n - 1); }
  }

  lemma {:induction false} StaysOpen(lines: seq<string>, o: nat, n: nat)
    requires n < |lines| && OpenedAt(lines, o, n)
    ensures o < n ==> FenceBefore(lines, n) == Opens(lines[o])
  {
    if o + 1 < n {
      assert OpenedAt(lines, o, n - 1);
      StaysOpen(lines, o, n - 1);
    }
  }

  // -------------------------------------------------------------------------
  // Code spans
  // -------------------------------------------------------------------------

  /** Where the run of backticks at `i` ends. */
  function RunEnd(s: string, i: nat): (end: nat)
    requires i <= |s|
    ensures i <= end <= |s| && (forall k :: i <= k < end ==> s[k] == '`') && (end < |s| ==> s[end] != '`')
    decreases |s| - i
  {
    if i < |s| && s[i] == '`' then RunEnd(s, i + 1) else i
  }

  /** Start of the first run of exactly `length` backticks from `at` on, where a run may start. */
  function FindClose(s: string, at: nat, length: nat): (close: Option<nat>)
    requires at <= |s|
    ensures close.Some? ==> at <= close.value < |s| && s[close.value] == '`' && RunEnd(s, close.value) - close.value == length
    decreases |s| - at
  {
    if at == |s| then None
    else if s[at] != '`' then FindClose(s, at + 1, length)
    else if RunEnd(s, at) - at == length then Some(at)
    else FindClose(s, RunEnd(s, at), length)
  }

  datatype Span = Span(start: nat, open: nat, close: nat, after: nat)

  /** A backtick that may start a span: not behind a backslash. */
  predicate MayStart(s: string, i: nat)
    requires i < |s|
  {
    s[i] == '`' && !(i > 0 && s[i - 1] == '\\')
  }

  function Spans(s: string, i: nat): seq<Span>
    requires i <= |s|
    decreases |s| - i
  {
    if i == |s| then []
    else if !MayStart(s, i) then Spans(s, i + 1)
    else
      var end := RunEnd(s, i);
      var close := FindClose(s, end, end - i);
      if close.None? then Spans(s, end)
      else [Span(i, end, close.value, RunEnd(s, close.value))] + Spans(s, RunEnd(s, close.value))
  }

  predicate InSpan(spans: seq<Span>, k: nat) { exists x :: 0 <= x < |spans| && spans[x].start <= k < spans[x].after }

  function MaskSpans(s: string, spans: seq<Span>): string {
    seq(|s|, k requires 0 <= k < |s| => if InSpan(spans, k) then MaskChar(s[k]) else s[k])
  }

  /** A span lies between two runs of backticks of equal length, the first one not escaped, with no such run in between. */
  predicate SpanOk(s: string, x: Span) {
    && x.start < x.open < x.close < x.after <= |s| && x.open - x.start == x.after - x.close
    && MayStart(s, x.start)
    && (forall k :: x.start <= k < x.open ==> s[k] == '`') && s[x.open] != '`'
    && (forall k :: x.close <= k < x.after ==> s[k] == '`') && s[x.close - 1] != '`' && (x.after < |s| ==> s[x.after] != '`')
    && NoRunBetween(s, x.open, x.close, x.open - x.start)
  }

  /** No run of backticks that starts in the stretch, after another character, has this length. */
  predicate NoRunBetween(s: string, from: nat, to: nat, length: nat)
    requires to <= |s|
  {
    forall k :: 0 < from <= k < to && s[k] == '`' && s[k - 1] != '`' ==> RunEnd(s, k) - k != length
  }

  predicate SpanAt(s: string, spans: seq<Span>, x: nat, from: nat)
    requires x < |spans|
  {
    SpanOk(s, spans[x]) && from <= spans[x].start
  }

  predicate Ordered(spans: seq<Span>) { forall x, y :: 0 <= x < y < |spans| ==> spans[x].after <= spans[y].start }

  predicate SpansOk(s: string, spans: seq<Span>, from: nat) {
    Ordered(spans) && forall x :: 0 <= x < |spans| ==> SpanAt(s, spans, x, from)
  }

  /** The run found is the first of its length, and a run of its own. */
  lemma {:induction false} CloseIsFirst(s: string, at: nat, length: nat)
    requires 0 < at <= |s| && (at < |s| && s[at] == '`' ==> s[at - 1] != '`')
    requires FindClose(s, at, length).Some?
    ensures var close := FindClose(s, at, length).value;
            s[close - 1] != '`' && NoRunBetween(s, at, close, length)
    decreases |s| - at
  {
    if s[at] != '`' {
      CloseIsFirst(s, at + 1, length);
    } else if RunEnd(s, at) - at != length {
      var end := RunEnd(s, at);
      AfterRun(s, end, length);
      if end < |s| {
        CloseIsFirst(s, end + 1, length);
      }
    }
  }

  lemma AfterRun(s: string, end: nat, length: nat)
    requires end <= |s| && (end < |s| ==> s[end] != '`')
    ensures FindClose(s, end, length) == if end < |s| then FindClose(s, end + 1, length) else None
  {
  }

  lemma SpansFrom(s: string, spans: seq<Span>, from: nat, earlier: nat)
    requires SpansOk(s, spans, from) && earlier <= from
    ensures SpansOk(s, spans, earlier)
  {
    forall x | 0 <= x < |spans| ensures SpanAt(s, spans, x, earlier) { assert SpanAt(s, spans, x, from); }
  }

  lemma ConsSpan(s: string, x: Span, rest: seq<Span>)
    requires SpanOk(s, x) && SpansOk(s, rest, x.after)
    ensures SpansOk(s, [x] + rest, x.start)
  {
    var all := [x] + rest;
    forall k | 0 <= k < |all| ensures SpanAt(s, all, k, x.start) { if k > 0 { assert SpanAt(s, rest, k - 1, x.after); } }
    forall j, k | 0 <= j < k < |all| ensures all[j].after <= all[k].start {
      assert SpanAt(s, rest, k - 1, x.after);
      if j > 0 { assert rest[j - 1].after <= rest[k - 1].start; }
    }
  }

  /** The spans found are in order, apart from each other, and each stands between two runs of backticks of one length. */
  lemma {:induction false} SpansAreOk(s: string, i: nat)
    requires i <= |s|
    ensures SpansOk(s, Spans(s, i), i)
    decreases |s| - i
  {
    if i < |s| {
      if !MayStart(s, i) {
        SpansAreOk(s, i + 1);
        SpansFrom(s, Spans(s, i + 1), i + 1, i);
      } else if FindClose(s, RunEnd(s, i), RunEnd(s, i) - i).None? {
        SpansAreOk(s, RunEnd(s, i));
        SpansFrom(s, Spans(s, RunEnd(s, i)), RunEnd(s, i), i);
      } else {
        var x := SpanHere(s, i);
        SpansAreOk(s, x.after);
        ConsSpan(s, x, Spans(s, x.after));
      }
    }
  }

  /** The first backtick of a run, or the second one behind an escaped first, that may start a span. */
  predicate RunStart(s: string, k: nat)
    requires k < |s|
  {
    MayStart(s, k) && (k == 0 || s[k - 1] != '`' || (k >= 2 && s[k - 2] == '\\'))
  }

  /** No run of the same length follows the run at `k`. */
  predicate Unmatched(s: string, k: nat)
    requires k < |s|
  {
    NoRunBetween(s, RunEnd(s, k), |s|, RunEnd(s, k) - k)
  }

  /** Every run outside the spans that could have started one stays unmatched. */
  predicate SpansComplete(s: string, spans: seq<Span>, from: nat) {
    forall k :: from <= k < |s| && RunStart(s, k) && !InSpan(spans, k) ==> Unmatched(s, k)
  }

  lemma {:induction false} NoClose(s: string, at: nat, length: nat)
    requires 0 < at <= |s| && (at < |s| && s[at] == '`' ==> s[at - 1] != '`')
    requires FindClose(s, at, length).None?
    ensures NoRunBetween(s, at, |s|, length)
    decreases |s| - at
  {
    if at < |s| {
      if s[at] != '`' {
        NoClose(s, at + 1, length);
      } else {
        var end := RunEnd(s, at);
        AfterRun(s, end, length);
        if end < |s| { NoClose(s, end + 1, length); }
      }
    }
  }

  /** The run at `i` stays unmatched, and no other one starts in it. */
  lemma NoSpanHere(s: string, i: nat, k: nat)
    requires i < |s| && MayStart(s, i) && FindClose(s, RunEnd(s, i), RunEnd(s, i) - i).None?
    requires i <= k < RunEnd(s, i) && RunStart(s, k)
    ensures Unmatched(s, k)
  {
    var end := RunEnd(s, i);
    assert k == i;
    AfterRun(s, end, end - i);
    if end < |s| { NoClose(s, end + 1, end - i); }
  }

  /** No span is missed: what could have started one and lies outside all of them has no later run of its length. */
  lemma {:induction false} SpansAreComplete(s: string, i: nat)
    requires i <= |s|
    ensures SpansComplete(s, Spans(s, i), i)
    decreases |s| - i
  {
    if i < |s| {
      var end := RunEnd(s, i);
      if !MayStart(s, i) {
        SpansAreComplete(s, i + 1);
      } else if FindClose(s, end, end - i).None? {
        SpansAreComplete(s, end);
        forall k | i <= k < |s| && RunStart(s, k) && !InSpan(Spans(s, i), k) ensures Unmatched(s, k) {
          if k < end { NoSpanHere(s, i, k); }
        }
      } else {
        var x := SpanHere(s, i);
        SpansAreComplete(s, x.after);
        forall k | i <= k < |s| && RunStart(s, k) && !InSpan(Spans(s, i), k) ensures Unmatched(s, k) {
          OutsideRest(x, Spans(s, x.after), k);
          assert k >= x.after;
        }
      }
    }
  }

  lemma OutsideRest(x: Span, rest: seq<Span>, k: nat)
    requires !InSpan([x] + rest, k)
    ensures !(x.start <= k < x.after) && !InSpan(rest, k)
  {
    var all := [x] + rest;
    assert all[0] == x;
    forall y | 0 <= y < |rest| ensures !(rest[y].start <= k < rest[y].after) { assert all[y + 1] == rest[y]; }
  }

  /** The span that starts here, and the ones behind it. */
  lemma SpanHere(s: string, i: nat) returns (x: Span)
    requires i < |s| && MayStart(s, i) && FindClose(s, RunEnd(s, i), RunEnd(s, i) - i).Some?
    ensures var close := FindClose(s, RunEnd(s, i), RunEnd(s, i) - i).value; x == Span(i, RunEnd(s, i), close, RunEnd(s, close))
    ensures SpanOk(s, x) && Spans(s, i) == [x] + Spans(s, x.after)
  {
    var close := FindClose(s, RunEnd(s, i), RunEnd(s, i) - i).value;
    x := Span(i, RunEnd(s, i), close, RunEnd(s, close));
    FoundSpan(s, i);
  }

  lemma FoundSpan(s: string, i: nat)
    requires i < |s| && MayStart(s, i) && FindClose(s, RunEnd(s, i), RunEnd(s, i) - i).Some?
    ensures var end := RunEnd(s, i); var close := FindClose(s, end, end - i).value;
            SpanOk(s, Span(i, end, close, RunEnd(s, close)))
  {
    var end := RunEnd(s, i);
    AfterRun(s, end, end - i);
    CloseIsFirst(s, end, end - i);
    SpanFrom(s, i, end, FindClose(s, end, end - i).value);
  }

  lemma SpanFrom(s: string, i: nat, end: nat, close: nat)
    requires i < end < close < |s| && MayStart(s, i) && end == RunEnd(s, i) && s[close] == '`'
    requires RunEnd(s, close) - close == end - i && s[close - 1] != '`' && NoRunBetween(s, end, close, end - i)
    ensures SpanOk(s, Span(i, end, close, RunEnd(s, close)))
  {
  }

  // -------------------------------------------------------------------------
  // The loops
  // -------------------------------------------------------------------------

  predicate LinesDone(lines: seq<string>, n: nat, fence: Option<Fence>, text: string)
    requires n <= |lines|
  {
    fence == FenceBefore(lines, n) && text == MaskFences(lines, n)
  }

  /** One more line, after which its own fence is open, or none, or the one before it. */
  lemma OneMoreLine(lines: seq<string>, n: nat, fence: Option<Fence>, text: string)
    requires n < |lines| && LinesDone(lines, n, fence, text)
    ensures fence.Some? ==>
              LinesDone(lines, n + 1, if Closes(lines[n], fence.value) then None else fence, text + MaskLine(lines[n]))
    ensures fence.None? && Opens(lines[n]).Some? ==> LinesDone(lines, n + 1, Opens(lines[n]), text + MaskLine(lines[n]))
    ensures fence.None? && Opens(lines[n]).None? ==> LinesDone(lines, n + 1, None, text + lines[n])
  {
  }

  /** The loop over lines, with the fence that is open. */
  method MaskFencedLines(body: string) returns (text: string, unclosedFence: bool)
    ensures var lines := RawLines(body); text == MaskFences(lines, |lines|) && unclosedFence == FenceBefore(lines, |lines|).Some?
  {
    var lines := RawLines(body);
    var fence: Option<Fence> := None;
    text := "";
    var n := 0;
    while n < |lines|
      invariant 0 <= n <= |lines| && LinesDone(lines, n, fence, text)
    {
      var line := lines[n];
      OneMoreLine(lines, n, fence, text);
      if fence.Some? {
        if Closes(line, fence.value) { fence := None; }
        text := text + MaskLine(line);
      } else if Opens(line).Some? {
        fence := Opens(line);
        text := text + MaskLine(line);
      } else {
        text := text + line;
      }
      n := n + 1;
    }
    unclosedFence := fence.Some?;
  }

  method RunOf(chars: array<char>, i: nat) returns (end: nat)
    requires i <= chars.Length
    ensures end == RunEnd(chars[..], i)
  {
    end := i;
    while end < chars.Length && chars[end] == '`'
      invariant i <= end <= chars.Length && RunEnd(chars[..], i) == RunEnd(chars[..], end)
    {
      end := end + 1;
    }
  }

  method CloseOf(chars: array<char>, from: nat, length: nat) returns (close: Option<nat>)
    requires from <= chars.Length
    ensures close == FindClose(chars[..], from, length)
  {
    var at := from;
    while at < chars.Length
      invariant from <= at <= chars.Length && FindClose(chars[..], from, length) == FindClose(chars[..], at, length)
      decreases chars.Length - at
    {
      if chars[at] != '`' {
        at := at + 1;
      } else {
        var after := RunOf(chars, at);
        if after - at == length { return Some(at); }
        at := after;
      }
    }
    close := None;
  }

  method Overwrite(chars: array<char>, from: nat, to: nat)
    requires from <= to <= chars.Length
    modifies chars
    ensures forall k :: 0 <= k < chars.Length ==> chars[k] == if from <= k < to then MaskChar(old(chars[k])) else old(chars[k])
  {
    var j := from;
    while j < to
      invariant from <= j <= to
      invariant forall k :: 0 <= k < chars.Length ==> chars[k] == if from <= k < j then MaskChar(old(chars[k])) else old(chars[k])
    {
      if !IsBreak(chars[j]) { chars[j] := ' '; }
      j := j + 1;
    }
  }

  lemma {:induction false} SameRunEnd(s: string, t: string, i: nat)
    requires i <= |s| && |s| == |t| && forall k :: i <= k < |s| ==> s[k] == t[k]
    ensures RunEnd(s, i) == RunEnd(t, i)
    decreases |s| - i
  {
    if i < |s| && s[i] == '`' { SameRunEnd(s, t, i + 1); }
  }

  lemma {:induction false} SameFindClose(s: string, t: string, at: nat, length: nat)
    requires at <= |s| && |s| == |t| && forall k :: at <= k < |s| ==> s[k] == t[k]
    ensures FindClose(s, at, length) == FindClose(t, at, length)
    decreases |s| - at
  {
    if at < |s| {
      if s[at] != '`' {
        SameFindClose(s, t, at + 1, length);
      } else {
        SameRunEnd(s, t, at);
        if RunEnd(s, at) - at != length { SameFindClose(s, t, RunEnd(s, at), length); }
      }
    }
  }

  /** What the array holds when the spans up to `i` are masked: those spans are blank, and the rest is as it was. */
  ghost predicate MaskedUpTo(s: string, t: string, done: seq<Span>, i: nat) {
    && i <= |s| && SpansOk(s, done, 0) && (forall x :: 0 <= x < |done| ==> done[x].after <= i)
    && Spans(s, 0) == done + Spans(s, i) && t == MaskSpans(s, done)
  }

  lemma RestUntouched(s: string, t: string, done: seq<Span>, i: nat)
    requires MaskedUpTo(s, t, done, i)
    ensures |t| == |s| && (forall k :: i <= k < |s| ==> t[k] == s[k])
    ensures i < |s| ==> (MayStart(s, i) <==> MayStart(t, i))
  {
    if i < |s| && i > 0 && InSpan(done, i - 1) {
      var x :| 0 <= x < |done| && done[x].start <= i - 1 < done[x].after;
      assert SpanAt(s, done, x, 0) && done[x].after == i && s[i - 1] == '`';
    }
  }

  lemma SkipKeeps(s: string, t: string, done: seq<Span>, i: nat, next: nat)
    requires MaskedUpTo(s, t, done, i) && i <= next <= |s| && Spans(s, i) == Spans(s, next)
    ensures MaskedUpTo(s, t, done, next)
  {
  }

  lemma OneMoreSpan(s: string, t: string, t': string, done: seq<Span>, x: Span)
    requires MaskedUpTo(s, t, done, x.start) && SpanOk(s, x) && Spans(s, x.start) == [x] + Spans(s, x.after)
    requires |t'| == |t| && forall k :: 0 <= k < |t| ==> t'[k] == if x.start <= k < x.after then MaskChar(t[k]) else t[k]
    ensures MaskedUpTo(s, t', done + [x], x.after)
  {
    assert done + ([x] + Spans(s, x.after)) == (done + [x]) + Spans(s, x.after);
    MaskedMore(s, t, t', done, x);
    SnocSpan(s, done, x);
  }

  lemma MaskedMore(s: string, t: string, t': string, done: seq<Span>, x: Span)
    requires t == MaskSpans(s, done) && |t'| == |t|
    requires forall k :: 0 <= k < |t| ==> t'[k] == if x.start <= k < x.after then MaskChar(t[k]) else t[k]
    ensures t' == MaskSpans(s, done + [x])
  {
    forall k | 0 <= k < |s| ensures t'[k] == MaskSpans(s, done + [x])[k] { OneMoreChar(done, x, k); }
  }

  lemma OneMoreChar(done: seq<Span>, x: Span, k: nat)
    ensures InSpan(done + [x], k) <==> InSpan(done, k) || x.start <= k < x.after
  {
    if InSpan(done, k) {
      var y :| 0 <= y < |done| && done[y].start <= k < done[y].after;
      assert (done + [x])[y] == done[y];
    }
    assert (done + [x])[|done|] == x;
  }

  lemma SnocSpan(s: string, done: seq<Span>, x: Span)
    requires SpansOk(s, done, 0) && SpanOk(s, x) && forall y :: 0 <= y < |done| ==> done[y].after <= x.start
    ensures SpansOk(s, done + [x], 0) && forall y :: 0 <= y < |done + [x]| ==> (done + [x])[y].after <= x.after
  {
    forall y | 0 <= y < |done + [x]| ensures SpanAt(s, done + [x], y, 0) { if y < |done| { assert SpanAt(s, done, y, 0); } }
  }

  /** The index loop, which blanks each span in the array it is searching. */
  method MaskSpansInPlace(chars: array<char>)
    modifies chars
    ensures chars[..] == MaskSpans(old(chars[..]), Spans(old(chars[..]), 0))
  {
    ghost var s := chars[..];
    ghost var done: seq<Span> := [];
    var i := 0;
    assert MaskedUpTo(s, chars[..], done, 0);
    while i < chars.Length
      invariant i <= chars.Length == |s| && MaskedUpTo(s, chars[..], done, i)
      decreases chars.Length - i
    {
      RestUntouched(s, chars[..], done, i);
      if chars[i] != '`' || (i > 0 && chars[i - 1] == '\\') {
        SkipKeeps(s, chars[..], done, i, i + 1);
        i := i + 1;
      } else {
        i, done := MaskSpanAt(chars, i, s, done);
      }
    }
    assert done + Spans(s, i) == done;
  }

  /** The span that starts at `i`, or where its unmatched run ends; the array still holds the text from `i` on. */
  method FindSpan(chars: array<char>, i: nat, ghost s: string) returns (end: nat, span: Option<Span>)
    requires i < chars.Length == |s| && MayStart(s, i) && forall k :: i <= k < |s| ==> chars[..][k] == s[k]
    ensures i < end <= |s|
    ensures span.None? ==> Spans(s, i) == Spans(s, end)
    ensures span.Some? ==> span.value.start == i && SpanOk(s, span.value) && Spans(s, i) == [span.value] + Spans(s, span.value.after)
  {
    SameRunEnd(chars[..], s, i);
    end := RunOf(chars, i);
    SameFindClose(chars[..], s, end, end - i);
    var close := CloseOf(chars, end, end - i);
    if close.None? { return end, None; }
    SameRunEnd(chars[..], s, close.value);
    var after := RunOf(chars, close.value);
    ghost var x := SpanHere(s, i);
    span := Some(Span(i, end, close.value, after));
  }

  /** From a run that may start a span: blanks the span if the run is closed; goes on behind it either way. */
  method MaskSpanAt(chars: array<char>, i: nat, ghost s: string, ghost done: seq<Span>) returns (next: nat, ghost more: seq<Span>)
    requires i < chars.Length == |s| && MaskedUpTo(s, chars[..], done, i) && MayStart(s, i)
    requires forall k :: i <= k < |s| ==> chars[..][k] == s[k]
    modifies chars
    ensures i < next <= chars.Length && MaskedUpTo(s, chars[..], more, next)
  {
    var end, span := FindSpan(chars, i, s);
    if span.None? {
      SkipKeeps(s, chars[..], done, i, end);
      return end, done;
    }
    ghost var t := chars[..];
    Overwrite(chars, i, span.value.after);
    OneMoreSpan(s, t, chars[..], done, span.value);
    next, more := span.value.after, done + [span.value];
  }

  method MarkdownWithoutCode(body: string) returns (text: string, unclosedFence: bool)
    ensures var lines := RawLines(body); var prose := MaskFences(lines, |lines|);
            text == MaskSpans(prose, Spans(prose, 0)) && unclosedFence == FenceBefore(lines, |lines|).Some?
  {
    var prose;
    prose, unclosedFence := MaskFencedLines(body);
    var chars := new char[|prose|](k requires 0 <= k < |prose| => prose[k]);
    assert chars[..] == prose;
    MaskSpansInPlace(chars);
    text := chars[..];
  }

  // -------------------------------------------------------------------------
  // What masking may change
  // -------------------------------------------------------------------------

  function OffsetOf(lines: seq<string>, n: nat): nat
    requires n <= |lines|
  {
    if n == 0 then 0 else OffsetOf(lines, n - 1) + |lines[n - 1]|
  }

  /** The masked lines have the size of the lines, break for break. */
  lemma {:induction false} FencesMask(lines: seq<string>, n: nat, k: nat)
    requires n <= |lines| && k < OffsetOf(lines, n)
    ensures FenceCharOk(lines, n, k)
    decreases n
  {
    if n > 0 {
      if k < OffsetOf(lines, n - 1) {
        FencesMask(lines, n - 1, k);
        EarlierChar(lines, n, k);
      } else {
        LastChar(lines, n, k);
      }
    }
  }

  /** A character of a fenced line is blanked, unless it is a line break; any other is itself. */
  ghost predicate FenceCharOk(lines: seq<string>, n: nat, k: nat)
    requires n <= |lines|
  {
    SizesOk(lines, n) && k < OffsetOf(lines, n)
    && MaskFences(lines, n)[k] == if InFence(lines, n, k) then MaskChar(Joined(lines, n)[k]) else Joined(lines, n)[k]
  }

  ghost predicate SizesOk(lines: seq<string>, n: nat)
    requires n <= |lines|
  {
    |MaskFences(lines, n)| == OffsetOf(lines, n) == |Joined(lines, n)|
  }

  lemma EarlierChar(lines: seq<string>, n: nat, k: nat)
    requires 0 < n <= |lines| && FenceCharOk(lines, n - 1, k)
    ensures FenceCharOk(lines, n, k)
  {
    SizesAgree(lines, n);
    EarlierLine(lines, n, k);
  }

  lemma LastChar(lines: seq<string>, n: nat, k: nat)
    requires 0 < n <= |lines| && OffsetOf(lines, n - 1) <= k < OffsetOf(lines, n)
    ensures FenceCharOk(lines, n, k)
  {
    SizesAgree(lines, n - 1);
    SizesAgree(lines, n);
    LastLine(lines, n, k);
  }

  lemma {:induction false} SizesAgree(lines: seq<string>, n: nat)
    requires n <= |lines|
    ensures |MaskFences(lines, n)| == OffsetOf(lines, n) == |Joined(lines, n)|
  {
    if n > 0 { SizesAgree(lines, n - 1); }
  }

  function Joined(lines: seq<string>, n: nat): string
    requires n <= |lines|
  {
    if n == 0 then [] else Joined(lines, n - 1) + lines[n - 1]
  }

  /** The character stands in a line of a fenced block. */
  predicate InFence(lines: seq<string>, n: nat, k: nat)
    requires n <= |lines|
  {
    exists l :: 0 <= l < n && InFencedLine(lines, l, k)
  }

  predicate InFencedLine(lines: seq<string>, l: nat, k: nat)
    requires l < |lines|
  {
    OffsetOf(lines, l) <= k < OffsetOf(lines, l + 1) && Fenced(lines, l)
  }

  lemma {:induction false} OffsetsGrow(lines: seq<string>, m: nat, n: nat)
    requires m <= n <= |lines|
    ensures OffsetOf(lines, m) <= OffsetOf(lines, n)
  {
    if m < n { OffsetsGrow(lines, m, n - 1); }
  }

  lemma EarlierLine(lines: seq<string>, n: nat, k: nat)
    requires 0 < n <= |lines| && k < OffsetOf(lines, n - 1)
    ensures InFence(lines, n, k) <==> InFence(lines, n - 1, k)
  {
  }

  lemma LastLine(lines: seq<string>, n: nat, k: nat)
    requires 0 < n <= |lines| && OffsetOf(lines, n - 1) <= k < OffsetOf(lines, n)
    ensures InFence(lines, n, k) <==> Fenced(lines, n - 1)
  {
    if InFence(lines, n, k) {
      var l :| 0 <= l < n && InFencedLine(lines, l, k);
      if l < n - 1 { OffsetsGrow(lines, l + 1, n - 1); }
    } else {
      assert !InFencedLine(lines, n - 1, k);
    }
  }

  lemma {:induction false} JoinedIs(lines: seq<string>, n: nat)
    requires n <= |lines|
    ensures Joined(lines, n) == Flatten(lines[..n])
  {
    if n > 0 {
      JoinedIs(lines, n - 1);
      assert lines[..n][..n - 1] == lines[..n - 1];
    }
  }

  lemma {:induction false} LinesJoin(text: string)
    ensures Flatten(RawLines(text)) == text
  {
    if text != [] {
      var n := FirstLine(text);
      LinesJoin(text[n..]);
      FlattenFront(text[..n], RawLines(text[n..]));
    }
  }

  lemma {:induction false} FlattenFront(line: string, rest: seq<string>)
    ensures Flatten([line] + rest) == line + Flatten(rest)
  {
    if rest == [] {
      assert [line] + rest == [line] && [line][..0] == [];
    } else {
      var before := rest[..|rest| - 1];
      assert ([line] + rest)[..|rest|] == [line] + before;
      FlattenFront(line, before);
    }
  }

  /**
   Masking keeps the number of code points and every line break; a character that changes becomes a space, and stands in a
   line of a fenced block or in a span between two backtick runs of equal length. No such span is missed.
   */
  lemma MaskingMeans(body: string, k: nat)
    requires k < |body|
    ensures var lines := RawLines(body); var prose := MaskFences(lines, |lines|); var spans := Spans(prose, 0);
            var text := MaskSpans(prose, spans);
            && |text| == |body| && SpansOk(prose, spans, 0) && SpansComplete(prose, spans, 0)
            && (IsBreak(text[k]) <==> IsBreak(body[k])) && (IsBreak(body[k]) ==> text[k] == body[k])
            && (text[k] != body[k] ==> text[k] == ' ' && (InFence(lines, |lines|, k) || InSpan(spans, k)))
            && (!IsBreak(body[k]) && (InFence(lines, |lines|, k) || InSpan(spans, k)) ==> text[k] == ' ')
  {
    var lines := RawLines(body);
    LinesJoin(body);
    JoinedIs(lines, |lines|);
    assert lines[..|lines|] == lines;
    SizesAgree(lines, |lines|);
    FencesMask(lines, |lines|, k);
    SpansAreOk(MaskFences(lines, |lines|), 0);
    SpansAreComplete(MaskFences(lines, |lines|), 0);
  }
}
