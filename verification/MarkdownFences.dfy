/** Which lines open and close a fenced block, told by their characters. */
module MarkdownFences {
  import opened Options
  import opened MarkdownMask

  /** The character, repeated. */
  predicate Only(text: string, c: char) { forall i :: 0 <= i < |text| ==> text[i] == c }

  /** The line is at most three spaces, this many markers, and a rest that does not go on with the marker. */
  predicate Marked(line: string, marker: char, indent: nat, length: nat) {
    && indent <= 3 && (marker == '`' || marker == '~') && 0 < length && indent + length <= |line|
    && Only(line[..indent], ' ') && Only(line[indent..indent + length], marker)
    && (indent + length < |line| ==> line[indent + length] != marker)
  }

  /** A backtick stands in the line from `from` on, before any line break. */
  predicate TickFrom(line: string, from: nat) {
    exists k :: from <= k < |line| && line[k] == '`' && forall j :: from <= j < k ==> line[j] != '\n' && line[j] != '\r'
  }

  predicate OpensAt(line: string, fence: Fence, indent: nat) {
    && Marked(line, fence.marker, indent, fence.length) && fence.length >= 3
    && (fence.marker == '`' ==> !TickFrom(line, indent + fence.length))
  }

  /** From `from` on there are blanks, and then nothing or a line break. */
  predicate BlankFrom(line: string, from: nat) {
    exists k :: from <= k <= |line| && BlankTo(line, from, k)
  }

  /** From `from` up to `k` there are blanks, and at `k` the line ends. */
  predicate BlankTo(line: string, from: nat, k: nat)
    requires k <= |line|
  {
    && (forall j :: from <= j < k ==> line[j] == ' ' || line[j] == '\t')
    && (line[k..] == "" || line[k..] == "\n" || line[k..] == "\r" || line[k..] == "\r\n")
  }

  predicate ClosesAt(line: string, fence: Fence, indent: nat, length: nat) {
    Marked(line, fence.marker, indent, length) && length >= fence.length && BlankFrom(line, indent + length)
  }

  /** A run of markers found stands where the line has it. */
  lemma MarkerRunIs(line: string)
    requires MarkerRun(line).0.Some?
    ensures var fence := MarkerRun(line).0.value; exists indent :: 0 <= indent <= 3 && Marked(line, fence.marker, indent, fence.length)
  {
    var indent, fence := RunLength(line, ' '), MarkerRun(line).0.value;
    var from := line[indent..];
    assert line[indent..indent + fence.length] == from[..fence.length];
    assert Marked(line, fence.marker, indent, fence.length);
  }

  /** A line so marked has that run of markers, and nothing else is taken for one. */
  lemma MarkedRun(line: string, marker: char, indent: nat, length: nat)
    requires Marked(line, marker, indent, length)
    ensures MarkerRun(line) == (Some(Fence(marker, length)), line[indent + length..])
  {
    var run, rest := line[indent..indent + length], line[indent..];
    assert line[indent] == run[0] == marker;
    RunIs(line, ' ', indent);
    forall i | 0 <= i < length ensures rest[i] == marker { assert rest[i] == run[i]; }
    assert length < |rest| ==> rest[length] == line[indent + length];
    RunIs(rest, marker, length);
    assert rest[length..] == line[indent + length..];
  }

  lemma RunIs(text: string, c: char, n: nat)
    requires n <= |text| && Only(text[..n], c) && (n < |text| ==> text[n] != c)
    ensures RunLength(text, c) == n
  {
    forall i | 0 <= i < n ensures text[i] == c { assert text[..n][i] == text[i]; }
  }

  lemma {:induction false} UntilBreakHas(line: string, from: nat)
    requires from <= |line|
    ensures '`' in UntilBreak(line[from..]) <==> TickFrom(line, from)
    decreases |line| - from
  {
    if from < |line| && !IsBreak(line[from]) {
      UntilBreakHas(line, from + 1);
      assert line[from..][1..] == line[from + 1..];
      if TickFrom(line, from + 1) {
        var k :| from + 1 <= k < |line| && line[k] == '`' && forall j :: from + 1 <= j < k ==> line[j] != '\n' && line[j] != '\r';
        assert forall j :: from <= j < k ==> line[j] != '\n' && line[j] != '\r';
      }
    }
  }

  lemma {:induction false} SkipBlanksIs(line: string, from: nat)
    requires from <= |line|
    ensures SkipBlanks(line[from..]) in {"", "\n", "\r", "\r\n"} <==> BlankFrom(line, from)
    decreases |line| - from
  {
    if from < |line| && line[from] in {' ', '\t'} {
      SkipBlanksIs(line, from + 1);
      assert line[from..][1..] == line[from + 1..];
      BlankStep(line, from);
    } else {
      assert SkipBlanks(line[from..]) == line[from..];
      if SkipBlanks(line[from..]) in {"", "\n", "\r", "\r\n"} { assert BlankTo(line, from, from); }
      if k :| from <= k <= |line| && BlankTo(line, from, k) { assert k == from; }
    }
  }

  lemma BlankStep(line: string, from: nat)
    requires from < |line| && line[from] in {' ', '\t'}
    ensures BlankFrom(line, from) <==> BlankFrom(line, from + 1)
  {
    var next := from + 1;
    if k :| from <= k <= |line| && BlankTo(line, from, k) {
      assert line[k..] == "" || line[k..][0] == line[k];
      assert BlankTo(line, next, k);
    }
    if k :| next <= k <= |line| && BlankTo(line, next, k) { assert BlankTo(line, from, k); }
  }

  lemma MarkedOpens(line: string, marker: char, indent: nat, length: nat)
    requires Marked(line, marker, indent, length)
    ensures Opens(line) == if OpensAt(line, Fence(marker, length), indent) then Some(Fence(marker, length)) else None
  {
    MarkedRun(line, marker, indent, length);
    UntilBreakHas(line, indent + length);
  }

  lemma MarkedCloses(line: string, marker: char, indent: nat, length: nat, fence: Fence)
    requires Marked(line, marker, indent, length)
    ensures Closes(line, fence) <==> marker == fence.marker && ClosesAt(line, fence, indent, length)
  {
    MarkedRun(line, marker, indent, length);
    SkipBlanksIs(line, indent + length);
  }

  /** Nothing else opens or closes a block. */
  lemma UnmarkedIsPlain(line: string, fence: Fence)
    requires MarkerRun(line).0.None?
    ensures Opens(line).None? && !Closes(line, fence)
  {
  }

  /** A line opens a block exactly with at most three spaces and three or more markers, and no further backtick behind backticks. */
  lemma OpensIff(line: string, fence: Fence)
    ensures Opens(line) == Some(fence) <==> exists indent :: 0 <= indent <= 3 && OpensAt(line, fence, indent)
  {
    if indent :| 0 <= indent <= 3 && OpensAt(line, fence, indent) { MarkedOpens(line, fence.marker, indent, fence.length); }
    if Opens(line) == Some(fence) { var indent := OpenedIndent(line, fence); }
  }

  lemma OpenedIndent(line: string, fence: Fence) returns (indent: nat)
    requires Opens(line) == Some(fence)
    ensures indent <= 3 && OpensAt(line, fence, indent)
  {
    if MarkerRun(line).0.None? { UnmarkedIsPlain(line, fence); }
    MarkerRunIs(line);
    var run := MarkerRun(line).0.value;
    indent :| 0 <= indent <= 3 && Marked(line, run.marker, indent, run.length);
    MarkedOpens(line, run.marker, indent, run.length);
  }

  /** A line closes a block exactly with at most three spaces, at least as many of its markers, and nothing else but blanks. */
  lemma ClosesIff(line: string, fence: Fence)
    ensures Closes(line, fence) <==> exists indent, length :: 0 <= indent <= 3 && fence.length <= length <= |line| && ClosesAt(line, fence, indent, length)
  {
    if indent, length :| 0 <= indent <= 3 && fence.length <= length <= |line| && ClosesAt(line, fence, indent, length) {
      MarkedCloses(line, fence.marker, indent, length, fence);
    }
    if Closes(line, fence) { var indent, length := ClosedIndent(line, fence); }
  }

  lemma ClosedIndent(line: string, fence: Fence) returns (indent: nat, length: nat)
    requires Closes(line, fence)
    ensures indent <= 3 && fence.length <= length <= |line| && ClosesAt(line, fence, indent, length)
  {
    if MarkerRun(line).0.None? { UnmarkedIsPlain(line, fence); }
    MarkerRunIs(line);
    var run := MarkerRun(line).0.value;
    indent :| 0 <= indent <= 3 && Marked(line, run.marker, indent, run.length);
    length := run.length;
    MarkedCloses(line, run.marker, indent, length, fence);
  }
}
