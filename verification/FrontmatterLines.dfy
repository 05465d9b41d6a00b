/** Lines of a note: cutting a text into lines, putting lines together, and reading the result again. */
module FrontmatterLines {
  import opened Options
  import opened TextLines
  import opened FrontmatterSource

  lemma {:induction false} FlattenConcat(a: seq<string>, b: seq<string>)
    ensures Flatten(a + b) == Flatten(a) + Flatten(b)
  {
    if b == [] {
      assert a + b == a;
    } else {
      assert (a + b)[..|a + b| - 1] == a + b[..|b| - 1];
      FlattenConcat(a, b[..|b| - 1]);
    }
  }

  lemma FlattenOne(line: string)
    ensures Flatten([line]) == line
  {
    assert [line][..0] == [];
  }

  lemma FlattenCons(line: string, rest: seq<string>)
    ensures Flatten([line] + rest) == line + Flatten(rest)
  {
    FlattenConcat([line], rest);
    FlattenOne(line);
  }

  lemma {:induction false} RawFlatten(text: string)
    ensures Flatten(RawLines(text)) == text
  {
    if text != [] {
      RawFlatten(text[FirstLine(text)..]);
      FlattenCons(text[..FirstLine(text)], RawLines(text[FirstLine(text)..]));
    }
  }

  /** A line that ends in its only line feed. */
  predicate Whole(raw: string) {
    raw != [] && raw[|raw| - 1] == '\n' && forall i :: 0 <= i < |raw| - 1 ==> raw[i] != '\n'
  }

  predicate AllWhole(lines: seq<string>) { forall i :: 0 <= i < |lines| ==> Whole(lines[i]) }

  lemma {:induction false} FirstOfWhole(raw: string, rest: string)
    requires Whole(raw)
    ensures FirstLine(raw + rest) == |raw|
  {
    assert (raw + rest)[0] == raw[0] && (raw + rest)[1..] == raw[1..] + rest;
    if |raw| > 1 { FirstOfWhole(raw[1..], rest); }
  }

  lemma {:induction false} FirstLineShape(text: string)
    requires text != []
    ensures FirstLine(text) < |text| ==> Whole(text[..FirstLine(text)])
    ensures forall i :: 0 <= i < FirstLine(text) - 1 ==> text[i] != '\n'
  {
    if text[0] != '\n' && |text| > 1 {
      FirstLineShape(text[1..]);
      assert text[..FirstLine(text)] == [text[0]] + text[1..][..FirstLine(text[1..])];
    }
  }

  /** Cutting a text that starts with whole lines gives those lines, then the cut of what follows. */
  lemma {:induction false} CutWhole(lines: seq<string>, rest: string)
    requires AllWhole(lines)
    ensures RawLines(Flatten(lines) + rest) == lines + RawLines(rest)
  {
    if lines == [] {
      assert Flatten(lines) + rest == rest && lines + RawLines(rest) == RawLines(rest);
    } else {
      var line, tail := lines[0], lines[1..];
      assert lines == [line] + tail;
      FlattenCons(line, tail);
      CutWhole(tail, rest);
      var text := line + (Flatten(tail) + rest);
      assert Flatten(lines) + rest == text;
      FirstOfWhole(line, Flatten(tail) + rest);
      assert text[..|line|] == line && text[|line|..] == Flatten(tail) + rest;
      assert lines + RawLines(rest) == [line] + (tail + RawLines(rest));
    }
  }

  /** Every line but the last is whole. */
  lemma {:induction false} CutIsWhole(text: string, i: nat)
    requires i + 1 < |RawLines(text)|
    ensures Whole(RawLines(text)[i])
  {
    FirstLineShape(text);
    if i > 0 { CutIsWhole(text[FirstLine(text)..], i - 1); }
  }

  /** What follows the first lines is cut as it was. */
  lemma {:induction false} CutSuffix(text: string, k: nat)
    requires k <= |RawLines(text)|
    ensures RawLines(Flatten(RawLines(text)[k..])) == RawLines(text)[k..]
  {
    if k == 0 {
      RawFlatten(text);
      assert RawLines(text)[0..] == RawLines(text);
    } else {
      var rest := text[FirstLine(text)..];
      assert RawLines(text)[k..] == RawLines(rest)[k - 1..];
      CutSuffix(rest, k - 1);
    }
  }

  predicate IsDelimiter(raw: string) { Content(raw) == "---" }

  predicate NoDelimiter(lines: seq<string>) { forall i :: 0 <= i < |lines| ==> !IsDelimiter(lines[i]) }

  lemma {:induction false} ClosingIs(lines: seq<string>)
    ensures ClosingLine(lines).Some? ==>
              var i := ClosingLine(lines).value; i < |lines| && IsDelimiter(lines[i]) && NoDelimiter(lines[..i])
  {
    if lines != [] && Content(lines[0]) != "---" {
      ClosingIs(lines[1..]);
      if ClosingLine(lines).Some? {
        var i := ClosingLine(lines[1..]).value;
        assert lines[..i + 1] == [lines[0]] + lines[1..][..i];
      }
    }
  }

  lemma {:induction false} ClosingAfter(lines: seq<string>, closing: string, rest: seq<string>)
    requires NoDelimiter(lines) && IsDelimiter(closing)
    ensures ClosingLine(lines + ([closing] + rest)) == Some(|lines|)
  {
    if lines == [] {
      assert lines + ([closing] + rest) == [closing] + rest;
    } else {
      assert (lines + ([closing] + rest))[1..] == lines[1..] + ([closing] + rest);
      assert !IsDelimiter(lines[0]);
      ClosingAfter(lines[1..], closing, rest);
    }
  }

  /** The parts of a note whose block has been read. */
  predicate Framed(src: Source) {
    && (src.opening == "---\n" || src.opening == "---\r\n")
    && AllWhole(src.lines) && NoDelimiter(src.lines) && IsDelimiter(src.closing)
    && RawLines(src.closing + src.body) != [] && RawLines(src.closing + src.body)[0] == src.closing
  }

  lemma FlattenRest(rest: seq<string>, i: nat)
    requires i < |rest|
    ensures Flatten(rest) == Flatten(rest[..i]) + (rest[i] + Flatten(rest[i + 1..]))
    ensures Flatten(rest[i..]) == rest[i] + Flatten(rest[i + 1..])
  {
    assert rest == rest[..i] + rest[i..] && rest[i..] == [rest[i]] + rest[i + 1..];
    FlattenConcat(rest[..i], rest[i..]);
    FlattenCons(rest[i], rest[i + 1..]);
  }

  lemma OpeningIs(content: string)
    requires Opening(content).Some?
    ensures var opening := Opening(content).value;
            (opening == "---\n" || opening == "---\r\n") && content == opening + content[|opening|..]
  {
  }

  /** Up to the first delimiter, a text is whole lines; that delimiter and what follows are cut as they were. */
  lemma BlockParts(text: string)
    requires ClosingLine(RawLines(text)).Some?
    ensures var rest, c := RawLines(text), ClosingLine(RawLines(text)).value;
            && c < |rest| && AllWhole(rest[..c]) && NoDelimiter(rest[..c]) && IsDelimiter(rest[c])
            && text == Flatten(rest[..c]) + (rest[c] + Flatten(rest[c + 1..]))
            && RawLines(rest[c] + Flatten(rest[c + 1..])) == rest[c..]
  {
    var rest, c := RawLines(text), ClosingLine(RawLines(text)).value;
    ClosingIs(rest);
    RawFlatten(text);
    FlattenRest(rest, c);
    CutSuffix(text, c);
    forall i | 0 <= i < c ensures Whole(rest[..c][i]) { CutIsWhole(text, i); }
  }

  lemma BlockFields(p: Platform, opening: string, lines: seq<string>, closing: string, body: string)
    requires opening == "---\n" || opening == "---\r\n"
    requires ParseBlock(p, opening, lines, closing, body).Ok?
    ensures var src := ParseBlock(p, opening, lines, closing, body).value;
            src.opening == opening && src.lines == lines && src.closing == closing && src.body == body
  {
  }

  /** A note is its opening, the lines of its block, the closing delimiter and its body; the closing is the first delimiter. */
  lemma ParsedIsFramed(p: Platform, content: string)
    requires Parse(p, content).Ok?
    ensures var src := Parse(p, content).value;
            && Framed(src) && content == src.opening + Flatten(src.lines) + src.closing + src.body
            && Parse(p, content) == ParseBlock(p, src.opening, src.lines, src.closing, src.body)
  {
    OpeningIs(content);
    var opening := Opening(content).value;
    var text := content[|opening|..];
    var rest, c := RawLines(text), ClosingLine(RawLines(text)).value;
    BlockParts(text);
    BlockFields(p, opening, rest[..c], rest[c], Flatten(rest[c + 1..]));
    assert rest[c..][0] == rest[c];
    Regroup(opening, Flatten(rest[..c]), rest[c], Flatten(rest[c + 1..]));
  }

  lemma Regroup(a: string, b: string, c: string, d: string)
    ensures a + (b + (c + d)) == a + b + c + d
  {
  }

  lemma OpeningStays(opening: string, rest: string)
    requires opening == "---\n" || opening == "---\r\n"
    ensures Opening(opening + rest) == Some(opening) && (opening + rest)[|opening|..] == rest
  {
    if opening == "---\n" { assert (opening + rest)[..4] == opening; }
    else { assert (opening + rest)[..5] == opening; assert (opening + rest)[3] == '\r'; }
  }

  lemma LinesAgain(lines: seq<string>, closing: string, body: string)
    requires AllWhole(lines) && NoDelimiter(lines) && IsDelimiter(closing)
    requires RawLines(closing + body) != [] && RawLines(closing + body)[0] == closing
    ensures var rest := RawLines(Flatten(lines) + (closing + body));
            && ClosingLine(rest) == Some(|lines|) && |lines| < |rest|
            && rest[..|lines|] == lines && rest[|lines|] == closing && Flatten(rest[|lines| + 1..]) == body
  {
    CutWhole(lines, closing + body);
    var after := RawLines(closing + body)[1..];
    assert RawLines(closing + body) == [closing] + after;
    ClosingAfter(lines, closing, after);
    assert (lines + ([closing] + after))[|lines| + 1..] == after;
    RawFlatten(closing + body);
    FlattenCons(closing, after);
    assert (closing + Flatten(after))[|closing|..] == Flatten(after) && (closing + body)[|closing|..] == body;
  }

  /** Other whole lines in the same frame are read back as exactly those lines, with the same body. */
  lemma Reparsed(p: Platform, src: Source, lines: seq<string>)
    requires Framed(src) && AllWhole(lines) && NoDelimiter(lines)
    ensures Parse(p, src.opening + Flatten(lines) + src.closing + src.body) == ParseBlock(p, src.opening, lines, src.closing, src.body)
  {
    var text := Flatten(lines) + (src.closing + src.body);
    Regroup(src.opening, Flatten(lines), src.closing, src.body);
    OpeningStays(src.opening, text);
    LinesAgain(lines, src.closing, src.body);
    ParseAt(p, src.opening + text, src.opening, RawLines(text), |lines|);
  }

  lemma ParseAt(p: Platform, content: string, opening: string, rest: seq<string>, c: nat)
    requires opening == "---\n" || opening == "---\r\n"
    requires Opening(content) == Some(opening) && rest == RawLines(content[|opening|..]) && ClosingLine(rest) == Some(c) && c < |rest|
    ensures Parse(p, content) == ParseBlock(p, opening, rest[..c], rest[c], Flatten(rest[c + 1..]))
  {
  }
}
