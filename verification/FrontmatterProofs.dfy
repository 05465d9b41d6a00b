/** What an accepted frontmatter patch does to the keys, the lines and the body of a note. */
module FrontmatterProofs {
  import opened Options
  import opened TextOrder
  import opened StableSort
  import opened TextSplice
  import opened FrontmatterSource
  import opened FrontmatterLines
  import opened FrontmatterLayout
  import opened FrontmatterPatch

  // -------------------------------------------------------------------------
  // Keys of spliced lines
  // -------------------------------------------------------------------------

  function Minus(keys: seq<string>, deleted: set<string>): seq<string> {
    if keys == [] then []
    else Minus(keys[..|keys| - 1], deleted) + (if keys[|keys| - 1] in deleted then [] else [keys[|keys| - 1]])
  }

  lemma {:induction false} MinusConcat(a: seq<string>, b: seq<string>, deleted: set<string>)
    ensures Minus(a + b, deleted) == Minus(a, deleted) + Minus(b, deleted)
  {
    if b == [] {
      assert a + b == a;
    } else {
      assert (a + b)[..|a + b| - 1] == a + b[..|b| - 1];
      MinusConcat(a, b[..|b| - 1], deleted);
    }
  }

  lemma MinusOne(key: string, deleted: set<string>)
    ensures Minus([key], deleted) == if key in deleted then [] else [key]
  {
    assert [key][..0] == [];
  }

  /** An edit of owned lines: it keeps or drops their key, and stands in for them in the layout. */
  ghost predicate EditOk(p: Platform, lines: seq<string>, e: Edit<string>, deleted: set<string>) {
    && e.start < e.end <= |lines| && LaidOut(p, lines[e.end..], false)
    && KeysOf(p, e.replacement) == Minus(KeysOf(p, lines[e.start..e.end]), deleted) && LaidOut(p, e.replacement, false)
  }

  /** Keys on lines outside the edits are not deleted ones. */
  ghost predicate Spares(p: Platform, lines: seq<string>, edits: seq<Edit<string>>, deleted: set<string>) {
    forall k :: 0 <= k < |lines| && Outside(edits, k) ==> Minus(KeyOf(p, lines[k]), deleted) == KeyOf(p, lines[k])
  }

  lemma {:induction false} SparedKeys(p: Platform, lines: seq<string>, deleted: set<string>)
    requires forall k :: 0 <= k < |lines| ==> Minus(KeyOf(p, lines[k]), deleted) == KeyOf(p, lines[k])
    ensures Minus(KeysOf(p, lines), deleted) == KeysOf(p, lines)
  {
    if lines != [] {
      SparedKeys(p, lines[..|lines| - 1], deleted);
      MinusConcat(KeysOf(p, lines[..|lines| - 1]), KeyOf(p, lines[|lines| - 1]), deleted);
    }
  }

  lemma {:induction false} FitsOrder<T>(content: seq<T>, edits: seq<Edit<T>>)
    requires Fits(content, edits)
    ensures forall i, j :: 0 <= i < j < |edits| ==> edits[i].end <= edits[j].start
    ensures forall i :: 0 <= i < |edits| ==> edits[i].start <= edits[i].end <= EndOf(edits) <= |content|
  {
    if edits != [] { FitsOrder(content, edits[..|edits| - 1]); }
  }

  lemma BetweenIsOutside<T>(content: seq<T>, edits: seq<Edit<T>>, n: nat, k: nat)
    requires Fits(content, edits) && n <= |edits| && EndOf(edits[..n]) <= k && (n < |edits| ==> k < edits[n].start)
    ensures Outside(edits, k)
  {
    FitsOrder(content, edits);
    forall i | 0 <= i < |edits| ensures k < edits[i].start || edits[i].end <= k {
      if i < n { assert edits[i].end <= EndOf(edits[..n]) by { if i < n - 1 { assert edits[i].end <= edits[n - 1].start; } } }
      else if i > n { assert edits[n].end <= edits[i].start; }
    }
  }

  lemma GapKeys(p: Platform, lines: seq<string>, edits: seq<Edit<string>>, deleted: set<string>, n: nat, to: nat)
    requires Fits(lines, edits) && Spares(p, lines, edits, deleted) && n <= |edits|
    requires EndOf(edits[..n]) <= to <= |lines| && (n < |edits| ==> to <= edits[n].start)
    ensures Minus(KeysOf(p, lines[EndOf(edits[..n])..to]), deleted) == KeysOf(p, lines[EndOf(edits[..n])..to])
  {
    var from := EndOf(edits[..n]);
    forall k | 0 <= k < to - from
      ensures Minus(KeyOf(p, lines[from..to][k]), deleted) == KeyOf(p, lines[from..to][k])
    {
      BetweenIsOutside(lines, edits, n, from + k);
    }
    SparedKeys(p, lines[from..to], deleted);
  }

  /** A stretch of lines after an edit, or from the start, stands on its own. */
  lemma GapLaidOut(p: Platform, lines: seq<string>, from: nat, to: nat)
    requires from <= to <= |lines| && LaidOut(p, lines[from..], false)
    ensures LaidOut(p, lines[from..to], false)
  {
    assert lines[from..] == lines[from..to] + lines[to..];
    LaidOutConcat(p, lines[from..to], lines[to..], false);
  }

  ghost predicate EditsOk(p: Platform, lines: seq<string>, edits: seq<Edit<string>>, deleted: set<string>) {
    && Fits(lines, edits) && Spares(p, lines, edits, deleted) && LaidOut(p, lines, false)
    && forall i :: 0 <= i < |edits| ==> EditOk(p, lines, edits[i], deleted)
  }

  lemma AfterEdits(p: Platform, lines: seq<string>, edits: seq<Edit<string>>, deleted: set<string>, n: nat)
    requires EditsOk(p, lines, edits, deleted) && n <= |edits|
    ensures Fits(lines, edits[..n]) && EndOf(edits[..n]) <= |lines| && LaidOut(p, lines[EndOf(edits[..n])..], false)
    ensures n > 0 ==> EndOf(edits[..n - 1]) <= edits[n - 1].start
  {
    FitsPrefix(lines, edits, n);
    FitsOrder(lines, edits);
    if n == 0 {
      assert lines[0..] == lines;
    } else {
      assert EditOk(p, lines, edits[n - 1], deleted);
      if n > 1 { assert edits[n - 2].end <= edits[n - 1].start; }
    }
  }

  /** Keys of two stretches put together, with and without the deleted ones. */
  lemma SplitKeys(p: Platform, a: seq<string>, b: seq<string>, deleted: set<string>)
    ensures KeysOf(p, a + b) == KeysOf(p, a) + KeysOf(p, b)
    ensures Minus(KeysOf(p, a + b), deleted) == Minus(KeysOf(p, a), deleted) + Minus(KeysOf(p, b), deleted)
  {
    KeysConcat(p, a, b);
    MinusConcat(KeysOf(p, a), KeysOf(p, b), deleted);
  }

  lemma PieceKeys(p: Platform, gap: seq<string>, own: seq<string>, replacement: seq<string>, deleted: set<string>)
    requires Minus(KeysOf(p, gap), deleted) == KeysOf(p, gap) && LaidOut(p, gap, false)
    requires KeysOf(p, replacement) == Minus(KeysOf(p, own), deleted) && LaidOut(p, replacement, false)
    ensures KeysOf(p, gap + replacement) == Minus(KeysOf(p, gap + own), deleted) && LaidOut(p, gap + replacement, false)
  {
    assert KeysOf(p, gap + replacement) == KeysOf(p, gap) + KeysOf(p, replacement) by { SplitKeys(p, gap, replacement, deleted); }
    assert Minus(KeysOf(p, gap + own), deleted) == Minus(KeysOf(p, gap), deleted) + Minus(KeysOf(p, own), deleted) by {
      SplitKeys(p, gap, own, deleted);
    }
    Together(p, gap, replacement);
  }

  lemma GapFacts(p: Platform, lines: seq<string>, edits: seq<Edit<string>>, deleted: set<string>, n: nat)
    requires EditsOk(p, lines, edits, deleted) && 0 < n <= |edits| && EndOf(edits[..n - 1]) <= edits[n - 1].start <= |lines|
    requires LaidOut(p, lines[EndOf(edits[..n - 1])..], false)
    ensures var gap := lines[EndOf(edits[..n - 1])..edits[n - 1].start];
            Minus(KeysOf(p, gap), deleted) == KeysOf(p, gap) && LaidOut(p, gap, false)
  {
    GapKeys(p, lines, edits, deleted, n - 1, edits[n - 1].start);
    GapLaidOut(p, lines, EndOf(edits[..n - 1]), edits[n - 1].start);
  }

  /** One more edit: the keys of the gap before it, and of what it leaves of its own lines. */
  lemma NextEditKeys(p: Platform, lines: seq<string>, edits: seq<Edit<string>>, deleted: set<string>, n: nat)
    requires EditsOk(p, lines, edits, deleted) && 0 < n <= |edits| && EndOf(edits[..n - 1]) <= edits[n - 1].start
    requires LaidOut(p, lines[EndOf(edits[..n - 1])..], false)
    ensures var from, e := EndOf(edits[..n - 1]), edits[n - 1];
            && e.end <= |lines|
            && KeysOf(p, lines[from..e.start] + e.replacement) == Minus(KeysOf(p, lines[from..e.start] + lines[e.start..e.end]), deleted)
            && LaidOut(p, lines[from..e.start] + e.replacement, false)
  {
    var from, e := EndOf(edits[..n - 1]), edits[n - 1];
    assert EditOk(p, lines, e, deleted);
    GapFacts(p, lines, edits, deleted, n);
    PieceKeys(p, lines[from..e.start], lines[e.start..e.end], e.replacement, deleted);
  }

  lemma BuiltSnoc<T>(content: seq<T>, edits: seq<Edit<T>>, n: nat)
    requires 0 < n <= |edits| && Fits(content, edits[..n])
    ensures Fits(content, edits[..n - 1]) && EndOf(edits[..n - 1]) <= edits[n - 1].start <= edits[n - 1].end <= |content|
    ensures Built(content, edits[..n])
            == Built(content, edits[..n - 1]) + (content[EndOf(edits[..n - 1])..edits[n - 1].start] + edits[n - 1].replacement)
  {
    var before, last := edits[..n - 1], edits[n - 1];
    assert edits[..n][..n - 1] == before;
    Regroup3(Built(content, before), content[EndOf(before)..last.start], last.replacement);
  }

  lemma Regroup3<T>(a: seq<T>, b: seq<T>, c: seq<T>)
    ensures a + b + c == a + (b + c)
  {
  }

  lemma SliceInThree<T>(s: seq<T>, i: nat, j: nat, k: nat)
    requires i <= j <= k <= |s|
    ensures s[..k] == s[..i] + (s[i..j] + s[j..k])
  {
  }

  lemma {:induction false} BuiltKeys(p: Platform, lines: seq<string>, edits: seq<Edit<string>>, deleted: set<string>, n: nat)
    requires EditsOk(p, lines, edits, deleted) && n <= |edits|
    ensures Fits(lines, edits[..n]) && EndOf(edits[..n]) <= |lines|
    ensures KeysOf(p, Built(lines, edits[..n])) == Minus(KeysOf(p, lines[..EndOf(edits[..n])]), deleted)
    ensures LaidOut(p, Built(lines, edits[..n]), false)
  {
    AfterEdits(p, lines, edits, deleted, n);
    if n > 0 {
      BuiltKeys(p, lines, edits, deleted, n - 1);
      AfterEdits(p, lines, edits, deleted, n - 1);
      NextEditKeys(p, lines, edits, deleted, n);
      BuiltSnoc(lines, edits, n);
      SliceInThree(lines, EndOf(edits[..n - 1]), edits[n - 1].start, edits[n - 1].end);
      var from, e := EndOf(edits[..n - 1]), edits[n - 1];
      ReplacedKeys(p, Built(lines, edits[..n - 1]), lines[..from], lines[from..e.start] + e.replacement,
                   lines[from..e.start] + lines[e.start..e.end], deleted);
    }
  }

  /** Stretches that replace others keep the keys but the deleted ones, and so do they together. */
  lemma ReplacedKeys(p: Platform, new1: seq<string>, old1: seq<string>, new2: seq<string>, old2: seq<string>, deleted: set<string>)
    requires KeysOf(p, new1) == Minus(KeysOf(p, old1), deleted) && KeysOf(p, new2) == Minus(KeysOf(p, old2), deleted)
    requires LaidOut(p, new1, false) && LaidOut(p, new2, false)
    ensures KeysOf(p, new1 + new2) == Minus(KeysOf(p, old1 + old2), deleted) && LaidOut(p, new1 + new2, false)
  {
    SplitKeys(p, new1, new2, deleted);
    SplitKeys(p, old1, old2, deleted);
    Together(p, new1, new2);
  }

  lemma TailKeys(p: Platform, lines: seq<string>, edits: seq<Edit<string>>, deleted: set<string>)
    requires EditsOk(p, lines, edits, deleted)
    ensures EndOf(edits) <= |lines| && LaidOut(p, lines[EndOf(edits)..], false)
    ensures KeysOf(p, lines[EndOf(edits)..]) == Minus(KeysOf(p, lines[EndOf(edits)..]), deleted)
  {
    assert edits[..|edits|] == edits;
    AfterEdits(p, lines, edits, deleted, |edits|);
    GapKeys(p, lines, edits, deleted, |edits|, |lines|);
    assert lines[EndOf(edits)..|lines|] == lines[EndOf(edits)..];
  }

  /** The keys of the edited lines are the old ones without the deleted ones, and the layout stays supported. */
  lemma EditedKeys(p: Platform, lines: seq<string>, edits: seq<Edit<string>>, deleted: set<string>)
    requires EditsOk(p, lines, edits, deleted)
    ensures KeysOf(p, Spliced(lines, edits)) == Minus(KeysOf(p, lines), deleted) && LaidOut(p, Spliced(lines, edits), false)
  {
    AllBuiltKeys(p, lines, edits, deleted);
    TailKeys(p, lines, edits, deleted);
    Halves(lines, EndOf(edits));
    CombinedKeys(p, Built(lines, edits), lines[..EndOf(edits)], lines[EndOf(edits)..], Spliced(lines, edits), lines, deleted);
  }

  lemma Halves<T>(s: seq<T>, k: nat)
    requires k <= |s|
    ensures s == s[..k] + s[k..]
  {
  }

  lemma CombinedKeys(p: Platform, built: seq<string>, head: seq<string>, tail: seq<string>, spliced: seq<string>, lines: seq<string>, deleted: set<string>)
    requires spliced == built + tail && lines == head + tail
    requires KeysOf(p, built) == Minus(KeysOf(p, head), deleted) && LaidOut(p, built, false)
    requires KeysOf(p, tail) == Minus(KeysOf(p, tail), deleted) && LaidOut(p, tail, false)
    ensures KeysOf(p, spliced) == Minus(KeysOf(p, lines), deleted) && LaidOut(p, spliced, false)
  {
    ReplacedKeys(p, built, head, tail, tail, deleted);
  }

  lemma AllBuiltKeys(p: Platform, lines: seq<string>, edits: seq<Edit<string>>, deleted: set<string>)
    requires EditsOk(p, lines, edits, deleted)
    ensures EndOf(edits) <= |lines| && LaidOut(p, Built(lines, edits), false)
    ensures KeysOf(p, Built(lines, edits)) == Minus(KeysOf(p, lines[..EndOf(edits)]), deleted)
  {
    assert edits[..|edits|] == edits;
    BuiltKeys(p, lines, edits, deleted, |edits|);
  }

  /** Key lines added behind the last edit, before nothing but separators, come last among the keys. */
  lemma AddedKeys(p: Platform, lines: seq<string>, edits: seq<Edit<string>>, deleted: set<string>, at: nat, added: seq<string>)
    requires EditsOk(p, lines, edits, deleted) && EndOf(edits) <= at <= |lines|
    requires AllSeparators(p, lines[at..]) && LaidOut(p, added, false)
    ensures Fits(lines, edits + [Edit(at, at, added)])
    ensures var after := Spliced(lines, edits + [Edit(at, at, added)]);
            KeysOf(p, after) == Minus(KeysOf(p, lines), deleted) + KeysOf(p, added) && LaidOut(p, after, false)
  {
    EditedKeys(p, lines, edits, deleted);
    SplicedInTwo(lines, edits, at, added);
    InsertedKeys(p, Built(lines, edits) + lines[EndOf(edits)..at], added, lines[at..]);
  }

  lemma SplicedInTwo(lines: seq<string>, edits: seq<Edit<string>>, at: nat, added: seq<string>)
    requires Fits(lines, edits) && EndOf(edits) <= at <= |lines|
    ensures Fits(lines, edits + [Edit(at, at, added)])
    ensures Spliced(lines, edits) == Built(lines, edits) + lines[EndOf(edits)..at] + lines[at..]
    ensures Spliced(lines, edits + [Edit(at, at, added)]) == Built(lines, edits) + lines[EndOf(edits)..at] + added + lines[at..]
  {
    assert (edits + [Edit(at, at, added)])[..|edits|] == edits;
    assert lines[EndOf(edits)..] == lines[EndOf(edits)..at] + lines[at..];
  }

  lemma InsertedKeys(p: Platform, head: seq<string>, added: seq<string>, tail: seq<string>)
    requires LaidOut(p, head + tail, false) && LaidOut(p, added, false) && AllSeparators(p, tail)
    ensures KeysOf(p, head + added + tail) == KeysOf(p, head + tail) + KeysOf(p, added) && LaidOut(p, head + added + tail, false)
  {
    SeparatorsLaidOut(p, tail, false);
    assert LaidOut(p, head, false) by { LaidOutConcat(p, head, tail, false); }
    assert LaidOut(p, head + added, false) by { Together(p, head, added); }
    assert LaidOut(p, head + added + tail, false) by { Together(p, head + added, tail); }
    assert KeysOf(p, head + tail) == KeysOf(p, head) by { KeysConcat(p, head, tail); }
    assert KeysOf(p, head + added) == KeysOf(p, head) + KeysOf(p, added) by { KeysConcat(p, head, added); }
    assert KeysOf(p, head + added + tail) == KeysOf(p, head + added) by { KeysConcat(p, head + added, tail); }
  }

  // -------------------------------------------------------------------------
  // The line written for a key
  // -------------------------------------------------------------------------

  lemma {:induction false} KeyThenColon(p: Platform, key: string, rest: string)
    requires Conventional(p) && KeyLength(p, key) == |key|
    ensures KeyLength(p, key + ([':'] + rest)) == |key|
  {
    if key == [] {
      assert (key + ([':'] + rest))[0] == ':';
    } else {
      assert (key + ([':'] + rest))[0] == key[0] && (key + ([':'] + rest))[1..] == key[1..] + ([':'] + rest);
      KeyThenColon(p, key[1..], rest);
    }
  }

  lemma {:induction false} KeyCharacters(p: Platform, key: string)
    requires KeyLength(p, key) == |key|
    ensures forall i :: 0 <= i < |key| ==> p.more(key[i])
  {
    if key != [] { KeyCharacters(p, key[1..]); }
  }

  lemma ContentOf(text: string, eol: string)
    requires eol == "\n" || eol == "\r\n"
    requires text != [] && '\n' !in text && '\r' !in text
    ensures Content(text + eol) == text && Whole(text + eol)
  {
    if eol == "\n" {
      assert (text + eol)[..|text|] == text;
      assert text[|text| - 1] in text;
    } else {
      assert (text + eol)[..|text| + 1] == text + "\r" && (text + "\r")[..|text|] == text;
    }
  }

  /** A rendered line is read back as its key, unless the rendered value has a line separator of another kind. */
  lemma JsonLineKind(p: Platform, key: string, json: string, eol: string)
    requires Conventional(p) && BareKey(p, key) && (eol == "\n" || eol == "\r\n") && '\n' !in json && '\r' !in json
    ensures Whole(JsonLine(key, json, eol)) && !IsDelimiter(JsonLine(key, json, eol))
    ensures KindOf(p, JsonLine(key, json, eol)) == if OneLine(p, json) then Key(key) else Unsupported
  {
    var text := key + ": " + json;
    KeyCharacters(p, key);
    assert text == key + ([':'] + ([' '] + json));
    assert JsonLine(key, json, eol) == text + eol;
    ContentOf(text, eol);
    KeyThenColon(p, key, [' '] + json);
    assert text[0] == key[0] && p.first(text[0]) && p.more(text[0]);
    assert FirstVisible(p, text) == Some(text[0]);
    assert text[|key|] == ':' && text[|key| + 1..] == [' '] + json && text[..|key|] == key;
    SpaceIsNoTerminator(p, json);
  }

  lemma SpaceIsNoTerminator(p: Platform, json: string)
    requires Conventional(p)
    ensures OneLine(p, [' '] + json) <==> OneLine(p, json)
  {
    if OneLine(p, [' '] + json) {
      forall i | 0 <= i < |json| ensures !p.terminator(json[i]) { assert ([' '] + json)[i + 1] == json[i]; }
    }
  }

  lemma {:induction false} PrefixIsBare(p: Platform, text: string)
    ensures KeyLength(p, text[..KeyLength(p, text)]) == KeyLength(p, text)
  {
    if text != [] && p.more(text[0]) {
      assert text[..KeyLength(p, text)][1..] == text[1..][..KeyLength(p, text[1..])];
      PrefixIsBare(p, text[1..]);
    }
  }

  lemma KeyLineIsBare(p: Platform, raw: string)
    requires KindOf(p, raw).Key?
    ensures BareKey(p, KindOf(p, raw).key)
  {
    PrefixIsBare(p, Content(raw));
  }

  // -------------------------------------------------------------------------
  // What the operations plan
  // -------------------------------------------------------------------------

  function Hit(p: Platform, src: Source, op: Operation): Option<Entry> { EntryOf(p, src.entries, p.fold(op.key)) }

  function EditFor(p: Platform, src: Source, op: Operation): Edit<string>
    requires Hit(p, src, op).Some?
  {
    var e := Hit(p, src, op).value;
    Edit(e.first, e.last, if op.Delete? then [] else [JsonLine(e.key, p.json(op.value), src.eol)])
  }

  function EditsOf(p: Platform, src: Source, ops: seq<Operation>): seq<Edit<string>> {
    if ops == [] then []
    else
      var last := ops[|ops| - 1];
      EditsOf(p, src, ops[..|ops| - 1]) + (if Hit(p, src, last).Some? then [EditFor(p, src, last)] else [])
  }

  /** The operations on keys the block does not have, in canonical order. */
  function Additions(p: Platform, src: Source, ops: seq<Operation>): seq<Operation> {
    if ops == [] then []
    else
      var last := ops[|ops| - 1];
      Additions(p, src, ops[..|ops| - 1]) + (if Hit(p, src, last).None? then [last] else [])
  }

  /** The operation was planned: a deleted key exists, and a rendered value has no line break. */
  predicate Planned(p: Platform, src: Source, op: Operation) {
    && (op.Delete? ==> Hit(p, src, op).Some?)
    && (op.Set? ==> '\n' !in p.json(op.value) && '\r' !in p.json(op.value))
  }

  function LineFor(p: Platform, src: Source, op: Operation): seq<string> {
    if op.Set? then [JsonLine(op.key, p.json(op.value), src.eol)] else []
  }

  function AddedLines(p: Platform, src: Source, added: seq<Operation>): seq<string> {
    if added == [] then []
    else AddedLines(p, src, added[..|added| - 1]) + LineFor(p, src, added[|added| - 1])
  }

  lemma PlanOneIs(p: Platform, src: Source, plan: Plan, op: Operation)
    requires PlanOne(p, src, plan, op).Ok?
    ensures Planned(p, src, op)
    ensures PlanOne(p, src, plan, op).value
            == if Hit(p, src, op).Some? then plan.(edits := plan.edits + [EditFor(p, src, op)])
               else plan.(additions := plan.additions + LineFor(p, src, op))
  {
  }

  lemma AddedSnoc(p: Platform, src: Source, added: seq<Operation>, last: Operation)
    ensures AddedLines(p, src, added + [last]) == AddedLines(p, src, added) + LineFor(p, src, last)
  {
    assert (added + [last])[..|added|] == added;
  }

  lemma PlanSnoc(p: Platform, src: Source, ops: seq<Operation>)
    requires ops != [] && PlanAll(p, src, ops).Ok?
    ensures PlanAll(p, src, ops[..|ops| - 1]).Ok?
    ensures PlanAll(p, src, ops) == PlanOne(p, src, PlanAll(p, src, ops[..|ops| - 1]).value, ops[|ops| - 1])
  {
  }

  /** The plan is the edits of the keys found and the lines of the keys not found. */
  lemma {:induction false} PlanIs(p: Platform, src: Source, ops: seq<Operation>)
    requires PlanAll(p, src, ops).Ok?
    ensures PlanAll(p, src, ops).value.edits == EditsOf(p, src, ops)
    ensures PlanAll(p, src, ops).value.additions == AddedLines(p, src, Additions(p, src, ops))
    decreases |ops|
  {
    if ops != [] {
      var before, last := ops[..|ops| - 1], ops[|ops| - 1];
      PlanSnoc(p, src, ops);
      PlanIs(p, src, before);
      PlanOneIs(p, src, PlanAll(p, src, before).value, last);
      AddedSnoc(p, src, Additions(p, src, before), last);
      if Hit(p, src, last).Some? { assert Additions(p, src, ops) == Additions(p, src, before); }
    }
  }

  lemma {:induction false} AllPlanned(p: Platform, src: Source, ops: seq<Operation>, i: nat)
    requires PlanAll(p, src, ops).Ok? && i < |ops|
    ensures Planned(p, src, ops[i])
    decreases |ops|
  {
    var before := ops[..|ops| - 1];
    PlanSnoc(p, src, ops);
    if i < |before| { AllPlanned(p, src, before, i); } else { PlanOneIs(p, src, PlanAll(p, src, before).value, ops[i]); }
  }

  lemma {:induction false} EditFromOp(p: Platform, src: Source, ops: seq<Operation>, k: nat) returns (i: nat)
    requires k < |EditsOf(p, src, ops)|
    ensures i < |ops| && Hit(p, src, ops[i]).Some? && EditsOf(p, src, ops)[k] == EditFor(p, src, ops[i])
  {
    var before := ops[..|ops| - 1];
    if k < |EditsOf(p, src, before)| { i := EditFromOp(p, src, before, k); } else { i := |ops| - 1; }
  }

  lemma {:induction false} OpHasEdit(p: Platform, src: Source, ops: seq<Operation>, i: nat) returns (k: nat)
    requires i < |ops| && Hit(p, src, ops[i]).Some?
    ensures k < |EditsOf(p, src, ops)| && EditsOf(p, src, ops)[k] == EditFor(p, src, ops[i])
  {
    var before := ops[..|ops| - 1];
    if i < |before| { assert before[i] == ops[i]; k := OpHasEdit(p, src, before, i); } else { k := |EditsOf(p, src, before)|; }
  }

  predicate DistinctTargets(p: Platform, ops: seq<Operation>) {
    forall i, j :: 0 <= i < j < |ops| ==> p.fold(ops[i].key) != p.fold(ops[j].key)
  }

  /** What the source and the canonical operations guarantee an edit of an entry. */
  lemma HitEntry(p: Platform, src: Source, op: Operation) returns (i: nat)
    requires SourceOk(p, src) && Hit(p, src, op).Some?
    ensures i < |src.entries| && src.entries[i] == Hit(p, src, op).value && EntryOk(p, src.lines, src.entries[i])
    ensures p.fold(src.entries[i].key) == p.fold(op.key)
  {
    i :| 0 <= i < |src.entries| && src.entries[i] == Hit(p, src, op).value;
  }

  /** Two operations on different keys edit lines that do not touch. */
  lemma EditsApart(p: Platform, src: Source, a: Operation, b: Operation)
    requires SourceSpans(src) && Hit(p, src, a).Some? && Hit(p, src, b).Some? && p.fold(a.key) != p.fold(b.key)
    ensures var e, f := EditFor(p, src, a), EditFor(p, src, b);
            && e.start < e.end && f.start < f.end && e.start != f.start && (e.end <= f.start || f.end <= e.start)
  {
    var i :| 0 <= i < |src.entries| && src.entries[i] == Hit(p, src, a).value;
    var j :| 0 <= j < |src.entries| && src.entries[j] == Hit(p, src, b).value;
    if i < j { assert src.entries[i].last <= src.entries[j].first; } else { assert src.entries[j].last <= src.entries[i].first; }
  }

  lemma {:induction false} EditsOfApart(p: Platform, src: Source, ops: seq<Operation>)
    requires SourceOk(p, src) && DistinctTargets(p, ops)
    ensures var es := EditsOf(p, src, ops); InRange(src.lines, es) && Disjoint(es) && DistinctStarts(es)
  {
    if ops != [] {
      var before, last := ops[..|ops| - 1], ops[|ops| - 1];
      EditsOfApart(p, src, before);
      if Hit(p, src, last).Some? {
        var i := HitEntry(p, src, last);
        forall k | 0 <= k < |EditsOf(p, src, before)|
          ensures var e, f := EditsOf(p, src, before)[k], EditFor(p, src, last);
                  e.start != f.start && (e.end <= f.start || f.end <= e.start)
        {
          var o := EditFromOp(p, src, before, k);
          assert ops[o] == before[o];
          EditsApart(p, src, before[o], last);
        }
        OneMoreApart(src.lines, EditsOf(p, src, before), EditFor(p, src, last));
      } else {
        assert EditsOf(p, src, ops) == EditsOf(p, src, before);
      }
    }
  }

  lemma OneMoreApart(lines: seq<string>, es: seq<Edit<string>>, e: Edit<string>)
    requires InRange(lines, es) && Disjoint(es) && DistinctStarts(es) && e.start <= e.end <= |lines|
    requires forall k :: 0 <= k < |es| ==> es[k].start != e.start && (es[k].end <= e.start || e.end <= es[k].start)
    ensures InRange(lines, es + [e]) && Disjoint(es + [e]) && DistinctStarts(es + [e])
  {
  }

  /** The keys whose entry an operation deletes, as spelled in the note. */
  function DeletedKeys(p: Platform, src: Source, ops: seq<Operation>): set<string> {
    if ops == [] then {}
    else
      var last := ops[|ops| - 1];
      DeletedKeys(p, src, ops[..|ops| - 1]) + (if last.Delete? && Hit(p, src, last).Some? then {Hit(p, src, last).value.key} else {})
  }

  lemma {:induction false} DeletedByOp(p: Platform, src: Source, ops: seq<Operation>, key: string) returns (i: nat)
    requires key in DeletedKeys(p, src, ops)
    ensures i < |ops| && ops[i].Delete? && Hit(p, src, ops[i]).Some? && Hit(p, src, ops[i]).value.key == key
  {
    var before := ops[..|ops| - 1];
    if key in DeletedKeys(p, src, before) { i := DeletedByOp(p, src, before, key); } else { i := |ops| - 1; }
  }

  lemma {:induction false} DeletedIs(p: Platform, src: Source, ops: seq<Operation>, i: nat)
    requires i < |ops| && ops[i].Delete? && Hit(p, src, ops[i]).Some?
    ensures Hit(p, src, ops[i]).value.key in DeletedKeys(p, src, ops)
  {
    if i < |ops| - 1 { assert ops[..|ops| - 1][i] == ops[i]; DeletedIs(p, src, ops[..|ops| - 1], i); }
  }

  lemma SameKeySameEntry(p: Platform, src: Source, i: nat, j: nat)
    requires SourceOk(p, src) && i < |src.entries| && j < |src.entries| && p.fold(src.entries[i].key) == p.fold(src.entries[j].key)
    ensures i == j
  {
    var keys := EntryKeys(src.entries);
    assert keys[i] == src.entries[i].key && keys[j] == src.entries[j].key;
  }

  /** A key is deleted exactly when the operation that targets it deletes. */
  lemma DeletedIff(p: Platform, src: Source, ops: seq<Operation>, i: nat)
    requires SourceOk(p, src) && DistinctTargets(p, ops) && i < |ops| && Hit(p, src, ops[i]).Some?
    ensures Hit(p, src, ops[i]).value.key in DeletedKeys(p, src, ops) <==> ops[i].Delete?
  {
    var key := Hit(p, src, ops[i]).value.key;
    if ops[i].Delete? { DeletedIs(p, src, ops, i); }
    if key in DeletedKeys(p, src, ops) {
      var j := DeletedByOp(p, src, ops, key);
      assert p.fold(ops[j].key) == p.fold(key) == p.fold(ops[i].key);
      assert i == j;
    }
  }

  /** An edit meets what splicing needs when every rendered value is one line. */
  lemma EditForOk(p: Platform, src: Source, ops: seq<Operation>, i: nat)
    requires Conventional(p) && SourceOk(p, src) && DistinctTargets(p, ops) && i < |ops| && Hit(p, src, ops[i]).Some?
    requires Planned(p, src, ops[i]) && (ops[i].Set? ==> OneLine(p, p.json(ops[i].value)))
    ensures EditOk(p, src.lines, EditFor(p, src, ops[i]), DeletedKeys(p, src, ops))
  {
    var n := HitEntry(p, src, ops[i]);
    var key := src.entries[n].key;
    DeletedIff(p, src, ops, i);
    MinusOne(key, DeletedKeys(p, src, ops));
    if ops[i].Set? { WrittenLine(p, src, n, p.json(ops[i].value)); }
  }

  /** The line written in place of an entry has that entry's key, as spelled. */
  lemma WrittenLine(p: Platform, src: Source, n: nat, json: string)
    requires Conventional(p) && SourceOk(p, src) && n < |src.entries| && OneLine(p, json) && '\n' !in json && '\r' !in json
    ensures var line := [JsonLine(src.entries[n].key, json, src.eol)];
            KeysOf(p, line) == [src.entries[n].key] && LaidOut(p, line, false)
  {
    assert EntryOk(p, src.lines, src.entries[n]);
    KeyLineIsBare(p, src.lines[src.entries[n].first]);
    JsonLineKind(p, src.entries[n].key, json, src.eol);
    OneKey(p, JsonLine(src.entries[n].key, json, src.eol));
  }

  /** Lines outside every edit keep their keys. */
  lemma EditsSpare(p: Platform, src: Source, ops: seq<Operation>, edits: seq<Edit<string>>)
    requires SourceOk(p, src) && multiset(edits) == multiset(EditsOf(p, src, ops))
    ensures Spares(p, src.lines, edits, DeletedKeys(p, src, ops))
  {
    var deleted := DeletedKeys(p, src, ops);
    forall k | 0 <= k < |src.lines| && Outside(edits, k)
      ensures Minus(KeyOf(p, src.lines[k]), deleted) == KeyOf(p, src.lines[k])
    {
      if KindOf(p, src.lines[k]).Key? {
        var key := KindOf(p, src.lines[k]).key;
        MinusOne(key, deleted);
        if key in deleted { DeletedIsEdited(p, src, ops, edits, k, key); }
      }
    }
  }

  lemma DeletedIsEdited(p: Platform, src: Source, ops: seq<Operation>, edits: seq<Edit<string>>, k: nat, key: string)
    requires SourceOk(p, src) && multiset(edits) == multiset(EditsOf(p, src, ops))
    requires k < |src.lines| && KindOf(p, src.lines[k]) == Key(key) && key in DeletedKeys(p, src, ops)
    ensures !Outside(edits, k)
  {
    var i := DeletedByOp(p, src, ops, key);
    var n := HitEntry(p, src, ops[i]);
    assert EntryIfKey(p, src.lines, src.entries, k);
    var m :| 0 <= m < |src.entries| && src.entries[m].first == k;
    assert EntryOk(p, src.lines, src.entries[m]);
    SameKeySameEntry(p, src, n, m);
    var j := OpHasEdit(p, src, ops, i);
    assert EditsOf(p, src, ops)[j] in multiset(edits);
    var e :| 0 <= e < |edits| && edits[e] == EditsOf(p, src, ops)[j];
    assert edits[e].start <= k < edits[e].end;
  }

  // -------------------------------------------------------------------------
  // Canonical operations
  // -------------------------------------------------------------------------

  function FoldOrder(p: Platform): (Operation, Operation) -> bool { (a: Operation, b: Operation) => Less(p.fold(a.key), p.fold(b.key)) }

  predicate OperationOk(p: Platform, op: Operation) { BareKey(p, op.key) && (op.Set? ==> p.canonical(op.value)) }

  predicate AllOperationsOk(p: Platform, ops: seq<Operation>) { forall i :: 0 <= i < |ops| ==> OperationOk(p, ops[i]) }

  /** A list passes exactly when every operation is supported and no two target the same folded key. */
  lemma {:induction false} CheckMeans(p: Platform, ops: seq<Operation>)
    ensures CheckEach(p, ops).None? <==> AllOperationsOk(p, ops) && DistinctTargets(p, ops)
  {
    if ops != [] {
      var before, last := ops[..|ops| - 1], ops[|ops| - 1];
      CheckMeans(p, before);
      if AllOperationsOk(p, ops) && DistinctTargets(p, ops) {
        assert OperationOk(p, last);
        forall i | 0 <= i < |before| ensures OperationOk(p, before[i]) && p.fold(before[i].key) != p.fold(last.key) {
          assert OperationOk(p, ops[i]) && p.fold(ops[i].key) != p.fold(ops[|ops| - 1].key);
        }
      }
      if CheckEach(p, ops).None? { LastTargetsApart(p, ops); }
    }
  }

  lemma LastTargetsApart(p: Platform, ops: seq<Operation>)
    requires ops != [] && DistinctTargets(p, ops[..|ops| - 1]) && AllOperationsOk(p, ops[..|ops| - 1])
    requires OperationOk(p, ops[|ops| - 1]) && !Targets(p, ops[..|ops| - 1], p.fold(ops[|ops| - 1].key))
    ensures AllOperationsOk(p, ops) && DistinctTargets(p, ops)
  {
    var before := ops[..|ops| - 1];
    forall i | 0 <= i < |ops| ensures OperationOk(p, ops[i]) { if i < |before| { assert OperationOk(p, before[i]); } }
    forall i, j | 0 <= i < j < |ops| ensures p.fold(ops[i].key) != p.fold(ops[j].key) {
      assert ops[i] == before[i];
      if j < |before| { assert p.fold(before[i].key) != p.fold(before[j].key); }
    }
  }

  lemma FoldOrderIsStrict(p: Platform)
    ensures Transitive(FoldOrder(p)) && Asymmetric(FoldOrder(p))
  {
    forall a, b, c | FoldOrder(p)(a, b) && FoldOrder(p)(b, c) ensures FoldOrder(p)(a, c) {
      LessTransitive(p.fold(a.key), p.fold(b.key), p.fold(c.key));
    }
    forall a, b | FoldOrder(p)(a, b) ensures !FoldOrder(p)(b, a) { LessTotal(p.fold(a.key), p.fold(b.key)); }
  }

  /** Operations on distinct keys are put in the order of their folded keys. */
  lemma CanonicalOrder(p: Platform, ops: seq<Operation>)
    requires DistinctTargets(p, ops)
    ensures SortedBy(FoldOrder(p), SortBy(KeyOrder(p), ops)) && multiset(SortBy(KeyOrder(p), ops)) == multiset(ops)
  {
    FoldOrderIsStrict(p);
    SortItems(KeyOrder(p), ops);
    forall i, j | 0 <= i < j < |ops|
      ensures if KeyOrder(p)(ops[j], ops[i]) then FoldOrder(p)(ops[j], ops[i]) else FoldOrder(p)(ops[i], ops[j])
    {
      LessTotal(p.fold(ops[i].key), p.fold(ops[j].key));
    }
    SortsInto(KeyOrder(p), FoldOrder(p), ops);
  }

  lemma CanonicalIsOk(p: Platform, operations: seq<Operation>)
    requires Canonicalize(p, operations).Ok?
    ensures var ops := Canonicalize(p, operations).value;
            multiset(ops) == multiset(operations) && AllOperationsOk(p, ops) && DistinctTargets(p, ops)
  {
    var ops := Canonicalize(p, operations).value;
    CheckMeans(p, operations);
    CanonicalOrder(p, operations);
    forall i | 0 <= i < |ops| ensures OperationOk(p, ops[i]) { SameItem(ops, operations, i); }
    forall i, j | 0 <= i < j < |ops| ensures p.fold(ops[i].key) != p.fold(ops[j].key) {
      assert FoldOrder(p)(ops[i], ops[j]);
      LessTotal(p.fold(ops[i].key), p.fold(ops[j].key));
    }
  }

  lemma SameItem(a: seq<Operation>, b: seq<Operation>, i: nat)
    requires multiset(a) == multiset(b) && i < |a|
    ensures a[i] in b
  {
    assert a[i] in multiset(a);
    assert a[i] in multiset(b);
  }

  lemma {:induction false} OnceEach(p: Platform, ops: seq<Operation>, op: Operation)
    requires DistinctTargets(p, ops)
    ensures multiset(ops)[op] <= 1 && (op in multiset(ops) ==> op in ops)
  {
    if ops != [] {
      var before, last := ops[..|ops| - 1], ops[|ops| - 1];
      assert ops == before + [last];
      OnceEach(p, before, op);
    }
  }

  lemma TwiceCounts(ops: seq<Operation>, i: nat, j: nat)
    requires i < j < |ops| && ops[i] == ops[j]
    ensures multiset(ops)[ops[i]] >= 2
  {
    assert ops == ops[..j] + ops[j..];
    assert ops[..j][i] in multiset(ops[..j]) && ops[j..][0] in multiset(ops[j..]);
  }

  lemma TargetsInAnyOrder(p: Platform, a: seq<Operation>, b: seq<Operation>)
    requires multiset(a) == multiset(b) && DistinctTargets(p, a)
    ensures DistinctTargets(p, b)
  {
    forall i, j | 0 <= i < j < |b| ensures p.fold(b[i].key) != p.fold(b[j].key) {
      SameItem(b, a, i);
      SameItem(b, a, j);
      var m :| 0 <= m < |a| && a[m] == b[i];
      var n :| 0 <= n < |a| && a[n] == b[j];
      if b[i] == b[j] {
        TwiceCounts(b, i, j);
        OnceEach(p, a, b[i]);
      } else if m < n {
        assert p.fold(a[m].key) != p.fold(a[n].key);
      } else {
        assert p.fold(a[n].key) != p.fold(a[m].key);
      }
    }
  }

  /** The order in which the operations are listed changes nothing, unless the list itself is refused. */
  lemma ListingOrderIsIrrelevant(p: Platform, content: string, a: seq<Operation>, b: seq<Operation>)
    requires multiset(a) == multiset(b)
    ensures Canonicalize(p, a).Ok? <==> Canonicalize(p, b).Ok?
    ensures Canonicalize(p, a).Ok? ==> Compile(p, content, a) == Compile(p, content, b)
  {
    assert |a| == |multiset(a)| && |b| == |multiset(b)|;
    CheckMeans(p, a);
    CheckMeans(p, b);
    if Canonicalize(p, a).Ok? { SameCanonical(p, a, b); }
    if Canonicalize(p, b).Ok? { SameCanonical(p, b, a); }
  }

  lemma SameCanonical(p: Platform, a: seq<Operation>, b: seq<Operation>)
    requires multiset(a) == multiset(b) && DistinctTargets(p, a) && AllOperationsOk(p, a)
    ensures DistinctTargets(p, b) && AllOperationsOk(p, b) && SortBy(KeyOrder(p), a) == SortBy(KeyOrder(p), b)
  {
    TargetsInAnyOrder(p, a, b);
    forall i | 0 <= i < |b| ensures OperationOk(p, b[i]) { SameItem(b, a, i); }
    CanonicalOrder(p, a);
    CanonicalOrder(p, b);
    FoldOrderIsStrict(p);
    OneOrder(FoldOrder(p), SortBy(KeyOrder(p), a), SortBy(KeyOrder(p), b));
  }

  // -------------------------------------------------------------------------
  // The edits in order
  // -------------------------------------------------------------------------

  /** All edits in the order of their lines: those of entries, then the additions. */
  function Ordered(p: Platform, src: Source, ops: seq<Operation>): seq<Edit<string>> {
    var es := SortBy(Before, EditsOf(p, src, ops));
    var added := AddedLines(p, src, Additions(p, src, ops));
    if added == [] then es else es + [Edit(src.appendLine, src.appendLine, added)]
  }

  lemma EntryEditsFit(p: Platform, src: Source, ops: seq<Operation>)
    requires SourceOk(p, src) && DistinctTargets(p, ops)
    ensures var es := SortBy(Before, EditsOf(p, src, ops));
            && Fits(src.lines, es) && SortedBy(StartsBefore, es) && multiset(es) == multiset(EditsOf(p, src, ops))
            && EndOf(es) <= src.appendLine
  {
    var edits := EditsOf(p, src, ops);
    var es := SortBy(Before, edits);
    EditsOfApart(p, src, ops);
    SortsAgree(edits);
    SortItems(Before, edits);
    SortedDisjoint(src.lines, edits);
    OrderedFit(src.lines, es);
    if es != [] {
      assert es[|es| - 1] in multiset(edits);
      var k :| 0 <= k < |edits| && edits[k] == es[|es| - 1];
      var i := EditFromOp(p, src, ops, k);
      EndsBeforeAppend(p, src, ops[i]);
    }
  }

  lemma EndsBeforeAppend(p: Platform, src: Source, op: Operation)
    requires SourceSpans(src) && Hit(p, src, op).Some?
    ensures EditFor(p, src, op).start < EditFor(p, src, op).end <= src.appendLine
  {
    var n :| 0 <= n < |src.entries| && src.entries[n] == Hit(p, src, op).value;
    LastEndsLast(src.lines, src.entries, n);
  }

  lemma LastEndsLast(lines: seq<string>, entries: seq<Entry>, n: nat)
    requires Spans(lines, entries) && n < |entries|
    ensures entries[n].last <= entries[|entries| - 1].last
  {
    var last := |entries| - 1;
    if n < last { assert entries[n].last <= entries[last].first; }
  }

  /** The sort of all edits puts the additions last, and no range goes back into another. */
  lemma OrderedIs(p: Platform, src: Source, ops: seq<Operation>, edits: seq<Edit<string>>)
    requires SourceOk(p, src) && DistinctTargets(p, ops) && Edits(p, src, ops) == Ok(edits)
    ensures SortBy(Before, edits) == Ordered(p, src, ops) && Fits(src.lines, Ordered(p, src, ops))
    ensures SortedBy(StartsBefore, Ordered(p, src, ops))
  {
    PlanIs(p, src, ops);
    EntryEditsFit(p, src, ops);
    var es, added := EditsOf(p, src, ops), AddedLines(p, src, Additions(p, src, ops));
    if added != [] {
      var add := Edit(src.appendLine, src.appendLine, added);
      forall k | 0 <= k < |es| ensures StartsBefore(es[k], add) {
        var i := EditFromOp(p, src, ops, k);
        EndsBeforeAppend(p, src, ops[i]);
      }
      EditsOfApart(p, src, ops);
      AdditionsLast(es, add);
      FitsLast(src.lines, SortBy(Before, es), add);
    }
  }

  lemma FitsLast(lines: seq<string>, es: seq<Edit<string>>, add: Edit<string>)
    requires Fits(lines, es) && EndOf(es) <= add.start <= add.end <= |lines|
    ensures Fits(lines, es + [add])
  {
    assert (es + [add])[..|es|] == es;
  }

  lemma AdditionsLast(es: seq<Edit<string>>, add: Edit<string>)
    requires DistinctStarts(es) && forall k :: 0 <= k < |es| ==> StartsBefore(es[k], add)
    ensures SortBy(Before, es + [add]) == SortBy(Before, es) + [add] && SortedBy(StartsBefore, SortBy(Before, es) + [add])
  {
    var s := SortBy(Before, es);
    assert SortedBy(StartsBefore, s + [add]) && multiset(s) == multiset(es) by {
      SortsAgree(es);
      SortItems(Before, es);
      forall k | 0 <= k < |s| ensures StartsBefore(s[k], add) { assert s[k] in multiset(es); }
    }
    assert SortedBy(StartsBefore, SortBy(Before, es + [add])) by { SortsAgree(es + [add]); }
    SortItems(Before, es + [add]);
    OneOrder(StartsBefore, SortBy(Before, es + [add]), s + [add]);
  }
}
