/** What a digest ignores, in which order the rules of a call are listed, and under which spelling. */
module InstructionOrder {
  import opened Options
  import opened TextOrder
  import opened StableSort
  import opened VaultPaths
  import opened InstructionRules

  // -------------------------------------------------------------------------
  // Contents with the same digest
  // -------------------------------------------------------------------------

  lemma {:induction false} LineFeedsPlain(content: string)
    ensures '\r' !in LineFeeds(content)
    ensures '\r' !in content ==> LineFeeds(content) == content
  {
    if content != [] {
      LineFeedsPlain(content[1..]);
      if content[0] == '\r' && |content| > 1 && content[1] == '\n' { LineFeedsPlain(content[2..]); }
      assert content == [content[0]] + content[1..];
    }
  }

  /** Behind anything but a carriage return a text is read on its own. */
  lemma {:induction false} FeedsConcat(before: string, rest: string)
    requires before == [] || before[|before| - 1] != '\r'
    ensures LineFeeds(before + rest) == LineFeeds(before) + LineFeeds(rest)
  {
    if before == [] {
      assert before + rest == rest;
    } else {
      var n := if before[0] == '\r' && before[1] == '\n' then 2 else 1;
      var tail := before[n..];
      assert tail != [] ==> tail[|tail| - 1] == before[|before| - 1];
      FeedsConcat(tail, rest);
      FeedsFirst(before, n);
      RestFirst(before, rest, n);
    }
  }

  lemma RestFirst(before: string, rest: string, n: nat)
    requires before != [] && before[|before| - 1] != '\r' && n == (if before[0] == '\r' && before[1] == '\n' then 2 else 1)
    ensures LineFeeds(before + rest) == [if before[0] == '\r' then '\n' else before[0]] + LineFeeds(before[n..] + rest)
  {
    FeedsFirst(before + rest, n);
    assert (before + rest)[n..] == before[n..] + rest;
  }

  /** The first line ending or character, of length `n`. */
  lemma FeedsFirst(s: string, n: nat)
    requires s != [] && n == (if s[0] == '\r' && |s| > 1 && s[1] == '\n' then 2 else 1)
    ensures LineFeeds(s) == [if s[0] == '\r' then '\n' else s[0]] + LineFeeds(s[n..])
  {
  }

  lemma EndingFirst(after: string)
    ensures LineFeeds("\r\n" + after) == LineFeeds("\n" + after) == ['\n'] + LineFeeds(after)
    ensures after == [] || after[0] != '\n' ==> LineFeeds("\r" + after) == ['\n'] + LineFeeds(after)
  {
    assert ("\r\n" + after)[2..] == after && ("\n" + after)[1..] == after && ("\r" + after)[1..] == after;
  }

  /** A line ending in the middle reads as a line feed, in both of its other forms. */
  lemma LineFeedsAt(before: string, after: string)
    requires before == [] || before[|before| - 1] != '\r'
    ensures LineFeeds(before + "\r\n" + after) == LineFeeds(before + "\n" + after)
    ensures after == [] || after[0] != '\n' ==> LineFeeds(before + "\r" + after) == LineFeeds(before + "\n" + after)
  {
    EndingFirst(after);
    FeedsAround(before, "\r\n", after);
    FeedsAround(before, "\n", after);
    FeedsAround(before, "\r", after);
  }

  lemma FeedsAround(before: string, ending: string, after: string)
    requires before == [] || before[|before| - 1] != '\r'
    ensures LineFeeds(before + ending + after) == LineFeeds(before) + LineFeeds(ending + after)
  {
    assert before + ending + after == before + (ending + after);
    FeedsConcat(before, ending + after);
  }

  /** A mark at the beginning is ignored, once, and without it and carriage returns a content is its own digest. */
  lemma DigestIgnores(content: string)
    ensures content != [] && content[0] != '\U{FEFF}' ==> Normalized("\U{FEFF}" + content) == Normalized(content)
    ensures '\r' !in content && (content == [] || content[0] != '\U{FEFF}') ==> Normalized(content) == content
    ensures '\r' !in Normalized(content)
  {
    assert ("\U{FEFF}" + content)[1..] == content;
    LineFeedsPlain(content);
    if content != [] { LineFeedsPlain(content[1..]); }
  }

  /** Contents that differ in the form of one line ending have one digest. */
  lemma EndingsAreIgnored(before: string, after: string)
    requires before != [] && before[0] != '\U{FEFF}' && before[|before| - 1] != '\r'
    ensures Normalized(before + "\r\n" + after) == Normalized(before + "\n" + after)
    ensures after == [] || after[0] != '\n' ==> Normalized(before + "\r" + after) == Normalized(before + "\n" + after)
  {
    LineFeedsAt(before, after);
    assert (before + "\r\n" + after)[0] == before[0] && (before + "\n" + after)[0] == before[0] && (before + "\r" + after)[0] == before[0];
  }

  // -------------------------------------------------------------------------
  // The order of rules
  // -------------------------------------------------------------------------

  /** How many separators a path has. */
  function Separators(path: string): nat {
    if path == [] then 0 else Separators(path[1..]) + (if path[0] == '/' then 1 else 0)
  }

  /** What stands behind the last separator. */
  predicate BaseOf(path: string, base: string) {
    '/' !in base && (path == base || exists k :: 0 <= k < |path| && path[k] == '/' && path[k + 1..] == base)
  }

  /** The place of the first configured name that is this one, or before all of them. */
  predicate PlaceOf(f: Forms, names: seq<string>, base: string, place: int) {
    if place == -1 then forall n :: 0 <= n < |names| ==> f.nfc(names[n]) != f.nfc(base)
    else 0 <= place < |names| && f.nfc(names[place]) == f.nfc(base) && forall n :: 0 <= n < place ==> f.nfc(names[n]) != f.nfc(base)
  }

  /** Shallower first, then in the order of the configured names, then by path. */
  ghost predicate ListedFirst(f: Forms, names: seq<string>, a: string, b: string) {
    || Separators(a) < Separators(b)
    || (Separators(a) == Separators(b)
        && exists baseA: string, baseB: string, placeA: int, placeB: int :: PlacedFirst(f, names, a, b, baseA, baseB, placeA, placeB))
  }

  predicate PlacedFirst(f: Forms, names: seq<string>, a: string, b: string, baseA: string, baseB: string, placeA: int, placeB: int) {
    && BaseOf(a, baseA) && BaseOf(b, baseB) && PlaceOf(f, names, baseA, placeA) && PlaceOf(f, names, baseB, placeB)
    && (placeA < placeB || (placeA == placeB && Less(a, b)))
  }

  lemma {:induction false} SplitMeans(path: string)
    ensures |Split(path)| == Separators(path) + 1 && BaseOf(path, Split(path)[|Split(path)| - 1])
  {
    if path != [] {
      SplitMeans(path[1..]);
      var rest := Split(path[1..]);
      var base := rest[|rest| - 1];
      if path[0] == '/' || |rest| > 1 {
        assert Split(path)[|Split(path)| - 1] == base;
        if path[1..] == base {
          assert path[0] == '/' ==> path[0 + 1..] == base;
          if path[0] != '/' { NoSeparators(base); }
        } else {
          var k :| 0 <= k < |path[1..]| && path[1..][k] == '/' && path[1..][k + 1..] == base;
          assert path[k + 1] == '/' && path[k + 2..] == base;
        }
      } else {
        assert Split(path) == [[path[0]] + rest[0]];
        PartHasNone(path[1..]);
        assert path == [path[0]] + path[1..];
      }
    }
  }

  lemma {:induction false} NoSeparators(path: string)
    requires '/' !in path
    ensures Separators(path) == 0
  {
    if path != [] { NoSeparators(path[1..]); }
  }

  lemma {:induction false} PartHasNone(path: string)
    requires |Split(path)| == 1
    ensures Split(path) == [path] && '/' !in path
  {
    if path != [] {
      PartHasNone(path[1..]);
      assert path == [path[0]] + path[1..];
    }
  }

  lemma {:induction false} NameIndexIs(f: Forms, names: seq<string>, name: string)
    ensures var place := NameIndex(f, names, name);
            if place == -1 then forall n :: 0 <= n < |names| ==> f.nfc(names[n]) != name
            else 0 <= place < |names| && f.nfc(names[place]) == name && forall n :: 0 <= n < place ==> f.nfc(names[n]) != name
  {
    if names != [] { NameIndexIs(f, names[1..], name); }
  }

  lemma RankIs(f: Forms, names: seq<string>, a: string, b: string)
    requires RanksBefore(f, names, a, b)
    ensures ListedFirst(f, names, a, b)
  {
    SplitMeans(a);
    SplitMeans(b);
    var baseA, baseB := Split(a)[|Split(a)| - 1], Split(b)[|Split(b)| - 1];
    NameIndexIs(f, names, f.nfc(baseA));
    NameIndexIs(f, names, f.nfc(baseB));
    if Depth(a) == Depth(b) { assert PlacedFirst(f, names, a, b, baseA, baseB, NameRank(f, names, a), NameRank(f, names, b)); }
  }

  /** The rules of a call are listed shallower folders first, then in the configured order of their names, then by path. */
  lemma RulesAreRanked(f: Forms, names: seq<string>, rules: seq<RuleFile>, i: nat, j: nat)
    requires InOrder(f, names, rules) && i < j < |rules|
    ensures ListedFirst(f, names, rules[i].path, rules[j].path)
  {
    assert PathsOf(rules)[i] == rules[i].path && PathsOf(rules)[j] == rules[j].path;
    RankIs(f, names, rules[i].path, rules[j].path);
  }

  // -------------------------------------------------------------------------
  // The spelling a file is listed under
  // -------------------------------------------------------------------------

  /** The composed spelling comes first, then by path. */
  predicate PreferredTo(f: Forms, a: string, b: string) {
    var composedA, composedB := f.nfc(a) == a, f.nfc(b) == b;
    if composedA != composedB then composedA else Less(a, b)
  }

  lemma {:induction false} KeptIsFirst(f: Forms, contents: map<string, Option<string>>, paths: seq<string>, e: string, x: nat)
    requires e in Kept(f, contents, paths) && x < |paths| && SameFile(f, contents, paths[x], e)
    ensures exists k :: 0 <= k <= x && paths[k] == e
  {
    var before, last := paths[..|paths| - 1], paths[|paths| - 1];
    if e in Kept(f, contents, before) {
      if x < |before| {
        assert before[x] == paths[x];
        KeptIsFirst(f, contents, before, e, x);
        var k :| 0 <= k <= x && before[k] == e;
        assert paths[k] == e;
      } else {
        KeptItems(f, contents, before);
        var k :| 0 <= k < |before| && before[k] == e;
        assert paths[k] == e;
      }
    } else {
      assert e == last && !ListedBefore(f, contents, before, last);
      if x < |before| {
        assert before[x] == paths[x];
        assert ListedBefore(f, contents, before, last);
        assert false;
      }
    }
  }

  lemma ComposedIsStrict(f: Forms)
    ensures Transitive(ComposedOrder(f)) && Asymmetric(ComposedOrder(f))
  {
    forall a, b, c | ComposedOrder(f)(a, b) && ComposedOrder(f)(b, c) ensures ComposedOrder(f)(a, c) {
      if Less(a, b) && Less(b, c) { LessTransitive(a, b, c); }
    }
    forall a, b | ComposedOrder(f)(a, b) ensures !ComposedOrder(f)(b, a) { LessTotal(a, b); }
  }

  lemma ComposedSorts(f: Forms, paths: seq<string>)
    requires Distinct(paths)
    ensures SortedBy(ComposedOrder(f), SortBy(ComposedOrder(f), paths))
  {
    ComposedIsStrict(f);
    forall i, j | 0 <= i < j < |paths|
      ensures if ComposedOrder(f)(paths[j], paths[i]) then ComposedOrder(f)(paths[j], paths[i]) else ComposedOrder(f)(paths[i], paths[j])
    {
      LessTotal(paths[i], paths[j]);
    }
    SortsInto(ComposedOrder(f), ComposedOrder(f), paths);
  }

  /** Of the spellings under which one file answers with one content, a rule names the one preferred to all others. */
  lemma RuleIsPreferred(f: Forms, names: seq<string>, contents: map<string, Option<string>>, paths: seq<string>, e: RuleFile, x: string)
    requires Distinct(paths) && e in Rules(f, names, contents, paths) && x in paths && SameFile(f, contents, x, e.path)
    ensures x == e.path || PreferredTo(f, e.path, x)
  {
    var present := PresentIn(contents, paths);
    var sorted := SortBy(ComposedOrder(f), present);
    PresentItems(contents, paths);
    SortedItems(ComposedOrder(f), present);
    ComposedSorts(f, present);
    RuleIsKept(f, names, contents, paths, e);
    assert x in sorted;
    KeptIsPreferred(f, contents, sorted, e.path, x);
  }

  lemma KeptIsPreferred(f: Forms, contents: map<string, Option<string>>, sorted: seq<string>, e: string, x: string)
    requires SortedBy(ComposedOrder(f), sorted) && e in Kept(f, contents, sorted) && x in sorted && SameFile(f, contents, x, e)
    ensures x == e || PreferredTo(f, e, x)
  {
    var j :| 0 <= j < |sorted| && sorted[j] == x;
    KeptIsFirst(f, contents, sorted, e, j);
    var k :| 0 <= k <= j && sorted[k] == e;
    if k < j { assert ComposedOrder(f)(sorted[k], sorted[j]); }
  }

  lemma RuleIsKept(f: Forms, names: seq<string>, contents: map<string, Option<string>>, paths: seq<string>, e: RuleFile)
    requires e in Rules(f, names, contents, paths)
    ensures e.path in Kept(f, contents, SortBy(ComposedOrder(f), PresentIn(contents, paths)))
  {
    var kept := Kept(f, contents, SortBy(ComposedOrder(f), PresentIn(contents, paths)));
    ListedItems(f, names, contents, paths);
    DigestItems(contents, Listed(f, names, contents, paths));
    SortedItems(RankOrder(f, names), kept);
    var i :| 0 <= i < |Rules(f, names, contents, paths)| && Rules(f, names, contents, paths)[i] == e;
    assert Listed(f, names, contents, paths)[i] == e.path;
  }
}
