/** Which instruction files apply to the targets of a write, in what order, and how a seal of them is compared. */
module InstructionRules {
  import opened Options
  import opened TextOrder
  import opened StableSort
  import opened VaultPaths

  /** The two Unicode normal forms of the runtime. */
  datatype Forms = Forms(nfc: string -> string, nfd: string -> string)

  datatype Target = Target(path: string, folder: bool)

  /** A digest is injective, so the normalized content stands for it. */
  type Digest = string

  datatype RuleFile = RuleFile(path: string, digest: Digest)

  /** Line endings as line feeds, and no byte order mark. */
  function Normalized(content: string): Digest {
    if content != [] && content[0] == '\U{FEFF}' then LineFeeds(content[1..]) else LineFeeds(content)
  }

  function LineFeeds(content: string): string {
    if content == [] then []
    else if content[0] == '\r' then ['\n'] + LineFeeds(if |content| > 1 && content[1] == '\n' then content[2..] else content[1..])
    else [content[0]] + LineFeeds(content[1..])
  }

  // -------------------------------------------------------------------------
  // Lists
  // -------------------------------------------------------------------------

  function FlatMap<A, B>(s: seq<A>, f: A -> seq<B>): seq<B> {
    if s == [] then [] else f(s[0]) + FlatMap(s[1..], f)
  }

  lemma {:induction false} FlatMapItems<A, B>(s: seq<A>, f: A -> seq<B>, x: B)
    ensures x in FlatMap(s, f) <==> exists i :: 0 <= i < |s| && x in f(s[i])
  {
    if s != [] {
      FlatMapItems(s[1..], f, x);
      if x in FlatMap(s[1..], f) {
        var i :| 0 <= i < |s[1..]| && x in f(s[1..][i]);
        assert x in f(s[i + 1]);
      }
      if i :| 0 <= i < |s| && x in f(s[i]) {
        if i > 0 { assert x in f(s[1..][i - 1]); }
      }
    }
  }

  /** Each item once, at its first place. */
  function Unique(s: seq<string>): seq<string> {
    if s == [] then []
    else
      var before, last := Unique(s[..|s| - 1]), s[|s| - 1];
      if last in s[..|s| - 1] then before else before + [last]
  }

  predicate Distinct(s: seq<string>) { forall i, j :: 0 <= i < j < |s| ==> s[i] != s[j] }

  lemma {:induction false} UniqueItems(s: seq<string>)
    ensures (forall x :: x in Unique(s) <==> x in s) && Distinct(Unique(s))
  {
    if s != [] {
      UniqueItems(s[..|s| - 1]);
      assert s == s[..|s| - 1] + [s[|s| - 1]];
    }
  }

  // -------------------------------------------------------------------------
  // Files that apply to a target
  // -------------------------------------------------------------------------

  function Aliases(f: Forms, path: string): seq<string> { Unique([path, f.nfc(path), f.nfd(path)]) }

  /** The root and each folder on the way to a target; of a file, the folders it is in. */
  function Folders(path: string, folder: bool): seq<string> {
    var segments := if path == "" then [] else Split(path);
    var depth := if folder || segments == [] then |segments| else |segments| - 1;
    [""] + seq(depth, i requires 0 <= i < depth => Join(segments[..i + 1]))
  }

  function FilePath(folder: string, name: string): string { if folder == "" then name else folder + "/" + name }

  function SpellingsIn(f: Forms, folder: string, name: string): seq<string> {
    FlatMap(Aliases(f, name), spelling => [FilePath(folder, spelling)])
  }

  function NamesIn(f: Forms, names: seq<string>, folder: string): seq<string> {
    FlatMap(names, name => SpellingsIn(f, folder, name))
  }

  function ChainOf(f: Forms, names: seq<string>, path: string, folder: bool): seq<string> {
    FlatMap(Folders(path, folder), dir => NamesIn(f, names, dir))
  }

  /** Every spelling of every instruction file that may apply to the target. */
  function Chain(f: Forms, names: seq<string>, target: Target): seq<string> {
    Unique(FlatMap(Aliases(f, target.path), alias => ChainOf(f, names, alias, target.folder)))
  }

  function Chains(f: Forms, names: seq<string>, targets: seq<Target>): seq<string> {
    Unique(FlatMap(targets, target => Chain(f, names, target)))
  }

  // -------------------------------------------------------------------------
  // The rules of a set of files
  // -------------------------------------------------------------------------

  predicate Present(contents: map<string, Option<string>>, path: string) { path in contents && contents[path].Some? }

  function DigestOf(contents: map<string, Option<string>>, path: string): Digest
    requires Present(contents, path)
  {
    Normalized(contents[path].value)
  }

  function PresentIn(contents: map<string, Option<string>>, paths: seq<string>): seq<string> {
    if paths == [] then []
    else
      PresentIn(contents, paths[..|paths| - 1])
      + (if Present(contents, paths[|paths| - 1]) then [paths[|paths| - 1]] else [])
  }

  predicate ComposedFirst(f: Forms, a: string, b: string) {
    var composedA, composedB := a == f.nfc(a), b == f.nfc(b);
    (composedA && !composedB) || (composedA == composedB && Less(a, b))
  }

  function ComposedOrder(f: Forms): (string, string) -> bool { (a, b) => ComposedFirst(f, a, b) }

  /** Spellings of one path with the same content are one file. */
  predicate SameFile(f: Forms, contents: map<string, Option<string>>, a: string, b: string) {
    Present(contents, a) && Present(contents, b) && f.nfc(a) == f.nfc(b) && DigestOf(contents, a) == DigestOf(contents, b)
  }

  predicate ListedBefore(f: Forms, contents: map<string, Option<string>>, paths: seq<string>, path: string) {
    exists i :: 0 <= i < |paths| && SameFile(f, contents, paths[i], path)
  }

  /** Of each file, the first spelling. */
  function Kept(f: Forms, contents: map<string, Option<string>>, paths: seq<string>): seq<string> {
    if paths == [] then []
    else
      var before, last := paths[..|paths| - 1], paths[|paths| - 1];
      Kept(f, contents, before) + (if ListedBefore(f, contents, before, last) then [] else [last])
  }

  function NameIndex(f: Forms, names: seq<string>, name: string): int {
    if names == [] then -1
    else if f.nfc(names[0]) == name then 0
    else var rest := NameIndex(f, names[1..], name); if rest == -1 then -1 else rest + 1
  }

  function Depth(path: string): nat { |Split(path)| }

  function NameRank(f: Forms, names: seq<string>, path: string): int {
    NameIndex(f, names, f.nfc(Split(path)[|Split(path)| - 1]))
  }

  /** Shallower folders first, then names in the configured order. */
  predicate RanksBefore(f: Forms, names: seq<string>, a: string, b: string) {
    || Depth(a) < Depth(b)
    || (Depth(a) == Depth(b) && (NameRank(f, names, a) < NameRank(f, names, b)
                                 || (NameRank(f, names, a) == NameRank(f, names, b) && Less(a, b))))
  }

  function RankOrder(f: Forms, names: seq<string>): (string, string) -> bool { (a, b) => RanksBefore(f, names, a, b) }

  function Listed(f: Forms, names: seq<string>, contents: map<string, Option<string>>, paths: seq<string>): seq<string> {
    SortBy(RankOrder(f, names), Kept(f, contents, SortBy(ComposedOrder(f), PresentIn(contents, paths))))
  }

  function WithDigests(contents: map<string, Option<string>>, listed: seq<string>): seq<RuleFile> {
    if listed == [] then []
    else
      WithDigests(contents, listed[..|listed| - 1])
      + (if Present(contents, listed[|listed| - 1]) then [RuleFile(listed[|listed| - 1], DigestOf(contents, listed[|listed| - 1]))] else [])
  }

  /** The rules that apply: the listed files with their digests. */
  function Rules(f: Forms, names: seq<string>, contents: map<string, Option<string>>, paths: seq<string>): seq<RuleFile> {
    WithDigests(contents, Listed(f, names, contents, paths))
  }

  // -------------------------------------------------------------------------
  // Every applicable file is among the rules
  // -------------------------------------------------------------------------

  lemma {:induction false} PresentItems(contents: map<string, Option<string>>, paths: seq<string>)
    ensures forall x :: x in PresentIn(contents, paths) <==> x in paths && Present(contents, x)
    ensures Distinct(paths) ==> Distinct(PresentIn(contents, paths))
  {
    if paths != [] {
      var before, last := paths[..|paths| - 1], paths[|paths| - 1];
      PresentItems(contents, before);
      assert paths == before + [last];
      if Distinct(paths) { NotAmongBefore(paths); }
    }
  }

  lemma NotAmongBefore(s: seq<string>)
    requires Distinct(s) && s != []
    ensures Distinct(s[..|s| - 1]) && s[|s| - 1] !in s[..|s| - 1]
  {
  }

  lemma {:induction false} KeptItems(f: Forms, contents: map<string, Option<string>>, paths: seq<string>)
    ensures forall x :: x in Kept(f, contents, paths) ==> x in paths
    ensures Distinct(paths) ==> Distinct(Kept(f, contents, paths))
  {
    if paths != [] {
      var before, last := paths[..|paths| - 1], paths[|paths| - 1];
      KeptItems(f, contents, before);
      assert paths == before + [last];
      if Distinct(paths) { NotAmongBefore(paths); }
    }
  }

  /** Every path has a kept spelling of the same file. */
  lemma {:induction false} KeptCovers(f: Forms, contents: map<string, Option<string>>, paths: seq<string>, x: string)
    requires x in paths && Present(contents, x)
    ensures exists y :: y in Kept(f, contents, paths) && SameFile(f, contents, y, x)
    decreases |paths|
  {
    var before, last := paths[..|paths| - 1], paths[|paths| - 1];
    if x in before {
      KeptCovers(f, contents, before, x);
      var y :| y in Kept(f, contents, before) && SameFile(f, contents, y, x);
      assert y in Kept(f, contents, paths);
    } else if ListedBefore(f, contents, before, last) {
      var i :| 0 <= i < |before| && SameFile(f, contents, before[i], last);
      KeptCovers(f, contents, before, before[i]);
      var y :| y in Kept(f, contents, before) && SameFile(f, contents, y, before[i]);
      assert y in Kept(f, contents, paths) && SameFile(f, contents, y, x);
    } else {
      assert x in Kept(f, contents, paths);
    }
  }

  lemma {:induction false} DigestItems(contents: map<string, Option<string>>, listed: seq<string>)
    requires forall x :: x in listed ==> Present(contents, x)
    ensures |WithDigests(contents, listed)| == |listed|
    ensures forall i :: 0 <= i < |listed| ==> WithDigests(contents, listed)[i] == RuleFile(listed[i], DigestOf(contents, listed[i]))
  {
    if listed != [] {
      assert forall x :: x in listed[..|listed| - 1] ==> x in listed;
      DigestItems(contents, listed[..|listed| - 1]);
    }
  }

  lemma SortedItems(less: (string, string) -> bool, s: seq<string>)
    ensures (forall x :: x in SortBy(less, s) <==> x in s) && |SortBy(less, s)| == |s|
  {
    SortItems(less, s);
    forall x ensures x in SortBy(less, s) <==> x in s {
      assert x in SortBy(less, s) <==> x in multiset(SortBy(less, s));
      assert x in s <==> x in multiset(s);
    }
  }

  lemma ListedItems(f: Forms, names: seq<string>, contents: map<string, Option<string>>, paths: seq<string>)
    ensures forall x :: x in Listed(f, names, contents, paths) ==> x in paths && Present(contents, x)
  {
    var present := PresentIn(contents, paths);
    PresentItems(contents, paths);
    SortedItems(ComposedOrder(f), present);
    KeptItems(f, contents, SortBy(ComposedOrder(f), present));
    SortedItems(RankOrder(f, names), Kept(f, contents, SortBy(ComposedOrder(f), present)));
  }

  /** Rules name existing files of the chains with their current digests, and no existing file is left out, up to spelling. */
  lemma RulesMean(f: Forms, names: seq<string>, contents: map<string, Option<string>>, paths: seq<string>)
    ensures forall e :: e in Rules(f, names, contents, paths) ==> e.path in paths && Present(contents, e.path) && e.digest == DigestOf(contents, e.path)
    ensures forall x :: x in paths && Present(contents, x) ==> Covered(f, Rules(f, names, contents, paths), x, DigestOf(contents, x))
  {
    var listed := Listed(f, names, contents, paths);
    ListedItems(f, names, contents, paths);
    DigestItems(contents, listed);
    forall e | e in Rules(f, names, contents, paths)
      ensures e.path in paths && Present(contents, e.path) && e.digest == DigestOf(contents, e.path)
    {
      var i :| 0 <= i < |listed| && WithDigests(contents, listed)[i] == e;
      assert listed[i] in listed;
    }
    forall x | x in paths && Present(contents, x) ensures Covered(f, Rules(f, names, contents, paths), x, DigestOf(contents, x)) {
      ListedCovers(f, names, contents, paths, x);
      var y :| y in listed && SameFile(f, contents, y, x);
      var i :| 0 <= i < |listed| && listed[i] == y;
      assert Rules(f, names, contents, paths)[i] == RuleFile(y, DigestOf(contents, y));
    }
  }

  /** A rule of the same file, whatever its spelling, with this digest. */
  predicate Covered(f: Forms, rules: seq<RuleFile>, path: string, digest: Digest) {
    exists i :: 0 <= i < |rules| && f.nfc(rules[i].path) == f.nfc(path) && rules[i].digest == digest
  }

  lemma ListedCovers(f: Forms, names: seq<string>, contents: map<string, Option<string>>, paths: seq<string>, x: string)
    requires x in paths && Present(contents, x)
    ensures exists y :: y in Listed(f, names, contents, paths) && SameFile(f, contents, y, x)
  {
    var present := PresentIn(contents, paths);
    PresentItems(contents, paths);
    SortedItems(ComposedOrder(f), present);
    KeptCovers(f, contents, SortBy(ComposedOrder(f), present), x);
    SortedItems(RankOrder(f, names), Kept(f, contents, SortBy(ComposedOrder(f), present)));
  }

  // -------------------------------------------------------------------------
  // One order of the rules, and their comparison
  // -------------------------------------------------------------------------

  lemma RankOrderIsStrict(f: Forms, names: seq<string>)
    ensures Transitive(RankOrder(f, names)) && Asymmetric(RankOrder(f, names))
  {
    forall a, b, c | RankOrder(f, names)(a, b) && RankOrder(f, names)(b, c) ensures RankOrder(f, names)(a, c) {
      if Less(a, b) && Less(b, c) { LessTransitive(a, b, c); }
    }
    forall a, b | RankOrder(f, names)(a, b) ensures !RankOrder(f, names)(b, a) { LessTotal(a, b); }
  }

  lemma DistinctSort(less: (string, string) -> bool, s: seq<string>)
    requires Distinct(s)
    ensures Distinct(SortBy(less, s))
    decreases |s|
  {
    if s != [] {
      var rest := s[1..];
      assert Distinct(rest) && s[0] !in rest;
      DistinctSort(less, rest);
      SortedItems(less, rest);
      InsertDistinct(less, s[0], SortBy(less, rest));
    }
  }

  lemma {:induction false} InsertDistinct(less: (string, string) -> bool, x: string, s: seq<string>)
    requires Distinct(s) && x !in s
    ensures Distinct(Insert(less, x, s)) && forall y :: y in Insert(less, x, s) ==> y == x || y in s
  {
    if s != [] && less(s[0], x) {
      assert Distinct(s[1..]) && s[0] !in s[1..];
      InsertDistinct(less, x, s[1..]);
    }
  }

  lemma ListedInOrder(f: Forms, names: seq<string>, contents: map<string, Option<string>>, paths: seq<string>)
    requires Distinct(paths)
    ensures Distinct(Listed(f, names, contents, paths)) && SortedBy(RankOrder(f, names), Listed(f, names, contents, paths))
  {
    var present := PresentIn(contents, paths);
    PresentItems(contents, paths);
    DistinctSort(ComposedOrder(f), present);
    var kept := Kept(f, contents, SortBy(ComposedOrder(f), present));
    KeptItems(f, contents, SortBy(ComposedOrder(f), present));
    DistinctSort(RankOrder(f, names), kept);
    RankOrderIsStrict(f, names);
    forall i, j | 0 <= i < j < |kept|
      ensures if RankOrder(f, names)(kept[j], kept[i]) then RankOrder(f, names)(kept[j], kept[i]) else RankOrder(f, names)(kept[i], kept[j])
    {
      LessTotal(kept[i], kept[j]);
    }
    SortsInto(RankOrder(f, names), RankOrder(f, names), kept);
  }

  function PathsOf(rules: seq<RuleFile>): seq<string> { seq(|rules|, i requires 0 <= i < |rules| => rules[i].path) }

  ghost predicate InOrder(f: Forms, names: seq<string>, rules: seq<RuleFile>) {
    Distinct(PathsOf(rules)) && SortedBy(RankOrder(f, names), PathsOf(rules))
  }

  lemma RulesInOrder(f: Forms, names: seq<string>, contents: map<string, Option<string>>, paths: seq<string>)
    requires Distinct(paths)
    ensures InOrder(f, names, Rules(f, names, contents, paths))
  {
    ListedItems(f, names, contents, paths);
    ListedInOrder(f, names, contents, paths);
    DigestItems(contents, Listed(f, names, contents, paths));
    assert PathsOf(Rules(f, names, contents, paths)) == Listed(f, names, contents, paths);
  }

  function MapOf(rules: seq<RuleFile>): map<string, Digest> {
    if rules == [] then map[] else MapOf(rules[..|rules| - 1])[rules[|rules| - 1].path := rules[|rules| - 1].digest]
  }

  datatype Difference = Added(path: string) | Changed(path: string) | Removed(path: string)

  /** What changed between the sealed and the current rules. */
  function SealDiff(sealed: seq<RuleFile>, current: seq<RuleFile>): seq<Difference> {
    var before, after := MapOf(sealed), MapOf(current);
    FlatMap(current, (e: RuleFile) =>
      if e.path !in before then [Added(e.path)] else if before[e.path] != e.digest then [Changed(e.path)] else [])
    + FlatMap(sealed, (e: RuleFile) => if e.path !in after then [Removed(e.path)] else [])
  }

  lemma {:induction false} MapItems(rules: seq<RuleFile>)
    ensures forall x :: x in MapOf(rules) <==> x in PathsOf(rules)
    ensures Distinct(PathsOf(rules)) ==> forall i :: 0 <= i < |rules| ==> rules[i].path in MapOf(rules) && MapOf(rules)[rules[i].path] == rules[i].digest
  {
    if rules != [] {
      var before, last := rules[..|rules| - 1], rules[|rules| - 1];
      MapItems(before);
      assert PathsOf(rules) == PathsOf(before) + [last.path];
      assert PathsOf(rules)[..|rules| - 1] == PathsOf(before);
      if Distinct(PathsOf(rules)) { NotAmongBefore(PathsOf(rules)); LastWins(rules); }
    }
  }

  lemma LastWins(rules: seq<RuleFile>)
    requires rules != [] && rules[|rules| - 1].path !in PathsOf(rules[..|rules| - 1])
    requires forall i :: 0 <= i < |rules| - 1 ==>
               rules[i].path in MapOf(rules[..|rules| - 1]) && MapOf(rules[..|rules| - 1])[rules[i].path] == rules[i].digest
    ensures forall i :: 0 <= i < |rules| ==> rules[i].path in MapOf(rules) && MapOf(rules)[rules[i].path] == rules[i].digest
  {
    forall i | 0 <= i < |rules| ensures rules[i].path in MapOf(rules) && MapOf(rules)[rules[i].path] == rules[i].digest {
      if i < |rules| - 1 { assert PathsOf(rules[..|rules| - 1])[i] == rules[i].path; }
    }
  }

  lemma {:induction false} FlatMapEmpty<A, B>(s: seq<A>, f: A -> seq<B>)
    ensures FlatMap(s, f) == [] <==> forall i :: 0 <= i < |s| ==> f(s[i]) == []
  {
    if s != [] {
      FlatMapEmpty(s[1..], f);
      if FlatMap(s[1..], f) == [] && f(s[0]) == [] {
        forall i | 0 <= i < |s| ensures f(s[i]) == [] { if i > 0 { assert f(s[1..][i - 1]) == []; } }
      }
      if forall i :: 0 <= i < |s| ==> f(s[i]) == [] {
        forall i | 0 <= i < |s| - 1 ensures f(s[1..][i]) == [] { assert f(s[i + 1]) == []; }
      }
    }
  }

  predicate AllIn(rules: seq<RuleFile>, m: map<string, Digest>) {
    forall i :: 0 <= i < |rules| ==> rules[i].path in m && m[rules[i].path] == rules[i].digest
  }

  predicate PathsIn(rules: seq<RuleFile>, m: map<string, Digest>) {
    forall i :: 0 <= i < |rules| ==> rules[i].path in m
  }

  lemma DiffEmpty(sealed: seq<RuleFile>, current: seq<RuleFile>)
    ensures SealDiff(sealed, current) == [] <==> AllIn(current, MapOf(sealed)) && PathsIn(sealed, MapOf(current))
  {
    var before, after := MapOf(sealed), MapOf(current);
    var added := (e: RuleFile) =>
      if e.path !in before then [Added(e.path)] else if before[e.path] != e.digest then [Changed(e.path)] else [];
    var removed := (e: RuleFile) => if e.path !in after then [Removed(e.path)] else [];
    FlatMapEmpty(current, added);
    FlatMapEmpty(sealed, removed);
    assert SealDiff(sealed, current) == FlatMap(current, added) + FlatMap(sealed, removed);
  }

  /** The difference is empty exactly when both rule maps are equal. */
  lemma DiffEmptyIffSameMaps(sealed: seq<RuleFile>, current: seq<RuleFile>)
    requires Distinct(PathsOf(current))
    ensures SealDiff(sealed, current) == [] <==> MapOf(sealed) == MapOf(current)
  {
    DiffEmpty(sealed, current);
    MapItems(sealed);
    MapItems(current);
    var before, after := MapOf(sealed), MapOf(current);
    if SealDiff(sealed, current) == [] {
      forall x ensures (x in before <==> x in after) && (x in before ==> before[x] == after[x]) {
        if x in before { var i :| 0 <= i < |sealed| && PathsOf(sealed)[i] == x; assert sealed[i].path == x; }
        if x in after { var i :| 0 <= i < |current| && PathsOf(current)[i] == x; assert current[i].path == x; }
      }
      assert before == after;
    } else if before == after {
      forall i | 0 <= i < |sealed| ensures sealed[i].path in after { assert PathsOf(sealed)[i] in PathsOf(sealed); }
    }
  }

  /** Rules in the order of the same names are determined by their map: they are equal exactly when the difference is empty. */
  lemma SameMapSameRules(f: Forms, names: seq<string>, sealed: seq<RuleFile>, current: seq<RuleFile>)
    requires InOrder(f, names, sealed) && InOrder(f, names, current)
    ensures SealDiff(sealed, current) == [] <==> sealed == current
  {
    DiffEmptyIffSameMaps(sealed, current);
    if MapOf(sealed) == MapOf(current) {
      MapItems(sealed);
      MapItems(current);
      SamePathsSameOrder(f, names, PathsOf(sealed), PathsOf(current));
      forall i | 0 <= i < |sealed| ensures sealed[i] == current[i] {
        assert sealed[i].path == PathsOf(sealed)[i] == PathsOf(current)[i] == current[i].path;
      }
      assert |sealed| == |PathsOf(sealed)| == |current|;
    }
  }

  lemma {:induction false} DistinctCount(s: seq<string>, x: string)
    requires Distinct(s)
    ensures multiset(s)[x] == if x in s then 1 else 0
  {
    if s != [] {
      NotAmongBefore(s);
      DistinctCount(s[..|s| - 1], x);
      assert s == s[..|s| - 1] + [s[|s| - 1]];
    }
  }

  lemma SamePathsSameOrder(f: Forms, names: seq<string>, a: seq<string>, b: seq<string>)
    requires Distinct(a) && Distinct(b) && SortedBy(RankOrder(f, names), a) && SortedBy(RankOrder(f, names), b)
    requires forall x :: x in a <==> x in b
    ensures a == b
  {
    forall x ensures multiset(a)[x] == multiset(b)[x] { DistinctCount(a, x); DistinctCount(b, x); }
    assert multiset(a) == multiset(b);
    RankOrderIsStrict(f, names);
    OneOrder(RankOrder(f, names), a, b);
  }
}
