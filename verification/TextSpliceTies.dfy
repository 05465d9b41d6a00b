/** Ranges that share a start: why distinct starts are needed for both passes to agree. */
module TextSpliceTies {
  import opened StableSort
  import opened TextSplice

  /** The same ranges with other texts. */
  function With(edits: seq<Edit<char>>, texts: seq<string>): seq<Edit<char>>
    requires |texts| == |edits|
  {
    seq(|edits|, i requires 0 <= i < |edits| => Edit(edits[i].start, edits[i].end, texts[i]))
  }

  /** The occurrences of two edits, in list order. */
  function Kept(s: seq<Edit<char>>, x: Edit<char>, y: Edit<char>): seq<Edit<char>> {
    if s == [] then []
    else Kept(s[..|s| - 1], x, y) + (if s[|s| - 1] == x || s[|s| - 1] == y then [s[|s| - 1]] else [])
  }

  lemma {:induction false} KeptConcat(a: seq<Edit<char>>, b: seq<Edit<char>>, x: Edit<char>, y: Edit<char>)
    ensures Kept(a + b, x, y) == Kept(a, x, y) + Kept(b, x, y)
  {
    if b == [] {
      assert a + b == a;
    } else {
      assert (a + b)[..|a + b| - 1] == a + b[..|b| - 1];
      KeptConcat(a, b[..|b| - 1], x, y);
    }
  }

  lemma KeptCons(first: Edit<char>, rest: seq<Edit<char>>, x: Edit<char>, y: Edit<char>)
    ensures Kept([first] + rest, x, y) == if first == x || first == y then [first] + Kept(rest, x, y) else Kept(rest, x, y)
  {
    KeptConcat([first], rest, x, y);
    assert [first][..0] == [];
    assert [] + Kept(rest, x, y) == Kept(rest, x, y);
  }

  lemma KeptSnoc(before: seq<Edit<char>>, last: Edit<char>, x: Edit<char>, y: Edit<char>)
    ensures Kept(before + [last], x, y) == if last == x || last == y then Kept(before, x, y) + [last] else Kept(before, x, y)
  {
    assert (before + [last])[..|before|] == before;
    assert Kept(before, x, y) + [] == Kept(before, x, y);
  }

  lemma {:induction false} KeptItems(s: seq<Edit<char>>, x: Edit<char>, y: Edit<char>)
    ensures forall e :: e in Kept(s, x, y) ==> e in s
  {
    if s != [] { KeptItems(s[..|s| - 1], x, y); }
  }

  // -------------------------------------------------------------------------
  // A stable sort keeps the order of what it does not compare
  // -------------------------------------------------------------------------

  ghost predicate StrictWeak(less: (Edit<char>, Edit<char>) -> bool) {
    Asymmetric(less) && forall a, b, c :: !less(a, b) && !less(b, c) ==> !less(a, c)
  }

  function NotAfter(less: (Edit<char>, Edit<char>) -> bool): (Edit<char>, Edit<char>) -> bool {
    (a: Edit<char>, b: Edit<char>) => !less(b, a)
  }

  lemma SortAscends(less: (Edit<char>, Edit<char>) -> bool, s: seq<Edit<char>>)
    requires StrictWeak(less)
    ensures SortedBy(NotAfter(less), SortBy(less, s))
  {
    SortsInto(less, NotAfter(less), s);
  }

  lemma {:induction false} InsertKept(less: (Edit<char>, Edit<char>) -> bool, f: Edit<char>, s: seq<Edit<char>>, x: Edit<char>, y: Edit<char>)
    requires StrictWeak(less) && SortedBy(NotAfter(less), s)
    ensures Kept(Insert(less, f, s), x, y) == if f == x || f == y then Insert(less, f, Kept(s, x, y)) else Kept(s, x, y)
  {
    if s == [] || !less(s[0], f) {
      KeptCons(f, s, x, y);
      FirstStays(less, f, s, Kept(s, x, y), x, y);
    } else {
      var rest := s[1..];
      assert s == [s[0]] + rest;
      InsertKept(less, f, rest, x, y);
      InsertBehind(less, f, s[0], rest);
      InsertBehind(less, f, s[0], Kept(rest, x, y));
      KeptCons(s[0], Insert(less, f, rest), x, y);
      KeptCons(s[0], rest, x, y);
    }
  }

  lemma InsertBehind(less: (Edit<char>, Edit<char>) -> bool, f: Edit<char>, first: Edit<char>, rest: seq<Edit<char>>)
    requires less(first, f)
    ensures Insert(less, f, [first] + rest) == [first] + Insert(less, f, rest)
  {
    assert ([first] + rest)[1..] == rest;
  }

  lemma SortBehind(less: (Edit<char>, Edit<char>) -> bool, first: Edit<char>, rest: seq<Edit<char>>)
    ensures SortBy(less, [first] + rest) == Insert(less, first, SortBy(less, rest))
  {
    assert ([first] + rest)[1..] == rest;
  }

  /** What goes before a whole sorted list goes before any part of it. */
  lemma FirstStays(less: (Edit<char>, Edit<char>) -> bool, f: Edit<char>, s: seq<Edit<char>>, part: seq<Edit<char>>, x: Edit<char>, y: Edit<char>)
    requires StrictWeak(less) && SortedBy(NotAfter(less), s) && (s == [] || !less(s[0], f)) && part == Kept(s, x, y)
    ensures Insert(less, f, part) == [f] + part
  {
    KeptItems(s, x, y);
    if part != [] {
      assert part[0] in part;
      var k :| 0 <= k < |s| && s[k] == part[0];
      assert k > 0 ==> NotAfter(less)(s[0], s[k]);
    }
  }

  /** Leaving all but two edits out and sorting is sorting and leaving them out. */
  lemma {:induction false} SortKept(less: (Edit<char>, Edit<char>) -> bool, s: seq<Edit<char>>, x: Edit<char>, y: Edit<char>)
    requires StrictWeak(less)
    ensures Kept(SortBy(less, s), x, y) == SortBy(less, Kept(s, x, y))
  {
    if s != [] {
      var first, rest := s[0], s[1..];
      assert s == [first] + rest;
      SortKept(less, rest, x, y);
      SortAscends(less, rest);
      SortBehind(less, first, rest);
      SortBehind(less, first, Kept(rest, x, y));
      InsertKept(less, first, SortBy(less, rest), x, y);
      KeptCons(first, rest, x, y);
    }
  }

  // -------------------------------------------------------------------------
  // Edits that write what stands there already
  // -------------------------------------------------------------------------

  predicate Neutral(content: string, e: Edit<char>) {
    e.start <= e.end <= |content| && e.replacement == content[e.start..e.end]
  }

  /** Neutral, unless it is one of the two, and not reaching beyond `p` if it starts up to there. */
  predicate Harmless(content: string, e: Edit<char>, x: Edit<char>, y: Edit<char>, p: nat) {
    e == x || e == y || (Neutral(content, e) && (e.start <= p ==> e.end <= p))
  }

  predicate AllHarmless(content: string, s: seq<Edit<char>>, x: Edit<char>, y: Edit<char>, p: nat) {
    forall k :: 0 <= k < |s| ==> Harmless(content, s[k], x, y, p)
  }

  lemma HarmlessRest(content: string, s: seq<Edit<char>>, x: Edit<char>, y: Edit<char>, p: nat)
    requires s != [] && AllHarmless(content, s, x, y, p)
    ensures AllHarmless(content, s[1..], x, y, p) && AllHarmless(content, s[..|s| - 1], x, y, p)
  {
  }

  /** What the kept edits build, and the text behind them that is copied. */
  predicate SameBuilt(content: string, s: seq<Edit<char>>, kept: seq<Edit<char>>)
    requires Fits(content, s)
  {
    && Fits(content, kept) && EndOf(kept) <= EndOf(s) <= |content|
    && Built(content, s) == Built(content, kept) + content[EndOf(kept)..EndOf(s)]
  }

  lemma ForwardNeutral(content: string, before: seq<Edit<char>>, last: Edit<char>, kept: seq<Edit<char>>)
    requires Fits(content, before) && Fits(content, before + [last]) && SameBuilt(content, before, kept) && Neutral(content, last)
    ensures SameBuilt(content, before + [last], kept)
  {
    var all := before + [last];
    assert all[..|all| - 1] == before;
    Glue(Built(content, kept), content, EndOf(kept), EndOf(before), last.start);
    Glue(Built(content, kept), content, EndOf(kept), last.start, last.end);
  }

  lemma ForwardSame(content: string, before: seq<Edit<char>>, last: Edit<char>, kept: seq<Edit<char>>)
    requires Fits(content, before) && Fits(content, before + [last]) && SameBuilt(content, before, kept)
    ensures SameBuilt(content, before + [last], kept + [last])
  {
    var all, both := before + [last], kept + [last];
    assert all[..|all| - 1] == before && both[..|both| - 1] == kept;
    Glue(Built(content, kept), content, EndOf(kept), EndOf(before), last.start);
    assert content[last.end..last.end] == [];
  }

  lemma {:induction false} ForwardKept(content: string, s: seq<Edit<char>>, x: Edit<char>, y: Edit<char>, p: nat)
    requires Fits(content, s) && AllHarmless(content, s, x, y, p)
    ensures SameBuilt(content, s, Kept(s, x, y))
  {
    if s != [] {
      var before, last := s[..|s| - 1], s[|s| - 1];
      HarmlessRest(content, s, x, y, p);
      ForwardKept(content, before, x, y, p);
      assert s == before + [last];
      KeptSnoc(before, last, x, y);
      if last == x || last == y { ForwardSame(content, before, last, Kept(before, x, y)); }
      else { ForwardNeutral(content, before, last, Kept(before, x, y)); }
    }
  }

  lemma Glue(text: string, content: string, i: nat, j: nat, k: nat)
    requires i <= j <= k <= |content|
    ensures text + content[i..j] + content[j..k] == text + content[i..k]
  {
  }

  lemma NeutralReplace(text: string, e: Edit<char>)
    requires Neutral(text, e)
    ensures ReplaceRange(text, e) == text
  {
  }

  lemma NeutralPrefix(content: string, text: string, e: Edit<char>, p: nat)
    requires p <= |content| && p <= |text| && text[..p] == content[..p] && Neutral(content, e) && e.end <= p
    ensures ReplaceRange(text, e) == text
  {
    assert text[e.start..e.end] == text[..p][e.start..e.end] && content[e.start..e.end] == content[..p][e.start..e.end];
    NeutralReplace(text, e);
  }

  lemma PrefixStays(text: string, e: Edit<char>, p: nat)
    requires e.start == p <= |text|
    ensures p <= |ReplaceRange(text, e)| && ReplaceRange(text, e)[..p] == text[..p]
  {
  }

  predicate StartsUpTo(s: seq<Edit<char>>, p: nat) { forall k :: 0 <= k < |s| ==> s[k].start <= p }

  /** From where ranges start at `p` or before, only the two edits change the text. */
  lemma {:induction false} BackKept(content: string, text: string, s: seq<Edit<char>>, x: Edit<char>, y: Edit<char>, p: nat)
    requires p <= |content| && p <= |text| && text[..p] == content[..p] && x.start == y.start == p
    requires AllHarmless(content, s, x, y, p) && StartsUpTo(s, p)
    ensures BackToFront(text, s) == BackToFront(text, Kept(s, x, y))
    decreases |s|
  {
    if s != [] {
      var first, rest := s[0], s[1..];
      assert s == [first] + rest && Harmless(content, s[0], x, y, p);
      HarmlessRest(content, s, x, y, p);
      KeptCons(first, rest, x, y);
      BackToFrontFirst(text, first, rest);
      if first == x || first == y {
        PrefixStays(text, first, p);
        BackKept(content, ReplaceRange(text, first), rest, x, y, p);
        BackToFrontFirst(text, first, Kept(rest, x, y));
      } else {
        NeutralPrefix(content, text, first, p);
        BackKept(content, text, rest, x, y, p);
        }
    }
  }

  lemma {:induction false} BackwardKept(content: string, s: seq<Edit<char>>, x: Edit<char>, y: Edit<char>, p: nat)
    requires p <= |content| && x.start == y.start == p && AllHarmless(content, s, x, y, p) && SortedBy(NotAfter(StartsAfter), s)
    ensures BackToFront(content, s) == BackToFront(content, Kept(s, x, y))
    decreases |s|
  {
    if s != [] && s[0].start > p {
      var first, rest := s[0], s[1..];
      assert s == [first] + rest && Harmless(content, s[0], x, y, p);
      HarmlessRest(content, s, x, y, p);
      SortedRest(s);
      KeptCons(first, rest, x, y);
      BackToFrontFirst(content, first, rest);
      NeutralReplace(content, first);
      BackwardKept(content, rest, x, y, p);
    } else {
      forall k | 0 <= k < |s| ensures s[k].start <= p { assert k > 0 ==> NotAfter(StartsAfter)(s[0], s[k]); }
      BackKept(content, content, s, x, y, p);
    }
  }

  lemma SortedRest(s: seq<Edit<char>>)
    requires s != [] && SortedBy(NotAfter(StartsAfter), s)
    ensures SortedBy(NotAfter(StartsAfter), s[1..])
  {
  }

  lemma OrdersAreWeak()
    ensures StrictWeak(Before) && StrictWeak(StartsBefore) && StrictWeak(StartsAfter)
  {
  }

  /** With all but two edits neutral, the passes give different texts if they do so for the two alone. */
  lemma PairDecides(content: string, edits: seq<Edit<char>>, x: Edit<char>, y: Edit<char>, p: nat)
    requires AllHarmless(content, edits, x, y, p) && Kept(edits, x, y) == [x, y]
    requires x.start == x.end == y.start == p && p <= y.end <= |content|
    requires Fits(content, [x, y]) && BackToFront(content, [x, y]) != Spliced(content, [x, y])
    ensures !PassesAgreeOn(content, edits)
  {
    OrdersAreWeak();
    SortKept(StartsAfter, edits, x, y);
    SortOfTwo(StartsAfter, x, y);
    SortAscends(StartsAfter, edits);
    HarmlessSorted(StartsAfter, content, edits, x, y, p);
    BackwardKept(content, SortBy(StartsAfter, edits), x, y, p);
    if Fits(content, SortBy(Before, edits)) { PairForward(content, edits, x, y, p); }
  }

  lemma PairForward(content: string, edits: seq<Edit<char>>, x: Edit<char>, y: Edit<char>, p: nat)
    requires AllHarmless(content, edits, x, y, p) && Kept(edits, x, y) == [x, y] && Fits(content, SortBy(Before, edits))
    requires x.start == x.end == y.start == p && p <= y.end <= |content| && Fits(content, [x, y])
    ensures Spliced(content, SortBy(Before, edits)) == Spliced(content, [x, y])
  {
    var asc := SortBy(Before, edits);
    OrdersAreWeak();
    SortKept(Before, edits, x, y);
    SortOfTwo(Before, x, y);
    HarmlessSorted(Before, content, edits, x, y, p);
    ForwardKept(content, asc, x, y, p);
    SameSpliced(content, asc, [x, y]);
  }

  lemma SameSpliced(content: string, s: seq<Edit<char>>, kept: seq<Edit<char>>)
    requires Fits(content, s) && SameBuilt(content, s, kept)
    ensures Spliced(content, s) == Spliced(content, kept)
  {
    Glue(Built(content, kept), content, EndOf(kept), EndOf(s), |content|);
    assert content[EndOf(s)..] == content[EndOf(s)..|content|] && content[EndOf(kept)..] == content[EndOf(kept)..|content|];
  }

  lemma HarmlessSorted(less: (Edit<char>, Edit<char>) -> bool, content: string, s: seq<Edit<char>>, x: Edit<char>, y: Edit<char>, p: nat)
    requires AllHarmless(content, s, x, y, p)
    ensures AllHarmless(content, SortBy(less, s), x, y, p)
  {
    var sorted := SortBy(less, s);
    SortItems(less, s);
    forall k | 0 <= k < |sorted| ensures Harmless(content, sorted[k], x, y, p) {
      assert sorted[k] in multiset(sorted);
      var i :| 0 <= i < |s| && s[i] == sorted[k];
    }
  }

  // -------------------------------------------------------------------------
  // Remainders
  // -------------------------------------------------------------------------

  function Sizes(s: seq<Edit<char>>): int {
    if s == [] then 0 else Sizes(s[..|s| - 1]) + (s[|s| - 1].end - s[|s| - 1].start)
  }

  lemma {:induction false} SizesCons(first: Edit<char>, rest: seq<Edit<char>>)
    ensures Sizes([first] + rest) == first.end - first.start + Sizes(rest)
  {
    if rest == [] {
      assert [first] + rest == [first] && [first][..0] == [];
    } else {
      assert ([first] + rest)[..|rest|] == [first] + rest[..|rest| - 1];
      SizesCons(first, rest[..|rest| - 1]);
    }
  }

  lemma {:induction false} InsertSizes(less: (Edit<char>, Edit<char>) -> bool, f: Edit<char>, s: seq<Edit<char>>)
    ensures Sizes(Insert(less, f, s)) == f.end - f.start + Sizes(s)
  {
    SizesCons(f, s);
    if s != [] && less(s[0], f) {
      assert s == [s[0]] + s[1..];
      SizesCons(s[0], s[1..]);
      InsertSizes(less, f, s[1..]);
      SizesCons(s[0], Insert(less, f, s[1..]));
    }
  }

  lemma {:induction false} SortSizes(less: (Edit<char>, Edit<char>) -> bool, s: seq<Edit<char>>)
    ensures Sizes(SortBy(less, s)) == Sizes(s)
  {
    if s != [] {
      assert s == [s[0]] + s[1..];
      SizesCons(s[0], s[1..]);
      SortSizes(less, s[1..]);
      InsertSizes(less, s[0], SortBy(less, s[1..]));
    }
  }

  lemma {:induction false} SparedLength(content: string, s: seq<Edit<char>>)
    requires Fits(content, s)
    ensures EndOf(s) <= |content| && |Spared(content, s)| == EndOf(s) - Sizes(s)
  {
    if s != [] { SparedLength(content, s[..|s| - 1]); }
  }

  /** Some range starts before the one listed before it ends. */
  predicate GoesBack(s: seq<Edit<char>>) { exists k :: 0 < k < |s| && BackAt(s, k) }

  predicate BackAt(s: seq<Edit<char>>, k: nat)
    requires 0 < k < |s|
  {
    s[k].start < s[k - 1].end
  }

  /** The collected remainder is never too short, and too long exactly when the ranges go back. */
  lemma {:induction false} CollectedLength(content: string, s: seq<Edit<char>>)
    requires InRange(content, s)
    ensures |Collected(content, s)| >= EndOf(s) - Sizes(s)
    ensures GoesBack(s) ==> |Collected(content, s)| > EndOf(s) - Sizes(s)
  {
    if s != [] {
      var before := s[..|s| - 1];
      CollectedLength(content, before);
      if GoesBack(s) {
        var k :| 0 < k < |s| && BackAt(s, k);
        if k < |s| - 1 { assert BackAt(before, k); }
      }
    }
  }

  /** A remainder that is too long is not the one the forward pass keeps. */
  lemma GoingBackDisagrees(content: string, edits: seq<Edit<char>>)
    requires InRange(content, edits) && GoesBack(SortBy(StartsBefore, edits))
    ensures !PassesAgreeOn(content, edits)
  {
    var asc, plain := SortBy(Before, edits), SortBy(StartsBefore, edits);
    SortSizes(Before, edits);
    SortSizes(StartsBefore, edits);
    SortedInRange(content, edits);
    CollectedLength(content, plain);
    if Fits(content, asc) { SparedLength(content, asc); }
  }

  lemma SortedInRange(content: string, edits: seq<Edit<char>>)
    requires InRange(content, edits)
    ensures InRange(content, SortBy(StartsBefore, edits))
  {
    var plain := SortBy(StartsBefore, edits);
    SortItems(StartsBefore, edits);
    forall k | 0 <= k < |plain| ensures plain[k].start <= plain[k].end <= |content| {
      assert plain[k] in multiset(plain);
      assert plain[k] in edits;
    }
  }

  // -------------------------------------------------------------------------
  // Two of many
  // -------------------------------------------------------------------------

  lemma {:induction false} KeptNone(s: seq<Edit<char>>, x: Edit<char>, y: Edit<char>)
    requires forall k :: 0 <= k < |s| ==> s[k] != x && s[k] != y
    ensures Kept(s, x, y) == []
  {
    if s != [] { KeptNone(s[..|s| - 1], x, y); }
  }

  lemma {:induction false} KeptOne(s: seq<Edit<char>>, j: nat, x: Edit<char>, y: Edit<char>)
    requires j < |s| && s[j] == y && forall k :: 0 <= k < |s| && k != j ==> s[k] != x && s[k] != y
    ensures Kept(s, x, y) == [y]
  {
    var rest := s[1..];
    assert s == [s[0]] + rest;
    KeptCons(s[0], rest, x, y);
    if j == 0 { KeptNone(rest, x, y); } else { KeptOne(rest, j - 1, x, y); }
  }

  lemma {:induction false} KeptTwo(s: seq<Edit<char>>, i: nat, j: nat, x: Edit<char>, y: Edit<char>)
    requires i < j < |s| && s[i] == x && s[j] == y
    requires forall k :: 0 <= k < |s| && k != i && k != j ==> s[k] != x && s[k] != y
    ensures Kept(s, x, y) == [x, y]
  {
    var rest := s[1..];
    assert s == [s[0]] + rest;
    KeptCons(s[0], rest, x, y);
    if i == 0 { KeptOne(rest, j - 1, x, y); } else { KeptTwo(rest, i - 1, j - 1, x, y); }
  }

  lemma LastOfTwo(before: seq<Edit<char>>, last: Edit<char>, x: Edit<char>, y: Edit<char>)
    requires before + [last] == [x, y]
    ensures before == [x] && last == y
  {
    assert |before + [last]| == |before| + 1 == 2;
    assert (before + [last])[1] == last && (before + [last])[0] == before[0];
  }

  lemma {:induction false} KeptOrder(s: seq<Edit<char>>, x: Edit<char>, y: Edit<char>) returns (u: nat, v: nat)
    requires x != y && Kept(s, x, y) == [x, y]
    ensures u < v < |s| && s[u] == x && s[v] == y
  {
    var n := |s| - 1;
    var before := Kept(s[..n], x, y);
    assert s == s[..n] + [s[n]];
    KeptSnoc(s[..n], s[n], x, y);
    if s[n] == x || s[n] == y {
      LastOfTwo(before, s[n], x, y);
      KeptItems(s[..n], x, y);
      assert x in before;
      u :| 0 <= u < n && s[..n][u] == x;
      v := n;
    } else {
      u, v := KeptOrder(s[..n], x, y);
    }
  }

  // -------------------------------------------------------------------------
  // Ties
  // -------------------------------------------------------------------------

  /** A range listed before an insertion at its start: the remainder goes back, whatever the texts. */
  lemma RangeFirst(content: string, edits: seq<Edit<char>>, a: nat, b: nat) returns (texts: seq<string>)
    requires InRange(content, edits) && Disjoint(edits) && a < b < |edits| && edits[a].start == edits[b].start < edits[a].end
    ensures |texts| == |edits| && !PassesAgreeOn(content, With(edits, texts))
  {
    texts := seq(|edits|, k requires 0 <= k < |edits| => if k == b then "x" else []);
    var marked := With(edits, texts);
    var x, y, p := marked[a], marked[b], edits[a].start;
    assert y.end == p;
    forall k | 0 <= k < |marked| && k != a && k != b ensures marked[k] != x && marked[k] != y {
      assert edits[k].end <= edits[a].start || edits[a].end <= edits[k].start;
    }
    KeptTwo(marked, a, b, x, y);
    OrdersAreWeak();
    SortKept(StartsBefore, marked, x, y);
    SortOfTwo(StartsBefore, x, y);
    SortAscends(StartsBefore, marked);
    var plain := SortBy(StartsBefore, marked);
    var u, v := KeptOrder(plain, x, y);
    assert u + 1 < v ==> NotAfter(StartsBefore)(plain[u + 1], plain[v]);
    assert BackAt(plain, u + 1);
    GoingBackDisagrees(content, marked);
  }

  /** The texts that tell two edits apart while every other one writes what stands there. */
  function TieTexts(content: string, edits: seq<Edit<char>>, i: nat, j: nat): seq<string>
    requires InRange(content, edits) && i < |edits| && j < |edits|
  {
    var range := edits[j].end > edits[j].start;
    var first := if range && content[edits[j].end - 1] == 'x' then "z" else "x";
    seq(|edits|, k requires 0 <= k < |edits| =>
      if k == i then first else if k == j then (if range then [] else "y") else content[edits[k].start..edits[k].end])
  }

  /** An insertion listed before another edit at its place, the only range there, if it is one. */
  lemma InsertionFirst(content: string, edits: seq<Edit<char>>, i: nat, j: nat)
    requires InRange(content, edits) && Disjoint(edits) && i < j < |edits| && edits[i].end == edits[i].start == edits[j].start
    requires forall k :: 0 <= k < |edits| && k != i && k != j && edits[k].start == edits[i].start ==> edits[k].end == edits[i].start
    ensures !PassesAgreeOn(content, With(edits, TieTexts(content, edits, i, j)))
  {
    var marked := With(edits, TieTexts(content, edits, i, j));
    var x, y, p := marked[i], marked[j], edits[i].start;
    forall k | 0 <= k < |marked| && k != i && k != j ensures marked[k] != x && marked[k] != y {}
    KeptTwo(marked, i, j, x, y);
    forall k | 0 <= k < |marked| ensures Harmless(content, marked[k], x, y, p) {
      if k != i && k != j { assert edits[k].end <= edits[i].start || edits[i].end <= edits[k].start; }
    }
    InsertionBeforeEdit(content, x, y);
    PairDecides(content, marked, x, y, p);
  }

  /** Where starts coincide, some texts make the passes differ. */
  lemma TieDisagrees(content: string, edits: seq<Edit<char>>) returns (texts: seq<string>)
    requires InRange(content, edits) && Disjoint(edits) && !DistinctStarts(edits)
    ensures |texts| == |edits| && !PassesAgreeOn(content, With(edits, texts))
  {
    var i, j :| 0 <= i < j < |edits| && edits[i].start == edits[j].start;
    if edits[i].end > edits[i].start {
      texts := RangeFirst(content, edits, i, j);
    } else if k :| 0 <= k < |edits| && k != i && edits[k].start == edits[i].start && edits[k].end > edits[k].start {
      if k < i {
        texts := RangeFirst(content, edits, k, i);
      } else {
        OneRange(edits, k);
        texts := TieTexts(content, edits, i, k);
        InsertionFirst(content, edits, i, k);
      }
    } else {
      texts := TieTexts(content, edits, i, j);
      InsertionFirst(content, edits, i, j);
    }
  }

  /** Disjoint ranges that are not empty do not share a start. */
  lemma OneRange(edits: seq<Edit<char>>, k: nat)
    requires Disjoint(edits) && k < |edits| && edits[k].end > edits[k].start
    ensures forall l :: 0 <= l < |edits| && l != k && edits[l].start == edits[k].start ==> edits[l].end <= edits[k].start
  {
  }

  /** For disjoint ranges both passes agree, whatever the texts, exactly when no two ranges share a start. */
  lemma AgreeIffDistinctStarts(content: string, edits: seq<Edit<char>>)
    requires InRange(content, edits) && Disjoint(edits)
    ensures DistinctStarts(edits) <==> forall texts :: |texts| == |edits| ==> PassesAgreeOn(content, With(edits, texts))
  {
    if DistinctStarts(edits) {
      forall texts | |texts| == |edits| ensures PassesAgreeOn(content, With(edits, texts)) {
        PassesAgree(content, With(edits, texts));
      }
    } else {
      var texts := TieDisagrees(content, edits);
      assert !PassesAgreeOn(content, With(edits, texts));
    }
  }

  /** Two insertions at one place: the forward pass writes them in list order, the backward one the other way round. */
  lemma TwoInsertions()
    ensures var edits := [Edit(0, 0, "a"), Edit(0, 0, "b")];
            && Fits("", SortBy(Before, edits)) && Spliced("", SortBy(Before, edits)) == "ab"
            && BackToFront("", SortBy(StartsAfter, edits)) == "ba"
  {
    var a, b: Edit<char> := Edit(0, 0, "a"), Edit(0, 0, "b");
    SortOfTwo(Before, a, b);
    SortOfTwo(StartsAfter, a, b);
    TwoForward("", a, b);
    TwoBackward("", a, b);
  }
}
