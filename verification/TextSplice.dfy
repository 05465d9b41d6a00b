/** Replacing ranges of a text: one pass forward with a cursor, or edit by edit from the back. */
module TextSplice {
  import opened Options
  import opened StableSort

  datatype Edit<T> = Edit(start: nat, end: nat, replacement: seq<T>)

  predicate InRange<T>(content: seq<T>, edits: seq<Edit<T>>) {
    forall i :: 0 <= i < |edits| ==> edits[i].start <= edits[i].end <= |content|
  }

  predicate Disjoint<T>(edits: seq<Edit<T>>) {
    forall i, j :: 0 <= i < j < |edits| ==> edits[i].end <= edits[j].start || edits[j].end <= edits[i].start
  }

  predicate DistinctStarts<T>(edits: seq<Edit<T>>) {
    forall i, j :: 0 <= i < j < |edits| ==> edits[i].start != edits[j].start
  }

  predicate Before<T>(a: Edit<T>, b: Edit<T>) { a.start < b.start || (a.start == b.start && a.end < b.end) }

  predicate StartsBefore<T>(a: Edit<T>, b: Edit<T>) { a.start < b.start }

  predicate StartsAfter<T>(a: Edit<T>, b: Edit<T>) { a.start > b.start }

  function EndOf<T>(edits: seq<Edit<T>>): nat { if edits == [] then 0 else edits[|edits| - 1].end }

  /** Edits listed in the order of their ranges, none of which goes back into the one before. */
  predicate Fits<T>(content: seq<T>, edits: seq<Edit<T>>) {
    if edits == [] then true
    else
      var before, last := edits[..|edits| - 1], edits[|edits| - 1];
      Fits(content, before) && EndOf(before) <= last.start <= last.end <= |content|
  }

  /** The new text up to the end of the last range. */
  function Built<T>(content: seq<T>, edits: seq<Edit<T>>): seq<T>
    requires Fits(content, edits)
  {
    if edits == [] then []
    else
      var before, last := edits[..|edits| - 1], edits[|edits| - 1];
      Built(content, before) + content[EndOf(before)..last.start] + last.replacement
  }

  function Spliced<T>(content: seq<T>, edits: seq<Edit<T>>): seq<T>
    requires Fits(content, edits)
  {
    Built(content, edits) + content[EndOf(edits)..]
  }

  /** What lies outside every range, up to the end of the last one. */
  function Spared<T>(content: seq<T>, edits: seq<Edit<T>>): seq<T>
    requires Fits(content, edits)
  {
    if edits == [] then []
    else
      var before, last := edits[..|edits| - 1], edits[|edits| - 1];
      Spared(content, before) + content[EndOf(before)..last.start]
  }

  function Untouched<T>(content: seq<T>, edits: seq<Edit<T>>): seq<T>
    requires Fits(content, edits)
  {
    Spared(content, edits) + content[EndOf(edits)..]
  }

  /** Slices as the language takes them: bounds beyond the text are its end, and a backward range is empty. */
  function Slice<T>(s: seq<T>, from: nat, to: nat): seq<T> {
    if to <= |s| then (if from <= to then s[from..to] else []) else if from <= |s| then s[from..] else []
  }

  function ReplaceRange<T>(content: seq<T>, edit: Edit<T>): seq<T> {
    Slice(content, 0, edit.start) + edit.replacement + Slice(content, edit.end, |content|)
  }

  function BackToFront<T>(content: seq<T>, edits: seq<Edit<T>>): seq<T>
    decreases |edits|
  {
    if edits == [] then content else ReplaceRange(BackToFront(content, edits[..|edits| - 1]), edits[|edits| - 1])
  }

  /** The remainder as the base compiler collects it, without looking for overlaps, up to the last edit. */
  function Collected<T>(content: seq<T>, edits: seq<Edit<T>>): seq<T> {
    if edits == [] then []
    else Collected(content, edits[..|edits| - 1]) + Slice(content, EndOf(edits[..|edits| - 1]), edits[|edits| - 1].start)
  }

  // -------------------------------------------------------------------------
  // The loops
  // -------------------------------------------------------------------------

  lemma {:induction false} FitsPrefix<T>(content: seq<T>, edits: seq<Edit<T>>, n: nat)
    requires n <= |edits| && Fits(content, edits)
    ensures Fits(content, edits[..n]) && EndOf(edits[..n]) <= EndOf(edits) <= |content|
    decreases |edits|
  {
    if n == |edits| {
      assert edits[..n] == edits;
    } else {
      assert edits[..|edits| - 1][..n] == edits[..n];
      FitsPrefix(content, edits[..|edits| - 1], n);
    }
  }

  /** The forward pass: refuses overlapping ranges, and otherwise builds the new text and the remainder together. */
  method ApplyForward<T>(content: seq<T>, edits: seq<Edit<T>>) returns (r: Option<(seq<T>, seq<T>)>)
    requires InRange(content, edits)
    ensures r.Some? <==> Fits(content, SortBy(Before, edits))
    ensures r.Some? ==> r.value == (Spliced(content, SortBy(Before, edits)), Untouched(content, SortBy(Before, edits)))
  {
    var ascending := SortBy(Before, edits);
    SortItems(Before, edits);
    var cursor := 0;
    var next: seq<T>, untouched: seq<T> := [], [];
    var i := 0;
    while i < |ascending|
      invariant 0 <= i <= |ascending|
      invariant Fits(content, ascending[..i]) && cursor == EndOf(ascending[..i]) <= |content|
      invariant next == Built(content, ascending[..i]) && untouched == Spared(content, ascending[..i])
    {
      var edit := ascending[i];
      assert ascending[..i + 1][..i] == ascending[..i];
      assert edit in multiset(ascending);
      if edit.start < cursor {
        if Fits(content, ascending) { FitsPrefix(content, ascending, i + 1); }
        return None;
      }
      untouched := untouched + content[cursor..edit.start];
      next := next + content[cursor..edit.start] + edit.replacement;
      cursor := edit.end;
      i := i + 1;
    }
    assert ascending[..i] == ascending;
    r := Some((next + content[cursor..], untouched + content[cursor..]));
  }

  /** The backward pass: each range is replaced in the text that already holds the later replacements. */
  method ApplyBackward<T>(content: seq<T>, edits: seq<Edit<T>>) returns (next: seq<T>)
    ensures next == BackToFront(content, SortBy(StartsAfter, edits))
  {
    var descending := SortBy(StartsAfter, edits);
    next := content;
    var i := 0;
    while i < |descending|
      invariant 0 <= i <= |descending| && next == BackToFront(content, descending[..i])
    {
      assert descending[..i + 1][..i] == descending[..i];
      next := Slice(next, 0, descending[i].start) + descending[i].replacement + Slice(next, descending[i].end, |next|);
      i := i + 1;
    }
    assert descending[..i] == descending;
  }

  method UntouchedSource<T>(content: seq<T>, edits: seq<Edit<T>>) returns (rest: seq<T>)
    ensures rest == Collected(content, SortBy(StartsBefore, edits)) + Slice(content, EndOf(SortBy(StartsBefore, edits)), |content|)
  {
    var ascending := SortBy(StartsBefore, edits);
    var cursor := 0;
    rest := [];
    var i := 0;
    while i < |ascending|
      invariant 0 <= i <= |ascending| && cursor == EndOf(ascending[..i]) && rest == Collected(content, ascending[..i])
    {
      assert ascending[..i + 1][..i] == ascending[..i];
      rest := rest + Slice(content, cursor, ascending[i].start);
      cursor := ascending[i].end;
      i := i + 1;
    }
    assert ascending[..i] == ascending;
    rest := rest + Slice(content, cursor, |content|);
  }

  // -------------------------------------------------------------------------
  // Both passes agree
  // -------------------------------------------------------------------------

  /** Replacing the last range first does not disturb what is built before it. */
  lemma {:induction false} BuiltBefore<T>(content: seq<T>, other: seq<T>, edits: seq<Edit<T>>, n: nat)
    requires Fits(content, edits) && EndOf(edits) <= n <= |content| && n <= |other| && content[..n] == other[..n]
    ensures Fits(other, edits) && Built(other, edits) == Built(content, edits)
  {
    if edits != [] {
      var before, last := edits[..|edits| - 1], edits[|edits| - 1];
      BuiltBefore(content, other, before, n);
      assert content[EndOf(before)..last.start] == content[..n][EndOf(before)..last.start];
      assert other[EndOf(before)..last.start] == other[..n][EndOf(before)..last.start];
    }
  }

  lemma {:induction false} BackToFrontFirst<T>(content: seq<T>, first: Edit<T>, rest: seq<Edit<T>>)
    ensures BackToFront(content, [first] + rest) == BackToFront(ReplaceRange(content, first), rest)
    decreases |rest|
  {
    var all := [first] + rest;
    if rest == [] {
      assert all[..0] == [];
      assert BackToFront(content, all[..0]) == content;
    } else {
      assert all[..|all| - 1] == [first] + rest[..|rest| - 1];
      BackToFrontFirst(content, first, rest[..|rest| - 1]);
    }
  }

  /** Replacing the last range first and then splicing the others is splicing all of them. */
  lemma ReplaceLast<T>(content: seq<T>, edits: seq<Edit<T>>)
    requires Fits(content, edits) && edits != []
    ensures var before, replaced := edits[..|edits| - 1], ReplaceRange(content, edits[|edits| - 1]);
            Fits(replaced, before) && Spliced(replaced, before) == Spliced(content, edits)
  {
    var before, last := edits[..|edits| - 1], edits[|edits| - 1];
    var replaced := ReplaceRange(content, last);
    assert replaced[..last.start] == content[..last.start];
    BuiltBefore(content, replaced, before, last.start);
    TailOfReplaced(content, last, EndOf(before));
  }

  lemma TailOfReplaced<T>(content: seq<T>, edit: Edit<T>, from: nat)
    requires from <= edit.start <= edit.end <= |content|
    ensures |ReplaceRange(content, edit)| >= from
    ensures ReplaceRange(content, edit)[from..] == content[from..edit.start] + edit.replacement + content[edit.end..]
  {
    assert ReplaceRange(content, edit) == content[..from] + (content[from..edit.start] + edit.replacement + content[edit.end..]);
  }

  /** From the back, ranges in order give the same text as one pass forward. */
  lemma {:induction false} BackwardIsForward<T>(content: seq<T>, edits: seq<Edit<T>>)
    requires Fits(content, edits)
    ensures BackToFront(content, Reverse(edits)) == Spliced(content, edits)
    decreases |edits|
  {
    if edits != [] {
      var before, last := edits[..|edits| - 1], edits[|edits| - 1];
      ReverseSnoc(before, last);
      assert edits == before + [last];
      BackToFrontFirst(content, last, Reverse(before));
      ReplaceLast(content, edits);
      BackwardIsForward(ReplaceRange(content, last), before);
    }
  }

  lemma {:induction false} ReverseSnoc<A>(s: seq<A>, last: A)
    ensures Reverse(s + [last]) == [last] + Reverse(s)
  {
    if s != [] {
      assert (s + [last])[1..] == s[1..] + [last];
      ReverseSnoc(s[1..], last);
    }
  }

  lemma {:induction false} CollectedIsSpared<T>(content: seq<T>, edits: seq<Edit<T>>)
    requires Fits(content, edits)
    ensures Collected(content, edits) == Spared(content, edits)
  {
    if edits != [] { CollectedIsSpared(content, edits[..|edits| - 1]); }
  }

  /** Ranges with distinct starts that do not overlap fit once they are in order. */
  lemma {:induction false} OrderedFit<T>(content: seq<T>, edits: seq<Edit<T>>)
    requires InRange(content, edits) && Disjoint(edits) && SortedBy(StartsBefore, edits)
    ensures Fits(content, edits)
  {
    if edits != [] {
      var n := |edits| - 1;
      assert edits[..n] == edits[..n];
      OrderedFit(content, edits[..n]);
      if n > 0 { assert StartsBefore(edits[n - 1], edits[n]) && edits[n - 1].start <= edits[n - 1].end; }
    }
  }

  /** Edits with distinct starts have one order, which every one of the three sorts finds. */
  lemma SortsAgree<T(!new)>(edits: seq<Edit<T>>)
    requires DistinctStarts(edits)
    ensures SortedBy(StartsBefore, SortBy(Before, edits))
    ensures SortBy(StartsBefore, edits) == SortBy(Before, edits)
    ensures SortBy(StartsAfter, edits) == Reverse(SortBy(Before, edits))
  {
    SortsInto(Before, StartsBefore, edits);
    SortsInto(StartsBefore, StartsBefore, edits);
    SortsInto(StartsAfter, StartsAfter, edits);
    SortItems(Before, edits);
    SortItems(StartsBefore, edits);
    SortItems(StartsAfter, edits);
    OneOrder(StartsBefore, SortBy(StartsBefore, edits), SortBy(Before, edits));
    var asc := SortBy(Before, edits);
    ReverseItems(asc);
    forall i, j | 0 <= i < j < |asc| ensures StartsAfter(Reverse(asc)[i], Reverse(asc)[j]) {
      assert StartsBefore(asc[|asc| - 1 - j], asc[|asc| - 1 - i]);
    }
    OneOrder(StartsAfter, SortBy(StartsAfter, edits), Reverse(asc));
  }

  lemma SortedDisjoint<T(!new)>(content: seq<T>, edits: seq<Edit<T>>)
    requires InRange(content, edits) && Disjoint(edits) && DistinctStarts(edits)
    ensures InRange(content, SortBy(Before, edits)) && Disjoint(SortBy(Before, edits))
  {
    SortsAgree(edits);
    SortItems(Before, edits);
    var asc := SortBy(Before, edits);
    forall i | 0 <= i < |asc| ensures asc[i] in edits { assert asc[i] in multiset(asc); }
    forall i, j | 0 <= i < j < |asc| ensures asc[i].end <= asc[j].start || asc[j].end <= asc[i].start {
      assert StartsBefore(asc[i], asc[j]) && asc[i] in edits && asc[j] in edits;
      ApartInList(edits, asc[i], asc[j]);
    }
  }

  lemma ApartInList<T>(edits: seq<Edit<T>>, a: Edit<T>, b: Edit<T>)
    requires Disjoint(edits) && a in edits && b in edits && a != b
    ensures a.end <= b.start || b.end <= a.start
  {
    var i :| 0 <= i < |edits| && edits[i] == a;
    var j :| 0 <= j < |edits| && edits[j] == b;
  }

  predicate PassesAgreeOn<T(==)>(content: seq<T>, edits: seq<Edit<T>>) {
    var asc, plain := SortBy(Before, edits), SortBy(StartsBefore, edits);
    && Fits(content, asc)
    && BackToFront(content, SortBy(StartsAfter, edits)) == Spliced(content, asc)
    && Collected(content, plain) + Slice(content, EndOf(plain), |content|) == Untouched(content, asc)
  }

  /** Disjoint ranges with distinct starts: both passes give the same text and the same remainder, and nothing is refused. */
  lemma PassesAgree<T(!new)>(content: seq<T>, edits: seq<Edit<T>>)
    requires InRange(content, edits) && Disjoint(edits) && DistinctStarts(edits)
    ensures PassesAgreeOn(content, edits)
  {
    var asc := SortBy(Before, edits);
    SortsAgree(edits);
    SortedDisjoint(content, edits);
    OrderedFit(content, asc);
    FitsPrefix(content, asc, |asc|);
    BackwardIsForward(content, asc);
    CollectedIsSpared(content, asc);
  }

  function Sorted2<T>(less: (Edit<T>, Edit<T>) -> bool, a: Edit<T>, b: Edit<T>): seq<Edit<T>> {
    if less(b, a) then [b, a] else [a, b]
  }

  lemma SortOfTwo<T>(less: (Edit<T>, Edit<T>) -> bool, a: Edit<T>, b: Edit<T>)
    ensures SortBy(less, [a, b]) == Sorted2(less, a, b)
  {
    assert [a, b][1..] == [b] && [b][1..] == [];
    assert SortBy(less, [b]) == Insert(less, b, SortBy(less, [])) == [b];
    assert Insert(less, a, [b]) == if less(b, a) then [b] + Insert(less, a, []) else [a, b];
  }

  lemma TwoBackward<T>(content: seq<T>, a: Edit<T>, b: Edit<T>)
    ensures BackToFront(content, [a, b]) == ReplaceRange(ReplaceRange(content, a), b)
  {
    BackToFrontFirst(content, a, [b]);
    BackToFrontFirst(ReplaceRange(content, a), b, []);
    assert [b] + [] == [b] && [a] + [b] == [a, b];
  }

  lemma TwoForward<T>(content: seq<T>, a: Edit<T>, b: Edit<T>)
    requires a.start <= a.end <= b.start <= b.end <= |content|
    ensures Fits(content, [a, b])
    ensures Spliced(content, [a, b]) == content[..a.start] + a.replacement + content[a.end..b.start] + b.replacement + content[b.end..]
  {
    assert [a, b][..1] == [a];
    OneForward(content, a);
    assert Built(content, [a, b]) == Built(content, [a]) + content[a.end..b.start] + b.replacement;
  }

  lemma OneForward<T>(content: seq<T>, a: Edit<T>)
    requires a.start <= a.end <= |content|
    ensures Fits(content, [a]) && Built(content, [a]) == content[..a.start] + a.replacement
  {
    assert [a][..0] == [];
  }

  /** From the back, the later edit replaces part of the insertion listed before it, or goes before it. */
  lemma InsertionBeforeEdit(content: string, a: Edit<char>, b: Edit<char>)
    requires a.start == a.end == b.start <= b.end <= |content| && |a.replacement| == 1
    requires if a.start == b.end then b.replacement != [] && b.replacement[0] != a.replacement[0]
             else b.replacement == [] && content[b.end - 1] != a.replacement[0]
    ensures Fits(content, [a, b]) && BackToFront(content, [a, b]) != Spliced(content, [a, b])
  {
    TwoForward(content, a, b);
    TwoBackward(content, a, b);
    TieBackward(content, a, b);
    assert Spliced(content, [a, b])[a.start] == a.replacement[0];
    assert BackToFront(content, [a, b])[a.start] != a.replacement[0];
  }

  /** What the backward pass makes of an insertion followed by another edit at the same place. */
  lemma TieBackward(content: string, a: Edit<char>, b: Edit<char>)
    requires a.start == a.end == b.start <= b.end <= |content| && |a.replacement| == 1
    ensures var r := ReplaceRange(ReplaceRange(content, a), b);
            r == content[..a.start] + b.replacement
                 + (if b.end == b.start then a.replacement + content[a.start..] else content[b.end - 1..])
  {
    var once := ReplaceRange(content, a);
    assert once == content[..a.start] + a.replacement + content[a.start..];
    assert once[..a.start] == content[..a.start];
  }

  // -------------------------------------------------------------------------
  // Every item outside the ranges is kept
  // -------------------------------------------------------------------------

  /** How far the text before position `k` has moved: the sizes gained and lost by ranges that end there or before. */
  function Shift<T>(edits: seq<Edit<T>>, k: nat): int {
    if edits == [] then 0
    else
      var last := edits[|edits| - 1];
      Shift(edits[..|edits| - 1], k) + (if last.end <= k then |last.replacement| - (last.end - last.start) else 0)
  }

  predicate Outside<T>(edits: seq<Edit<T>>, k: nat) {
    forall i :: 0 <= i < |edits| ==> k < edits[i].start || edits[i].end <= k
  }

  lemma {:induction false} FitsEnds<T>(content: seq<T>, edits: seq<Edit<T>>)
    requires Fits(content, edits)
    ensures EndOf(edits) <= |content| && forall i :: 0 <= i < |edits| ==> edits[i].start <= edits[i].end <= EndOf(edits)
  {
    if edits != [] { FitsEnds(content, edits[..|edits| - 1]); }
  }

  lemma {:induction false} ShiftAll<T>(content: seq<T>, edits: seq<Edit<T>>, k: nat)
    requires Fits(content, edits) && EndOf(edits) <= k
    ensures |Built(content, edits)| == EndOf(edits) + Shift(edits, k)
  {
    if edits != [] { ShiftAll(content, edits[..|edits| - 1], k); }
  }

  /** An item outside every range is in the new text, moved by what was gained and lost before it. */
  lemma OutsideKept<T>(content: seq<T>, edits: seq<Edit<T>>, k: nat)
    requires Fits(content, edits) && k < |content| && Outside(edits, k)
    ensures 0 <= k + Shift(edits, k) < |Spliced(content, edits)| && Spliced(content, edits)[k + Shift(edits, k)] == content[k]
  {
    FitsEnds(content, edits);
    if EndOf(edits) <= k { ShiftAll(content, edits, k); } else { OutsideBuilt(content, edits, k); }
  }

  lemma {:induction false} OutsideBuilt<T>(content: seq<T>, edits: seq<Edit<T>>, k: nat)
    requires Fits(content, edits) && k < EndOf(edits) && Outside(edits, k)
    ensures 0 <= k + Shift(edits, k) < |Built(content, edits)| && k < |content| && Built(content, edits)[k + Shift(edits, k)] == content[k]
  {
    FitsEnds(content, edits);
    var before, last := edits[..|edits| - 1], edits[|edits| - 1];
    if EndOf(before) <= k {
      ShiftAll(content, before, k);
    } else {
      OutsideBuilt(content, before, k);
    }
  }
}
