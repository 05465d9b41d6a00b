/** The stable sort every list of the program is ordered with, over an arbitrary strict order. */
module StableSort {
  ghost predicate Transitive<A(!new)>(order: (A, A) -> bool) {
    forall a, b, c :: order(a, b) && order(b, c) ==> order(a, c)
  }

  ghost predicate Asymmetric<A(!new)>(order: (A, A) -> bool) {
    forall a, b :: order(a, b) ==> !order(b, a)
  }

  predicate SortedBy<A>(order: (A, A) -> bool, s: seq<A>) {
    forall i, j :: 0 <= i < j < |s| ==> order(s[i], s[j])
  }

  /** Puts `x` before the first item that is not less than it. */
  function Insert<A>(less: (A, A) -> bool, x: A, s: seq<A>): seq<A> {
    if s == [] || !less(s[0], x) then [x] + s else [s[0]] + Insert(less, x, s[1..])
  }

  function SortBy<A>(less: (A, A) -> bool, s: seq<A>): seq<A> {
    if s == [] then [] else Insert(less, s[0], SortBy(less, s[1..]))
  }

  lemma {:induction false} InsertItems<A>(less: (A, A) -> bool, x: A, s: seq<A>)
    ensures multiset(Insert(less, x, s)) == multiset{x} + multiset(s)
  {
    if s != [] {
      assert s == [s[0]] + s[1..];
      if less(s[0], x) { InsertItems(less, x, s[1..]); }
    }
  }

  /** Sorting loses, adds and repeats nothing. */
  lemma {:induction false} SortItems<A>(less: (A, A) -> bool, s: seq<A>)
    ensures multiset(SortBy(less, s)) == multiset(s) && |SortBy(less, s)| == |s|
  {
    if s != [] {
      SortItems(less, s[1..]);
      InsertItems(less, s[0], SortBy(less, s[1..]));
      assert s == [s[0]] + s[1..];
      assert |SortBy(less, s)| == |multiset(SortBy(less, s))|;
    }
  }

  lemma SortedCons<A>(order: (A, A) -> bool, x: A, s: seq<A>)
    requires SortedBy(order, s) && forall y :: y in s ==> order(x, y)
    ensures SortedBy(order, [x] + s)
  {
  }

  lemma {:induction false} InsertSorted<A(!new)>(less: (A, A) -> bool, order: (A, A) -> bool, x: A, s: seq<A>)
    requires Transitive(order) && SortedBy(order, s)
    requires forall y :: y in s ==> if less(y, x) then order(y, x) else order(x, y)
    ensures SortedBy(order, Insert(less, x, s))
  {
    if s == [] || !less(s[0], x) {
      forall y | y in s ensures order(x, y) {
        var k :| 0 <= k < |s| && s[k] == y;
        assert order(x, s[0]) && (k > 0 ==> order(s[0], s[k]));
      }
      SortedCons(order, x, s);
    } else {
      var rest := s[1..];
      InsertSorted(less, order, x, rest);
      InsertItems(less, x, rest);
      forall y | y in Insert(less, x, rest) ensures order(s[0], y) {
        assert y in multiset(Insert(less, x, rest));
        if y != x { assert y in rest; }
      }
      SortedCons(order, s[0], Insert(less, x, rest));
    }
  }

  /** Items the sort compares, in either direction or as a tie kept in list order, come out in `order`. */
  lemma {:induction false} SortsInto<A(!new)>(less: (A, A) -> bool, order: (A, A) -> bool, s: seq<A>)
    requires Transitive(order)
    requires forall i, j :: 0 <= i < j < |s| ==> if less(s[j], s[i]) then order(s[j], s[i]) else order(s[i], s[j])
    ensures SortedBy(order, SortBy(less, s))
  {
    if s != [] {
      var rest := s[1..];
      assert forall i, j :: 0 <= i < j < |rest| ==> rest[i] == s[i + 1] && rest[j] == s[j + 1];
      SortsInto(less, order, rest);
      SortItems(less, rest);
      forall y | y in SortBy(less, rest) ensures if less(y, s[0]) then order(y, s[0]) else order(s[0], y) {
        assert y in multiset(SortBy(less, rest));
        assert y in rest;
        var k :| 0 <= k < |rest| && rest[k] == y;
        assert s[k + 1] == y;
      }
      InsertSorted(less, order, s[0], SortBy(less, rest));
    }
  }

  lemma SameFirst<A(!new)>(order: (A, A) -> bool, s: seq<A>, t: seq<A>)
    requires Asymmetric(order) && SortedBy(order, s) && SortedBy(order, t) && s != [] && t != [] && s[0] in t && t[0] in s
    ensures s[0] == t[0]
  {
    var i :| 0 <= i < |t| && t[i] == s[0];
    var j :| 0 <= j < |s| && s[j] == t[0];
    if i > 0 && j > 0 { assert false; }
  }

  /** Items in strict order can be listed in one way only. */
  lemma {:induction false} OneOrder<A(!new)>(order: (A, A) -> bool, s: seq<A>, t: seq<A>)
    requires Asymmetric(order) && SortedBy(order, s) && SortedBy(order, t) && multiset(s) == multiset(t)
    ensures s == t
  {
    assert |t| == |multiset(t)| && |s| == |multiset(s)|;
    if s != [] {
      assert s[0] in multiset(t) && t[0] in multiset(s);
      SameFirst(order, s, t);
      SortedTail(order, s);
      SortedTail(order, t);
      TailItems(s);
      TailItems(t);
      OneOrder(order, s[1..], t[1..]);
    }
  }

  lemma TailItems<A>(s: seq<A>)
    requires s != []
    ensures s == [s[0]] + s[1..] && multiset(s[1..]) == multiset(s) - multiset{s[0]}
  {
    assert s == [s[0]] + s[1..];
  }

  lemma SortedTail<A>(order: (A, A) -> bool, s: seq<A>)
    requires SortedBy(order, s) && s != []
    ensures SortedBy(order, s[1..])
  {
    forall i, j | 0 <= i < j < |s| - 1 ensures order(s[1..][i], s[1..][j]) { assert order(s[i + 1], s[j + 1]); }
  }

  /** In strict order nothing is repeated: what follows the first item is everything else. */
  lemma TailMembers<A(!new)>(order: (A, A) -> bool, s: seq<A>)
    requires Asymmetric(order) && SortedBy(order, s) && s != []
    ensures SortedBy(order, s[1..]) && forall x :: x in s[1..] <==> x in s && x != s[0]
  {
    SortedTail(order, s);
    assert s == [s[0]] + s[1..];
    if s[0] in s[1..] { assert false; }
  }

  lemma HasFirst<A>(s: seq<A>)
    requires s != []
    ensures s[0] in s
  {
  }

  /** Lists in strict order with the same members are the same list. */
  lemma {:induction false} SameMembers<A(!new)>(order: (A, A) -> bool, s: seq<A>, t: seq<A>)
    requires Asymmetric(order) && SortedBy(order, s) && SortedBy(order, t) && forall x :: x in s <==> x in t
    ensures s == t
  {
    if s == [] {
      if t != [] {
        HasFirst(t);
        assert false;
      }
    } else {
      assert s[0] in t && t != [] && t[0] in s;
      SameFirst(order, s, t);
      TailMembers(order, s);
      TailMembers(order, t);
      SameMembers(order, s[1..], t[1..]);
    }
  }

  function Reverse<A>(s: seq<A>): (r: seq<A>) {
    if s == [] then [] else Reverse(s[1..]) + [s[0]]
  }

  lemma {:induction false} ReverseItems<A>(s: seq<A>)
    ensures |Reverse(s)| == |s| && multiset(Reverse(s)) == multiset(s)
    ensures forall k :: 0 <= k < |s| ==> Reverse(s)[k] == s[|s| - 1 - k]
  {
    if s != [] {
      ReverseItems(s[1..]);
      assert s == [s[0]] + s[1..];
    }
  }
}
