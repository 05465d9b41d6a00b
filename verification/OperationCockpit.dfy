/** Listing pending operations of several ordered sources, page by page behind a cursor. */
module OperationCockpit {
  import opened Options
  import opened StableSort

  datatype Key = Key(updatedAt: string, kind: string, id: string)

  datatype Row = Row(key: Key, status: string, createdAt: string)

  /** The collation of the runtime: a strict total order on the texts of keys. */
  ghost predicate StrictTotal(less: (string, string) -> bool) {
    Transitive(less) && Asymmetric(less) && forall a, b :: a == b || less(a, b) || less(b, a)
  }

  /** The latest first, then by kind, then by identifier. */
  predicate KeyBefore(less: (string, string) -> bool, a: Key, b: Key) {
    || less(b.updatedAt, a.updatedAt)
    || (a.updatedAt == b.updatedAt && (less(a.kind, b.kind) || (a.kind == b.kind && less(a.id, b.id))))
  }

  function RowOrder(less: (string, string) -> bool): (Row, Row) -> bool { (a: Row, b: Row) => KeyBefore(less, a.key, b.key) }

  /** The rows of a source that come after the cursor. */
  function After(less: (string, string) -> bool, rows: seq<Row>, cursor: Option<Key>): seq<Row> {
    if rows == [] then []
    else
      var last := rows[|rows| - 1];
      After(less, rows[..|rows| - 1], cursor) + (if cursor.None? || KeyBefore(less, cursor.value, last.key) then [last] else [])
  }

  function Take<T>(s: seq<T>, n: nat): seq<T> { if |s| <= n then s else s[..n] }

  datatype SourcePage = SourcePage(rows: seq<Row>, hasMore: bool)

  /** What a source promises: its first rows after the cursor, and whether there are more. */
  function SourceRows(less: (string, string) -> bool, source: seq<Row>, limit: nat, cursor: Option<Key>): SourcePage {
    var after := After(less, source, cursor);
    SourcePage(Take(after, limit), |after| > limit)
  }

  function AllPages(less: (string, string) -> bool, sources: seq<seq<Row>>, limit: nat, cursor: Option<Key>): seq<Row> {
    if sources == [] then []
    else AllPages(less, sources[..|sources| - 1], limit, cursor) + SourceRows(less, sources[|sources| - 1], limit, cursor).rows
  }

  predicate AnyMore(less: (string, string) -> bool, sources: seq<seq<Row>>, limit: nat, cursor: Option<Key>) {
    exists i :: 0 <= i < |sources| && SourceRows(less, sources[i], limit, cursor).hasMore
  }

  datatype Page = Page(operations: seq<Row>, nextCursor: Option<Key>)

  datatype Listing = Listed(page: Page) | LimitInvalid

  const MaxLimit: nat := 100

  function ListPage(less: (string, string) -> bool, sources: seq<seq<Row>>, limit: nat, cursor: Option<Key>): Page {
    var rows := SortBy(RowOrder(less), AllPages(less, sources, limit, cursor));
    var visible := Take(rows, limit);
    var hasMore := |rows| > limit || AnyMore(less, sources, limit, cursor);
    Page(visible, if hasMore && visible != [] then Some(visible[|visible| - 1].key) else None)
  }

  /** The public listing, which refuses a limit out of range. */
  function List(less: (string, string) -> bool, sources: seq<seq<Row>>, limit: int, cursor: Option<Key>): Listing {
    if limit < 1 || limit > MaxLimit then LimitInvalid else Listed(ListPage(less, sources, limit, cursor))
  }

  // -------------------------------------------------------------------------
  // The order of rows
  // -------------------------------------------------------------------------

  lemma RowOrderIsStrict(less: (string, string) -> bool)
    requires StrictTotal(less)
    ensures Transitive(RowOrder(less)) && Asymmetric(RowOrder(less))
    ensures forall a: Row, b: Row :: a.key == b.key || RowOrder(less)(a, b) || RowOrder(less)(b, a)
  {
  }

  function Flat(sources: seq<seq<Row>>): seq<Row> {
    if sources == [] then [] else Flat(sources[..|sources| - 1]) + sources[|sources| - 1]
  }

  /** No two rows, of one source or of several, have the same key. */
  predicate DistinctKeys(rows: seq<Row>) { forall i, j :: 0 <= i < j < |rows| ==> rows[i].key != rows[j].key }

  ghost predicate SourcesOk(less: (string, string) -> bool, sources: seq<seq<Row>>) {
    StrictTotal(less) && DistinctKeys(Flat(sources)) && forall i :: 0 <= i < |sources| ==> SortedBy(RowOrder(less), sources[i])
  }

  /** All rows still to be listed, in order. */
  function Remaining(less: (string, string) -> bool, sources: seq<seq<Row>>, cursor: Option<Key>): seq<Row> {
    SortBy(RowOrder(less), After(less, Flat(sources), cursor))
  }

  predicate IsAfter(less: (string, string) -> bool, cursor: Option<Key>, row: Row) {
    cursor.None? || KeyBefore(less, cursor.value, row.key)
  }

  lemma {:induction false} AfterItems(less: (string, string) -> bool, rows: seq<Row>, cursor: Option<Key>)
    ensures forall x :: x in After(less, rows, cursor) <==> x in rows && IsAfter(less, cursor, x)
    ensures DistinctKeys(rows) ==> DistinctKeys(After(less, rows, cursor))
  {
    if rows != [] {
      var before, last := rows[..|rows| - 1], rows[|rows| - 1];
      AfterItems(less, before, cursor);
      assert rows == before + [last];
      if DistinctKeys(rows) { KeptDistinct(rows, After(less, before, cursor)); }
    }
  }

  lemma KeptDistinct(rows: seq<Row>, kept: seq<Row>)
    requires rows != [] && DistinctKeys(rows) && (DistinctKeys(rows[..|rows| - 1]) ==> DistinctKeys(kept))
    requires forall x :: x in kept ==> x in rows[..|rows| - 1]
    ensures DistinctKeys(kept) && DistinctKeys(kept + [rows[|rows| - 1]])
  {
    forall i | 0 <= i < |kept| ensures kept[i].key != rows[|rows| - 1].key {
      assert kept[i] in kept;
      var k :| 0 <= k < |rows| - 1 && rows[k] == kept[i];
    }
  }

  lemma SortedRows(less: (string, string) -> bool, rows: seq<Row>)
    requires StrictTotal(less) && DistinctKeys(rows)
    ensures SortedBy(RowOrder(less), SortBy(RowOrder(less), rows)) && |SortBy(RowOrder(less), rows)| == |rows|
    ensures forall x :: x in SortBy(RowOrder(less), rows) <==> x in rows
  {
    RowOrderIsStrict(less);
    SortsInto(RowOrder(less), RowOrder(less), rows);
    SortItems(RowOrder(less), rows);
    forall x ensures x in SortBy(RowOrder(less), rows) <==> x in rows {
      assert x in SortBy(RowOrder(less), rows) <==> x in multiset(SortBy(RowOrder(less), rows));
      assert x in rows <==> x in multiset(rows);
    }
  }

  lemma RemainingIs(less: (string, string) -> bool, sources: seq<seq<Row>>, cursor: Option<Key>)
    requires SourcesOk(less, sources)
    ensures SortedBy(RowOrder(less), Remaining(less, sources, cursor))
    ensures forall x :: x in Remaining(less, sources, cursor) <==> x in Flat(sources) && IsAfter(less, cursor, x)
    ensures |Remaining(less, sources, cursor)| == |After(less, Flat(sources), cursor)|
  {
    AfterItems(less, Flat(sources), cursor);
    SortedRows(less, After(less, Flat(sources), cursor));
  }

  // -------------------------------------------------------------------------
  // A page is the first rows of what remains
  // -------------------------------------------------------------------------

  /** Part of an ordered list, in the same order, has each row no later than the list has it. */
  lemma {:induction false} NoLater(less: (string, string) -> bool, part: seq<Row>, all: seq<Row>, j: nat, i: nat)
    requires StrictTotal(less) && SortedBy(RowOrder(less), part) && SortedBy(RowOrder(less), all)
    requires forall x :: x in part ==> x in all
    requires j < |part| && i < |all| && part[j] == all[i]
    ensures j <= i
  {
    if j > 0 {
      assert part[j - 1] in all;
      var k :| 0 <= k < |all| && all[k] == part[j - 1];
      assert RowOrder(less)(part[j - 1], part[j]);
      if k > i { assert false; }
      NoLater(less, part, all, j - 1, k);
    }
  }

  /** An ordered part that has the first rows of an ordered list starts with them. */
  lemma {:induction false} SameStart(less: (string, string) -> bool, part: seq<Row>, all: seq<Row>, n: nat)
    requires StrictTotal(less) && SortedBy(RowOrder(less), part) && SortedBy(RowOrder(less), all) && n <= |all|
    requires (forall x :: x in part ==> x in all) && (forall i :: 0 <= i < n ==> all[i] in part)
    ensures n <= |part| && part[..n] == all[..n]
  {
    if n > 0 {
      SameStart(less, part, all, n - 1);
      assert all[n - 1] in part;
      var j :| 0 <= j < |part| && part[j] == all[n - 1];
      NoLater(less, part, all, j, n - 1);
      if j < n - 1 { assert false; }
      assert part[..n] == part[..n - 1] + [part[n - 1]] && all[..n] == all[..n - 1] + [all[n - 1]];
    }
  }

  lemma {:induction false} AfterSorted(less: (string, string) -> bool, rows: seq<Row>, cursor: Option<Key>)
    requires SortedBy(RowOrder(less), rows)
    ensures SortedBy(RowOrder(less), After(less, rows, cursor))
  {
    if rows != [] {
      var before, last := rows[..|rows| - 1], rows[|rows| - 1];
      AfterSorted(less, before, cursor);
      AfterItems(less, before, cursor);
      forall x | x in After(less, before, cursor) ensures RowOrder(less)(x, last) {
        var k :| 0 <= k < |before| && before[k] == x;
        assert RowOrder(less)(rows[k], rows[|rows| - 1]);
      }
    }
  }

  lemma {:induction false} FlatItems(sources: seq<seq<Row>>, x: Row)
    ensures x in Flat(sources) <==> exists i :: 0 <= i < |sources| && x in sources[i]
  {
    if sources != [] {
      FlatItems(sources[..|sources| - 1], x);
      if x in Flat(sources[..|sources| - 1]) {
        var i :| 0 <= i < |sources| - 1 && x in sources[..|sources| - 1][i];
        assert x in sources[i];
      }
      if i :| 0 <= i < |sources| && x in sources[i] {
        if i < |sources| - 1 { assert x in sources[..|sources| - 1][i]; }
      }
    }
  }

  lemma {:induction false} PagesItems(less: (string, string) -> bool, sources: seq<seq<Row>>, limit: nat, cursor: Option<Key>, x: Row)
    ensures x in AllPages(less, sources, limit, cursor)
            <==> exists i :: 0 <= i < |sources| && x in SourceRows(less, sources[i], limit, cursor).rows
  {
    if sources != [] {
      var before := sources[..|sources| - 1];
      PagesItems(less, before, limit, cursor, x);
      if x in AllPages(less, before, limit, cursor) {
        var i :| 0 <= i < |before| && x in SourceRows(less, before[i], limit, cursor).rows;
        assert x in SourceRows(less, sources[i], limit, cursor).rows;
      }
      if i :| 0 <= i < |sources| && x in SourceRows(less, sources[i], limit, cursor).rows {
        if i < |sources| - 1 { assert x in SourceRows(less, before[i], limit, cursor).rows; }
      }
    }
  }

  lemma SplitDistinct(a: seq<Row>, b: seq<Row>)
    requires DistinctKeys(a + b)
    ensures DistinctKeys(a) && DistinctKeys(b) && ApartKeys(a, b)
  {
    forall i, j | 0 <= i < j < |a| ensures a[i].key != a[j].key { assert (a + b)[i].key != (a + b)[j].key; }
    forall i, j | 0 <= i < j < |b| ensures b[i].key != b[j].key { assert (a + b)[|a| + i].key != (a + b)[|a| + j].key; }
    forall i, j | 0 <= i < |a| && 0 <= j < |b| ensures a[i].key != b[j].key { assert (a + b)[i].key != (a + b)[|a| + j].key; }
  }

  predicate ApartKeys(a: seq<Row>, b: seq<Row>) { forall i, j :: 0 <= i < |a| && 0 <= j < |b| ==> a[i].key != b[j].key }

  lemma ApartParts(a: seq<Row>, b: seq<Row>, a': seq<Row>, b': seq<Row>)
    requires ApartKeys(a, b) && (forall x :: x in a' ==> x in a) && (forall x :: x in b' ==> x in b)
    ensures ApartKeys(a', b')
  {
    forall i, j | 0 <= i < |a'| && 0 <= j < |b'| ensures a'[i].key != b'[j].key {
      assert a'[i] in a && b'[j] in b;
    }
  }

  lemma TakeDistinct(rows: seq<Row>, limit: nat)
    requires DistinctKeys(rows)
    ensures DistinctKeys(Take(rows, limit)) && forall x :: x in Take(rows, limit) ==> x in rows
  {
  }

  lemma DistinctTogether(a: seq<Row>, b: seq<Row>)
    requires DistinctKeys(a) && DistinctKeys(b) && ApartKeys(a, b)
    ensures DistinctKeys(a + b)
  {
    forall i, j | 0 <= i < j < |a + b| ensures (a + b)[i].key != (a + b)[j].key {
      if i < |a| <= j { assert a[i].key != b[j - |a|].key; }
    }
  }

  lemma SourceRowsIn(less: (string, string) -> bool, source: seq<Row>, limit: nat, cursor: Option<Key>)
    requires DistinctKeys(source)
    ensures DistinctKeys(SourceRows(less, source, limit, cursor).rows)
    ensures forall x :: x in SourceRows(less, source, limit, cursor).rows ==> x in source && IsAfter(less, cursor, x)
  {
    AfterItems(less, source, cursor);
    TakeDistinct(After(less, source, cursor), limit);
  }

  /** The rows of all source pages are distinct rows after the cursor. */
  lemma {:induction false} PagesDistinct(less: (string, string) -> bool, sources: seq<seq<Row>>, limit: nat, cursor: Option<Key>)
    requires DistinctKeys(Flat(sources))
    ensures DistinctKeys(AllPages(less, sources, limit, cursor))
    ensures forall x :: x in AllPages(less, sources, limit, cursor) ==> x in Flat(sources) && IsAfter(less, cursor, x)
  {
    if sources != [] {
      var before, last := sources[..|sources| - 1], sources[|sources| - 1];
      SplitDistinct(Flat(before), last);
      PagesDistinct(less, before, limit, cursor);
      SourceRowsIn(less, last, limit, cursor);
      ApartParts(Flat(before), last, AllPages(less, before, limit, cursor), SourceRows(less, last, limit, cursor).rows);
      DistinctTogether(AllPages(less, before, limit, cursor), SourceRows(less, last, limit, cursor).rows);
    }
  }

  /** Each of the first rows of what remains is in the page of its own source. */
  lemma FirstRowsArePaged(less: (string, string) -> bool, sources: seq<seq<Row>>, limit: nat, cursor: Option<Key>, i: nat)
    requires SourcesOk(less, sources) && i < limit && i < |Remaining(less, sources, cursor)|
    ensures Remaining(less, sources, cursor)[i] in AllPages(less, sources, limit, cursor)
  {
    var all := Remaining(less, sources, cursor);
    RemainingIs(less, sources, cursor);
    assert all[i] in all;
    FlatItems(sources, all[i]);
    var k :| 0 <= k < |sources| && all[i] in sources[k];
    AfterItems(less, sources[k], cursor);
    AfterSorted(less, sources[k], cursor);
    SourceIsPart(less, sources, cursor, k);
    FirstOfSource(less, After(less, sources[k], cursor), all, limit, i);
    PagesItems(less, sources, limit, cursor, all[i]);
  }

  lemma SourceIsPart(less: (string, string) -> bool, sources: seq<seq<Row>>, cursor: Option<Key>, k: nat)
    requires SourcesOk(less, sources) && k < |sources|
    ensures forall x :: x in After(less, sources[k], cursor) ==> x in Remaining(less, sources, cursor)
  {
    RemainingIs(less, sources, cursor);
    AfterItems(less, sources[k], cursor);
    forall x | x in After(less, sources[k], cursor) ensures x in Remaining(less, sources, cursor) { FlatItems(sources, x); }
  }

  lemma FirstOfSource(less: (string, string) -> bool, after: seq<Row>, all: seq<Row>, limit: nat, i: nat)
    requires StrictTotal(less) && SortedBy(RowOrder(less), after) && SortedBy(RowOrder(less), all)
    requires (forall x :: x in after ==> x in all) && i < |all| && i < limit && all[i] in after
    ensures all[i] in Take(after, limit)
  {
    var j :| 0 <= j < |after| && after[j] == all[i];
    NoLater(less, after, all, j, i);
  }

  /** A page shows the first rows of what remains, in the common order of all sources. */
  lemma PageIsFirstRows(less: (string, string) -> bool, sources: seq<seq<Row>>, limit: nat, cursor: Option<Key>)
    requires SourcesOk(less, sources)
    ensures ListPage(less, sources, limit, cursor).operations == Take(Remaining(less, sources, cursor), limit)
  {
    var all, pages := Remaining(less, sources, cursor), AllPages(less, sources, limit, cursor);
    var rows := SortBy(RowOrder(less), pages);
    RemainingIs(less, sources, cursor);
    PagesDistinct(less, sources, limit, cursor);
    SortedRows(less, pages);
    var n := if |all| <= limit then |all| else limit;
    forall i | 0 <= i < n ensures all[i] in rows { FirstRowsArePaged(less, sources, limit, cursor, i); }
    SameStart(less, rows, all, n);
    if |all| <= limit { AllOfThem(less, rows, all); }
    assert Take(rows, limit) == rows[..n] && Take(all, limit) == all[..n];
  }

  lemma AllOfThem(less: (string, string) -> bool, rows: seq<Row>, all: seq<Row>)
    requires StrictTotal(less) && SortedBy(RowOrder(less), rows) && SortedBy(RowOrder(less), all)
    requires (forall x :: x in rows ==> x in all) && |all| <= |rows| && rows[..|all|] == all
    ensures rows == all
  {
    FewerRows(less, rows, all);
    assert rows[..|rows|] == rows;
  }

  lemma FewerRows(less: (string, string) -> bool, rows: seq<Row>, all: seq<Row>)
    requires StrictTotal(less) && SortedBy(RowOrder(less), rows) && SortedBy(RowOrder(less), all) && forall x :: x in rows ==> x in all
    ensures |rows| <= |all|
  {
    if rows != [] {
      var j := |rows| - 1;
      assert rows[j] in all;
      var i :| 0 <= i < |all| && all[i] == rows[j];
      NoLater(less, rows, all, j, i);
    }
  }

  lemma {:induction false} NoMoreNoneLeft(less: (string, string) -> bool, sources: seq<seq<Row>>, limit: nat, cursor: Option<Key>, x: Row)
    requires !AnyMore(less, sources, limit, cursor) && x in Flat(sources) && IsAfter(less, cursor, x)
    ensures x in AllPages(less, sources, limit, cursor)
  {
    FlatItems(sources, x);
    var i :| 0 <= i < |sources| && x in sources[i];
    AfterItems(less, sources[i], cursor);
    assert !SourceRows(less, sources[i], limit, cursor).hasMore;
    PagesItems(less, sources, limit, cursor, x);
  }

  /** A next cursor is given exactly when rows remain after the page, and it is the last row shown. */
  lemma CursorIffMore(less: (string, string) -> bool, sources: seq<seq<Row>>, limit: nat, cursor: Option<Key>)
    requires SourcesOk(less, sources) && limit > 0
    ensures var page, all := ListPage(less, sources, limit, cursor), Remaining(less, sources, cursor);
            && (page.nextCursor.Some? <==> |all| > limit)
            && (page.nextCursor.Some? ==> page.nextCursor.value == all[limit - 1].key)
  {
    var all, pages := Remaining(less, sources, cursor), AllPages(less, sources, limit, cursor);
    var rows := SortBy(RowOrder(less), pages);
    RemainingIs(less, sources, cursor);
    PagesDistinct(less, sources, limit, cursor);
    SortedRows(less, pages);
    FewerRows(less, rows, all);
    PageIsFirstRows(less, sources, limit, cursor);
    if AnyMore(less, sources, limit, cursor) {
      MoreInSource(less, sources, limit, cursor);
    } else {
      forall x | x in all ensures x in rows { NoMoreNoneLeft(less, sources, limit, cursor, x); }
      FewerRows(less, all, rows);
    }
  }

  lemma MoreInSource(less: (string, string) -> bool, sources: seq<seq<Row>>, limit: nat, cursor: Option<Key>)
    requires SourcesOk(less, sources) && AnyMore(less, sources, limit, cursor)
    ensures |Remaining(less, sources, cursor)| > limit
  {
    var i :| 0 <= i < |sources| && SourceRows(less, sources[i], limit, cursor).hasMore;
    RemainingIs(less, sources, cursor);
    AfterSorted(less, sources[i], cursor);
    SourceIsPart(less, sources, cursor, i);
    FewerRows(less, After(less, sources[i], cursor), Remaining(less, sources, cursor));
  }

  // -------------------------------------------------------------------------
  // Following the cursors
  // -------------------------------------------------------------------------

  lemma {:induction false} DropMembers(less: (string, string) -> bool, all: seq<Row>, n: nat, x: Row)
    requires StrictTotal(less) && SortedBy(RowOrder(less), all) && 0 < n <= |all|
    ensures SortedBy(RowOrder(less), all[n..])
    ensures x in all[n..] <==> x in all && KeyBefore(less, all[n - 1].key, x.key)
  {
    forall i, j | 0 <= i < j < |all[n..]| ensures RowOrder(less)(all[n..][i], all[n..][j]) { assert RowOrder(less)(all[n + i], all[n + j]); }
    if x in all[n..] {
      var k :| 0 <= k < |all[n..]| && all[n..][k] == x;
      assert RowOrder(less)(all[n - 1], all[n + k]);
    }
    if x in all && KeyBefore(less, all[n - 1].key, x.key) {
      var k :| 0 <= k < |all| && all[k] == x;
      if k < n - 1 { assert false; }
      assert k >= n;
      assert all[n..][k - n] == x;
    }
  }

  /** What remains after the last row of a page is the rest of what remained. */
  lemma RestRemains(less: (string, string) -> bool, sources: seq<seq<Row>>, cursor: Option<Key>, n: nat)
    requires SourcesOk(less, sources) && 0 < n <= |Remaining(less, sources, cursor)|
    ensures Remaining(less, sources, Some(Remaining(less, sources, cursor)[n - 1].key)) == Remaining(less, sources, cursor)[n..]
  {
    var all := Remaining(less, sources, cursor);
    var next := Some(all[n - 1].key);
    RemainingIs(less, sources, cursor);
    RemainingIs(less, sources, next);
    RowOrderIsStrict(less);
    assert all[n - 1] in all;
    forall x ensures x in Remaining(less, sources, next) <==> x in all[n..] {
      DropMembers(less, all, n, x);
      if x in Flat(sources) && KeyBefore(less, all[n - 1].key, x.key) { AfterLater(less, cursor, all[n - 1], x); }
    }
    DropMembers(less, all, n, all[n - 1]);
    SameMembers(RowOrder(less), Remaining(less, sources, next), all[n..]);
  }

  lemma AfterLater(less: (string, string) -> bool, cursor: Option<Key>, a: Row, b: Row)
    requires StrictTotal(less) && IsAfter(less, cursor, a) && KeyBefore(less, a.key, b.key)
    ensures IsAfter(less, cursor, b)
  {
  }

  /** All pages, one after the other, until no next cursor is given. */
  ghost function Follow(less: (string, string) -> bool, sources: seq<seq<Row>>, limit: nat, cursor: Option<Key>): seq<Row>
    requires SourcesOk(less, sources) && limit > 0
    decreases |Remaining(less, sources, cursor)|
  {
    var page := ListPage(less, sources, limit, cursor);
    if page.nextCursor.None? then page.operations
    else
      CursorIffMore(less, sources, limit, cursor);
      RestRemains(less, sources, cursor, limit);
      page.operations + Follow(less, sources, limit, page.nextCursor)
  }

  /** Following the cursors ends, and lists every remaining row exactly once, in the common order. */
  lemma {:induction false} FollowListsAll(less: (string, string) -> bool, sources: seq<seq<Row>>, limit: nat, cursor: Option<Key>)
    requires SourcesOk(less, sources) && limit > 0
    ensures Follow(less, sources, limit, cursor) == Remaining(less, sources, cursor)
    decreases |Remaining(less, sources, cursor)|
  {
    var all, page := Remaining(less, sources, cursor), ListPage(less, sources, limit, cursor);
    CursorIffMore(less, sources, limit, cursor);
    PageIsFirstRows(less, sources, limit, cursor);
    if page.nextCursor.Some? {
      RestRemains(less, sources, cursor, limit);
      FollowListsAll(less, sources, limit, page.nextCursor);
      assert all == all[..limit] + all[limit..];
    }
  }

  /** The listing is refused exactly for a limit out of range; else it shows the first rows that remain, and says whether more do. */
  lemma ListIs(less: (string, string) -> bool, sources: seq<seq<Row>>, limit: int, cursor: Option<Key>)
    requires SourcesOk(less, sources)
    ensures List(less, sources, limit, cursor).Listed? <==> 1 <= limit <= MaxLimit
    ensures List(less, sources, limit, cursor).Listed? ==>
              var page, all := List(less, sources, limit, cursor).page, Remaining(less, sources, cursor);
              page.operations == Take(all, limit) && (page.nextCursor.Some? <==> |all| > limit)
  {
    if 1 <= limit <= MaxLimit {
      PageIsFirstRows(less, sources, limit, cursor);
      CursorIffMore(less, sources, limit, cursor);
    }
  }
}
