/**
 Removing edges from the text of the `edges` array: the kept elements and the
 separators after them are copied byte for byte between the located offsets.
 */
module CanvasEdgeText {
  import opened Options
  import opened CanvasJson
  import CanvasPatch

  /** The text of one JSON array: elements, what separates them, and the blanks at both ends. */
  datatype ArrayText = ArrayText(prefix: string, raws: seq<string>, separators: seq<string>, suffix: string)

  datatype Span = Span(offset: nat, length: nat)

  predicate Blank(s: string) {
    forall c :: c in s ==> c in {' ', '\t', '\n', '\r'}
  }

  /** A separator is one comma between blanks. */
  predicate Separator(s: string) {
    exists k :: 0 <= k < |s| && s[k] == ',' && Blank(s[..k]) && Blank(s[k + 1..])
  }

  predicate Shaped(a: ArrayText) {
    |a.separators| == (if a.raws == [] then 0 else |a.raws| - 1)
  }

  predicate WellFormed(a: ArrayText) {
    && Shaped(a)
    && Blank(a.prefix) && Blank(a.suffix)
    && forall s :: s in a.separators ==> Separator(s)
  }

  /** The first `i` elements, each with the separator after it. */
  function Lead(a: ArrayText, i: nat): string
    requires i <= |a.separators| <= |a.raws|
  {
    if i == 0 then "" else Lead(a, i - 1) + a.raws[i - 1] + a.separators[i - 1]
  }

  function Body(a: ArrayText): string
    requires Shaped(a)
  {
    if a.raws == [] then "" else Lead(a, |a.raws| - 1) + a.raws[|a.raws| - 1]
  }

  function Render(a: ArrayText): string
    requires Shaped(a)
  {
    "[" + a.prefix + Body(a) + a.suffix + "]"
  }

  function ChildSpan(a: ArrayText, at: nat, i: nat): Span
    requires Shaped(a) && i < |a.raws|
  {
    Span(at + 1 + |a.prefix| + |Lead(a, i)|, |a.raws[i]|)
  }

  /** What a JSON parser reports: where the array is in `source`, and where each child is. */
  predicate Located(source: string, whole: Span, children: seq<Span>, a: ArrayText) {
    && WellFormed(a)
    && whole.offset + whole.length <= |source|
    && source[whole.offset..whole.offset + whole.length] == Render(a)
    && |children| == |a.raws|
    && forall i :: 0 <= i < |children| ==> children[i] == ChildSpan(a, whole.offset, i)
  }

  predicate Increasing(kept: seq<nat>, bound: nat) {
    && (forall j :: 0 <= j < |kept| ==> kept[j] < bound)
    && (forall i, j :: 0 <= i < j < |kept| ==> kept[i] < kept[j])
  }

  /** The array text that keeps exactly the elements at the given indices. */
  function KeepOnly(a: ArrayText, kept: seq<nat>): ArrayText
    requires WellFormed(a) && Increasing(kept, |a.raws|)
  {
    ArrayText(a.prefix,
              seq(|kept|, j requires 0 <= j < |kept| => a.raws[kept[j]]),
              seq(if kept == [] then 0 else |kept| - 1, j requires 0 <= j < |kept| - 1 => NextSeparator(a, kept, j)),
              a.suffix)
  }

  function NextSeparator(a: ArrayText, kept: seq<nat>, j: nat): string
    requires WellFormed(a) && Increasing(kept, |a.raws|) && j < |kept| - 1
  {
    assert kept[j] < kept[j + 1];
    a.separators[kept[j]]
  }

  /** Keeping some elements with the separators behind them leaves an array. */
  lemma KeepOnlyWellFormed(a: ArrayText, kept: seq<nat>)
    requires WellFormed(a) && Increasing(kept, |a.raws|)
    ensures WellFormed(KeepOnly(a, kept))
  {
    var k := KeepOnly(a, kept);
    forall s | s in k.separators ensures Separator(s) {
      var j :| 0 <= j < |k.separators| && k.separators[j] == s;
      assert kept[j] < kept[j + 1];
      assert s == a.separators[kept[j]];
    }
  }

  // -------------------------------------------------------------------------
  // Offsets
  // -------------------------------------------------------------------------

  lemma {:induction false} LeadExtends(a: ArrayText, i: nat, j: nat)
    requires i <= j <= |a.separators| <= |a.raws|
    ensures Lead(a, i) <= Lead(a, j)
  {
    if i < j { LeadExtends(a, i, j - 1); }
  }

  lemma PrefixChain(a: string, b: string, c: string)
    requires a <= b && b <= c
    ensures a <= c
  {
  }

  lemma LeadStep(a: ArrayText, i: nat)
    requires Shaped(a) && i < |a.separators|
    ensures Lead(a, i) + a.raws[i] + a.separators[i] == Lead(a, i + 1)
    ensures Lead(a, i) + a.raws[i] <= Lead(a, i + 1)
  {
  }

  lemma LeadInBody(a: ArrayText, i: nat)
    requires Shaped(a) && a.raws != [] && i <= |a.separators|
    ensures Lead(a, i) <= Body(a)
  {
    LeadExtends(a, i, |a.separators|);
    PrefixChain(Lead(a, i), Lead(a, |a.separators|), Lead(a, |a.separators|) + a.raws[|a.separators|]);
  }

  /** Up to element `i`, the body reads: the earlier elements and the element. */
  lemma BodyStarts(a: ArrayText, i: nat)
    requires Shaped(a) && i < |a.raws|
    ensures Lead(a, i) + a.raws[i] <= Body(a)
  {
    if i < |a.separators| {
      InnerBodyStarts(a, i);
    } else {
      assert i == |a.raws| - 1;
    }
  }

  lemma InnerBodyStarts(a: ArrayText, i: nat)
    requires Shaped(a) && i < |a.separators|
    ensures Lead(a, i) + a.raws[i] <= Body(a)
  {
    LeadInBody(a, i + 1);
    var element := Lead(a, i) + a.raws[i];
    var more := Lead(a, i + 1);
    var body := Body(a);
    assert element <= more by { LeadStep(a, i); }
    PrefixChain(element, more, body);
  }

  lemma SliceOfPrefix(text: string, head: string, part: string)
    requires head + part <= text
    ensures text[|head|..|head| + |part|] == part
  {
    assert text[..|head| + |part|] == head + part;
  }

  lemma SliceInside(source: string, whole: Span, rendered: string, from: nat, to: nat)
    requires whole.offset + whole.length <= |source| && source[whole.offset..whole.offset + whole.length] == rendered
    requires from <= to <= |rendered|
    ensures source[whole.offset + from..whole.offset + to] == rendered[from..to]
  {
    SliceOfSlice(source, whole.offset, whole.offset + whole.length, from, to);
  }

  lemma SliceOfSlice(s: string, start: nat, end: nat, from: nat, to: nat)
    requires start <= end <= |s| && from <= to <= end - start
    ensures s[start..end][from..to] == s[start + from..start + to]
  {
    var part, inside := s[start..end][from..to], s[start + from..start + to];
    assert |part| == |inside|;
    forall k | 0 <= k < |part| ensures part[k] == inside[k] { assert part[k] == s[start + from + k]; }
  }

  lemma ElementText(source: string, whole: Span, children: seq<Span>, a: ArrayText, i: nat)
    requires Located(source, whole, children, a) && i < |children|
    ensures var c := children[i];
            c.offset + c.length <= |source| && source[c.offset..c.offset + c.length] == a.raws[i]
  {
    BodyStarts(a, i);
    var head := "[" + a.prefix + Lead(a, i);
    assert head + a.raws[i] <= Render(a);
    SliceOfPrefix(Render(a), head, a.raws[i]);
    SliceInside(source, whole, Render(a), |head|, |head| + |a.raws[i]|);
  }

  lemma SeparatorText(source: string, whole: Span, children: seq<Span>, a: ArrayText, i: nat)
    requires Located(source, whole, children, a) && i + 1 < |children|
    ensures var c := children[i];
            && c.offset + c.length <= children[i + 1].offset <= |source|
            && source[c.offset + c.length..children[i + 1].offset] == a.separators[i]
  {
    LeadStep(a, i);
    LeadInBody(a, i + 1);
    var head := "[" + a.prefix + Lead(a, i) + a.raws[i];
    assert head + a.separators[i] <= Render(a);
    SliceOfPrefix(Render(a), head, a.separators[i]);
    SliceInside(source, whole, Render(a), |head|, |head| + |a.separators[i]|);
    assert Lead(a, i + 1) == Lead(a, i) + a.raws[i] + a.separators[i];
  }

  lemma EndsText(source: string, whole: Span, children: seq<Span>, a: ArrayText)
    requires Located(source, whole, children, a) && children != []
    ensures var last := children[|children| - 1];
            && whole.offset + 1 <= children[0].offset <= |source|
            && source[whole.offset + 1..children[0].offset] == a.prefix
            && last.offset + last.length <= whole.offset + whole.length - 1
            && source[last.offset + last.length..whole.offset + whole.length - 1] == a.suffix
  {
    var rendered := Render(a);
    assert rendered == ("[" + a.prefix) + (Body(a) + a.suffix + "]");
    SliceOfPrefix(rendered, "[", a.prefix);
    SliceInside(source, whole, rendered, 1, 1 + |a.prefix|);
    var head := "[" + a.prefix + Body(a);
    assert head + a.suffix <= rendered;
    SliceOfPrefix(rendered, head, a.suffix);
    SliceInside(source, whole, rendered, |head|, |head| + |a.suffix|);
  }

  // -------------------------------------------------------------------------
  // The kept text is never longer
  // -------------------------------------------------------------------------

  lemma {:induction false} LeadShrinks(a: ArrayText, kept: seq<nat>, j: nat)
    requires WellFormed(a) && Increasing(kept, |a.raws|) && j < |kept|
    ensures WellFormed(KeepOnly(a, kept)) && |Lead(KeepOnly(a, kept), j)| <= |Lead(a, kept[j])|
  {
    KeepOnlyWellFormed(a, kept);
    if j > 0 {
      LeadShrinks(a, kept, j - 1);
      assert kept[j - 1] < kept[j];
      LeadExtends(a, kept[j - 1] + 1, kept[j]);
    }
  }

  /** Keeping some elements never makes the text longer. */
  lemma KeepOnlyNotLonger(a: ArrayText, kept: seq<nat>)
    requires WellFormed(a) && Increasing(kept, |a.raws|) && kept != []
    ensures WellFormed(KeepOnly(a, kept)) && |Render(KeepOnly(a, kept))| <= |Render(a)|
  {
    LeadShrinks(a, kept, |kept| - 1);
    BodyStarts(a, kept[|kept| - 1]);
  }

  // -------------------------------------------------------------------------
  // The splice
  // -------------------------------------------------------------------------

  /** Indices of the edges whose id is not removed, in order. */
  function KeptIndices(ids: seq<string>, removed: set<string>): seq<nat> {
    if ids == [] then []
    else
      var n := |ids| - 1;
      KeptIndices(ids[..n], removed) + (if ids[n] in removed then [] else [n])
  }

  /** The kept indices are those of the elements not removed, in order. */
  lemma {:induction false} KeptIndicesMean(ids: seq<string>, removed: set<string>)
    ensures Increasing(KeptIndices(ids, removed), |ids|)
    ensures forall i: nat :: i in KeptIndices(ids, removed) <==> i < |ids| && ids[i] !in removed
  {
    if ids != [] { KeptIndicesMean(ids[..|ids| - 1], removed); }
  }

  /** The entities at the given indices. */
  function Picked(edges: seq<Entity>, kept: seq<nat>): seq<Entity>
    requires forall j :: 0 <= j < |kept| ==> kept[j] < |edges|
  {
    seq(|kept|, j requires 0 <= j < |kept| => edges[kept[j]])
  }

  lemma PickedPrefix(edges: seq<Entity>, kept: seq<nat>)
    requires edges != [] && forall j :: 0 <= j < |kept| ==> kept[j] < |edges| - 1
    ensures Picked(edges[..|edges| - 1], kept) == Picked(edges, kept)
    ensures Picked(edges, kept + [|edges| - 1]) == Picked(edges, kept) + [edges[|edges| - 1]]
  {
  }

  /** The textual removal keeps the same elements as the removal on parsed entities. */
  lemma {:induction false} SameAsOutside(edges: seq<Entity>, ids: seq<string>, removed: set<string>)
    requires |ids| == |edges| && forall i :: 0 <= i < |edges| ==> IdOf(edges[i]) == Some(ids[i])
    ensures Increasing(KeptIndices(ids, removed), |edges|)
    ensures CanvasPatch.Outside(edges, removed) == Picked(edges, KeptIndices(ids, removed))
  {
    KeptIndicesMean(ids, removed);
    if edges != [] {
      var n := |edges| - 1;
      SameAsOutside(edges[..n], ids[..n], removed);
      KeptIndicesMean(ids[..n], removed);
      assert edges == edges[..n] + [edges[n]];
      OutsideLast(edges[..n], edges[n], removed);
      PickedPrefix(edges, KeptIndices(ids[..n], removed));
    }
  }

  lemma {:induction false} OutsideLast(items: seq<Entity>, last: Entity, removed: set<string>)
    requires IdOf(last).Some?
    ensures CanvasPatch.Outside(items + [last], removed)
            == CanvasPatch.Outside(items, removed) + (if IdOf(last).value in removed then [] else [last])
  {
    if items == [] {
      assert items + [last] == [last] && [last][1..] == [];
      assert CanvasPatch.Outside([], removed) == [];
    } else {
      assert (items + [last])[1..] == items[1..] + [last];
      OutsideLast(items[1..], last, removed);
    }
  }

  function Splice(source: string, whole: Span, content: string): string
    requires whole.offset + whole.length <= |source|
  {
    source[..whole.offset] + content + source[whole.offset + whole.length..]
  }

  /** The separator after a kept element; there is none to preserve when it holds no comma. */
  function CheckedSeparator(separator: string): Option<string> {
    if ',' in separator then Some(separator) else None
  }

  method CopyElement(source: string, whole: Span, children: seq<Span>, i: nat, ghost a: ArrayText) returns (raw: string, separator: string)
    requires Located(source, whole, children, a) && i + 1 < |children| && ',' in a.separators[i]
    ensures raw == a.raws[i] && separator == a.separators[i]
  {
    var node := children[i];
    ElementText(source, whole, children, a, i);
    SeparatorText(source, whole, children, a, i);
    raw := source[node.offset..node.offset + node.length];
    separator := CheckedSeparator(source[node.offset + node.length..children[i + 1].offset]).value;
  }

  /** The loop that copies the kept elements; every separator passes its check, so no refusal is left in it. */
  method JoinKept(source: string, whole: Span, children: seq<Span>, kept: seq<nat>, ghost a: ArrayText) returns (joined: string)
    requires Located(source, whole, children, a) && Increasing(kept, |children|) && kept != []
    ensures Shaped(KeepOnly(a, kept)) && joined == Body(KeepOnly(a, kept))
  {
    ghost var layout := KeepOnly(a, kept);
    joined := "";
    var j := 0;
    while j < |kept| - 1
      invariant 0 <= j <= |kept| - 1
      invariant joined == Lead(layout, j)
    {
      KeptStep(a, kept, j);
      var raw, separator := CopyElement(source, whole, children, kept[j], a);
      joined := joined + raw + separator;
      j := j + 1;
    }
    KeptLast(a, kept);
    var node := children[kept[j]];
    ElementText(source, whole, children, a, kept[j]);
    joined := joined + source[node.offset..node.offset + node.length];
  }

  lemma KeptStep(a: ArrayText, kept: seq<nat>, j: nat)
    requires WellFormed(a) && Increasing(kept, |a.raws|) && j < |kept| - 1
    ensures kept[j] < kept[j + 1] && ',' in a.separators[kept[j]]
    ensures Lead(KeepOnly(a, kept), j + 1) == Lead(KeepOnly(a, kept), j) + a.raws[kept[j]] + a.separators[kept[j]]
  {
    assert kept[j] < kept[j + 1];
    SeparatorHasComma(a, kept[j]);
    assert KeepOnly(a, kept).separators[j] == a.separators[kept[j]];
  }

  lemma KeptLast(a: ArrayText, kept: seq<nat>)
    requires WellFormed(a) && Increasing(kept, |a.raws|) && kept != []
    ensures Body(KeepOnly(a, kept)) == Lead(KeepOnly(a, kept), |kept| - 1) + a.raws[kept[|kept| - 1]]
  {
  }

  lemma SeparatorHasComma(a: ArrayText, i: nat)
    requires WellFormed(a) && i < |a.separators|
    ensures ',' in a.separators[i]
  {
    assert a.separators[i] in a.separators;
    assert Separator(a.separators[i]);
  }

  method RemoveEdgesById(source: string, whole: Span, children: seq<Span>, ids: seq<string>, removed: set<string>, ghost a: ArrayText)
    returns (r: string)
    requires Located(source, whole, children, a) && |ids| == |children|
    ensures removed == {} ==> r == source
    ensures Increasing(KeptIndices(ids, removed), |a.raws|)
    ensures removed != {} ==>
              var kept := KeptIndices(ids, removed);
              var layout := KeepOnly(a, kept);
              if kept == [] then r == Splice(source, whole, "[]")
              else WellFormed(layout) && r == Splice(source, whole, Render(layout))
    ensures |r| <= |source|
  {
    KeptIndicesMean(ids, removed);
    if removed == {} { return source; }
    var kept := KeptIndices(ids, removed);
    if kept == [] { return Splice(source, whole, "[]"); }
    EndsText(source, whole, children, a);
    var last := children[|children| - 1];
    var prefix := source[whole.offset + 1..children[0].offset];
    var suffix := source[last.offset + last.length..whole.offset + whole.length - 1];
    var joined := JoinKept(source, whole, children, kept, a);
    KeepOnlyWellFormed(a, kept);
    KeepOnlyNotLonger(a, kept);
    r := Splice(source, whole, "[" + prefix + joined + suffix + "]");
  }
}
