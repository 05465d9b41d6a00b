/** The main results on frontmatter patches: the re-scan, the refusals that cannot happen, and the bytes that stay. */
module FrontmatterResults {
  import opened StableSort
  import opened TextSplice
  import opened TextLines
  import opened FrontmatterSource
  import opened FrontmatterLines
  import opened FrontmatterLayout
  import opened FrontmatterPatch
  import opened FrontmatterProofs

  // -------------------------------------------------------------------------
  // Lines of the result
  // -------------------------------------------------------------------------

  /** Every line of the result is an old line or a replacement, and every replacement is there. */
  lemma {:induction false} BuiltItems(lines: seq<string>, edits: seq<Edit<string>>, x: string)
    requires Fits(lines, edits)
    ensures x in Built(lines, edits) ==> x in lines || InReplacement(edits, x)
    ensures InReplacement(edits, x) ==> x in Built(lines, edits)
  {
    if edits != [] {
      var before, last := edits[..|edits| - 1], edits[|edits| - 1];
      BuiltItems(lines, before, x);
      if InReplacement(before, x) {
        var i :| 0 <= i < |before| && x in before[i].replacement;
        assert x in edits[i].replacement;
      }
      if InReplacement(edits, x) && x !in last.replacement {
        var i :| 0 <= i < |edits| && x in edits[i].replacement;
        assert x in before[i].replacement;
      }
    }
  }

  predicate InReplacement(edits: seq<Edit<string>>, x: string) { exists i :: 0 <= i < |edits| && x in edits[i].replacement }

  lemma SplicedItems(lines: seq<string>, edits: seq<Edit<string>>, x: string)
    requires Fits(lines, edits)
    ensures x in Spliced(lines, edits) ==> x in lines || InReplacement(edits, x)
    ensures InReplacement(edits, x) ==> x in Spliced(lines, edits)
  {
    BuiltItems(lines, edits, x);
  }

  /** The line an operation writes: that of the entry it edits, or a new one. */
  function WrittenBy(p: Platform, src: Source, op: Operation): string
    requires op.Set?
  {
    var hit := Hit(p, src, op);
    JsonLine(if hit.Some? then hit.value.key else op.key, p.json(op.value), src.eol)
  }

  ghost predicate Ready(p: Platform, src: Source, ops: seq<Operation>) {
    && Conventional(p) && SourceOk(p, src) && DistinctTargets(p, ops) && AllOperationsOk(p, ops)
    && forall i :: 0 <= i < |ops| ==> Planned(p, src, ops[i])
  }

  /** What an operation writes is one line of the note, no delimiter, and read back as its key if its value is one line. */
  lemma WrittenKind(p: Platform, src: Source, op: Operation)
    requires Conventional(p) && SourceOk(p, src) && OperationOk(p, op) && Planned(p, src, op) && op.Set?
    ensures var line := WrittenBy(p, src, op);
            && Whole(line) && !IsDelimiter(line)
            && (OneLine(p, p.json(op.value)) ==> KindOf(p, line) == Key(if Hit(p, src, op).Some? then Hit(p, src, op).value.key else op.key))
            && (!OneLine(p, p.json(op.value)) ==> KindOf(p, line) == Unsupported)
  {
    if Hit(p, src, op).Some? {
      var n := HitEntry(p, src, op);
      KeyLineIsBare(p, src.lines[src.entries[n].first]);
      JsonLineKind(p, src.entries[n].key, p.json(op.value), src.eol);
    } else {
      JsonLineKind(p, op.key, p.json(op.value), src.eol);
    }
  }

  lemma AddedLinesSnoc(p: Platform, src: Source, ops: seq<Operation>)
    requires ops != []
    ensures var before, last := ops[..|ops| - 1], ops[|ops| - 1];
            AddedLines(p, src, Additions(p, src, ops))
            == AddedLines(p, src, Additions(p, src, before)) + (if Hit(p, src, last).None? then LineFor(p, src, last) else [])
  {
    var before, last := ops[..|ops| - 1], ops[|ops| - 1];
    if Hit(p, src, last).Some? { assert Additions(p, src, ops) == Additions(p, src, before); }
    else { AddedSnoc(p, src, Additions(p, src, before), last); }
  }

  lemma {:induction false} AddedLineFrom(p: Platform, src: Source, ops: seq<Operation>, x: string) returns (i: nat)
    requires x in AddedLines(p, src, Additions(p, src, ops))
    ensures i < |ops| && ops[i].Set? && x == WrittenBy(p, src, ops[i])
    decreases |ops|
  {
    var before := ops[..|ops| - 1];
    AddedLinesSnoc(p, src, ops);
    if x in AddedLines(p, src, Additions(p, src, before)) { i := AddedLineFrom(p, src, before, x); } else { i := |ops| - 1; }
  }

  lemma {:induction false} WrittenIsAdded(p: Platform, src: Source, ops: seq<Operation>, i: nat)
    requires i < |ops| && ops[i].Set? && Hit(p, src, ops[i]).None?
    ensures WrittenBy(p, src, ops[i]) in AddedLines(p, src, Additions(p, src, ops))
    decreases |ops|
  {
    AddedLinesSnoc(p, src, ops);
    if i < |ops| - 1 { WrittenIsAdded(p, src, ops[..|ops| - 1], i); }
  }

  lemma ReplacementIsWritten(p: Platform, src: Source, ops: seq<Operation>, x: string) returns (i: nat)
    requires InReplacement(Ordered(p, src, ops), x)
    ensures i < |ops| && ops[i].Set? && x == WrittenBy(p, src, ops[i])
  {
    var es, added := SortBy(Before, EditsOf(p, src, ops)), AddedLines(p, src, Additions(p, src, ops));
    var all := Ordered(p, src, ops);
    var k :| 0 <= k < |all| && x in all[k].replacement;
    if k < |es| {
      SortItems(Before, EditsOf(p, src, ops));
      assert es[k] in multiset(es);
      var j :| 0 <= j < |EditsOf(p, src, ops)| && EditsOf(p, src, ops)[j] == es[k];
      i := EditFromOp(p, src, ops, j);
    } else {
      i := AddedLineFrom(p, src, ops, x);
    }
  }

  lemma WrittenIsInReplacement(p: Platform, src: Source, ops: seq<Operation>, i: nat)
    requires i < |ops| && ops[i].Set?
    ensures InReplacement(Ordered(p, src, ops), WrittenBy(p, src, ops[i]))
  {
    var es, all := SortBy(Before, EditsOf(p, src, ops)), Ordered(p, src, ops);
    if Hit(p, src, ops[i]).Some? {
      var j := OpHasEdit(p, src, ops, i);
      SortItems(Before, EditsOf(p, src, ops));
      assert EditsOf(p, src, ops)[j] in multiset(es);
      var k :| 0 <= k < |es| && es[k] == EditsOf(p, src, ops)[j];
      assert all[k] == es[k] && WrittenBy(p, src, ops[i]) in all[k].replacement;
    } else {
      WrittenIsAdded(p, src, ops, i);
      assert all[|es|].replacement == AddedLines(p, src, Additions(p, src, ops));
    }
  }

  /** The result consists of whole lines, none of them a delimiter. */
  lemma ResultLines(p: Platform, src: Source, ops: seq<Operation>)
    requires Ready(p, src, ops) && Framed(src) && Fits(src.lines, Ordered(p, src, ops))
    ensures AllWhole(Spliced(src.lines, Ordered(p, src, ops))) && NoDelimiter(Spliced(src.lines, Ordered(p, src, ops)))
  {
    var result := Spliced(src.lines, Ordered(p, src, ops));
    forall k | 0 <= k < |result| ensures Whole(result[k]) && !IsDelimiter(result[k]) {
      SplicedItems(src.lines, Ordered(p, src, ops), result[k]);
      if result[k] !in src.lines {
        var i := ReplacementIsWritten(p, src, ops, result[k]);
        WrittenKind(p, src, ops[i]);
      }
    }
  }

  // -------------------------------------------------------------------------
  // Keys of the result
  // -------------------------------------------------------------------------

  predicate AllOneLine(p: Platform, ops: seq<Operation>) {
    forall i :: 0 <= i < |ops| ==> ops[i].Set? ==> OneLine(p, p.json(ops[i].value))
  }

  function OperationKeys(ops: seq<Operation>): seq<string> {
    if ops == [] then [] else OperationKeys(ops[..|ops| - 1]) + [ops[|ops| - 1].key]
  }

  /** The keys after the patch: the old ones as spelled and in order without the deleted ones, then the new ones. */
  function ExpectedKeys(p: Platform, src: Source, ops: seq<Operation>): seq<string> {
    Minus(EntryKeys(src.entries), DeletedKeys(p, src, ops)) + OperationKeys(Additions(p, src, ops))
  }

  lemma {:induction false} AddedLinesKeys(p: Platform, src: Source, ops: seq<Operation>)
    requires Ready(p, src, ops) && AllOneLine(p, ops)
    ensures var added := AddedLines(p, src, Additions(p, src, ops));
            KeysOf(p, added) == OperationKeys(Additions(p, src, ops)) && LaidOut(p, added, false)
    decreases |ops|
  {
    if ops != [] {
      var before, last := ops[..|ops| - 1], ops[|ops| - 1];
      ReadyPrefix(p, src, ops);
      AddedLinesKeys(p, src, before);
      if Hit(p, src, last).Some? {
        assert Additions(p, src, ops) == Additions(p, src, before);
      } else {
        OneMoreAdded(p, src, Additions(p, src, before), last);
      }
    }
  }

  lemma ReadyPrefix(p: Platform, src: Source, ops: seq<Operation>)
    requires Ready(p, src, ops) && AllOneLine(p, ops) && ops != []
    ensures Ready(p, src, ops[..|ops| - 1]) && AllOneLine(p, ops[..|ops| - 1])
    ensures var last := ops[|ops| - 1];
            OperationOk(p, last) && Planned(p, src, last) && (last.Set? ==> OneLine(p, p.json(last.value)))
  {
  }

  lemma OneMoreAdded(p: Platform, src: Source, added: seq<Operation>, last: Operation)
    requires Conventional(p) && SourceOk(p, src) && OperationOk(p, last) && Planned(p, src, last) && Hit(p, src, last).None?
    requires last.Set? ==> OneLine(p, p.json(last.value))
    requires KeysOf(p, AddedLines(p, src, added)) == OperationKeys(added) && LaidOut(p, AddedLines(p, src, added), false)
    ensures KeysOf(p, AddedLines(p, src, added + [last])) == OperationKeys(added + [last])
    ensures LaidOut(p, AddedLines(p, src, added + [last]), false)
  {
    WrittenKind(p, src, last);
    AddedSnoc(p, src, added, last);
    OneKey(p, WrittenBy(p, src, last));
    KeysConcat(p, AddedLines(p, src, added), [WrittenBy(p, src, last)]);
    Together(p, AddedLines(p, src, added), [WrittenBy(p, src, last)]);
    assert (added + [last])[..|added|] == added;
  }

  lemma EntryEditsOk(p: Platform, src: Source, ops: seq<Operation>)
    requires Ready(p, src, ops) && AllOneLine(p, ops)
    ensures EditsOk(p, src.lines, SortBy(Before, EditsOf(p, src, ops)), DeletedKeys(p, src, ops))
    ensures EndOf(SortBy(Before, EditsOf(p, src, ops))) <= src.appendLine
  {
    var es := SortBy(Before, EditsOf(p, src, ops));
    EntryEditsFit(p, src, ops);
    EditsSpare(p, src, ops, es);
    forall k | 0 <= k < |es| ensures EditOk(p, src.lines, es[k], DeletedKeys(p, src, ops)) {
      assert es[k] in multiset(EditsOf(p, src, ops));
      var j :| 0 <= j < |EditsOf(p, src, ops)| && EditsOf(p, src, ops)[j] == es[k];
      var i := EditFromOp(p, src, ops, j);
      EditForOk(p, src, ops, i);
    }
  }

  /** Keys and layout of the result when every value is one line. */
  lemma ResultKeys(p: Platform, src: Source, ops: seq<Operation>)
    requires Ready(p, src, ops) && AllOneLine(p, ops) && Fits(src.lines, Ordered(p, src, ops))
    ensures var result := Spliced(src.lines, Ordered(p, src, ops));
            KeysOf(p, result) == ExpectedKeys(p, src, ops) && LaidOut(p, result, false)
  {
    var es, added := SortBy(Before, EditsOf(p, src, ops)), AddedLines(p, src, Additions(p, src, ops));
    EntryEditsOk(p, src, ops);
    AddedLinesKeys(p, src, ops);
    if added == [] {
      EditedKeys(p, src.lines, es, DeletedKeys(p, src, ops));
    } else {
      AddedKeys(p, src.lines, es, DeletedKeys(p, src, ops), src.appendLine, added);
    }
  }

  // -------------------------------------------------------------------------
  // The new keys stay apart
  // -------------------------------------------------------------------------

  lemma {:induction false} MinusItems(keys: seq<string>, deleted: set<string>)
    ensures forall i :: 0 <= i < |Minus(keys, deleted)| ==> Minus(keys, deleted)[i] in keys && Minus(keys, deleted)[i] !in deleted
  {
    if keys != [] { MinusItems(keys[..|keys| - 1], deleted); }
  }

  lemma {:induction false} MinusDistinct(p: Platform, keys: seq<string>, deleted: set<string>)
    requires DistinctFolds(p, keys)
    ensures DistinctFolds(p, Minus(keys, deleted))
  {
    if keys != [] {
      var before, last := keys[..|keys| - 1], keys[|keys| - 1];
      MinusDistinct(p, before, deleted);
      MinusItems(before, deleted);
      var left := Minus(before, deleted);
      forall i | 0 <= i < |left| ensures p.fold(left[i]) != p.fold(last) {
        var k :| 0 <= k < |before| && before[k] == left[i];
        assert p.fold(keys[k]) != p.fold(keys[|keys| - 1]);
      }
    }
  }

  lemma {:induction false} AdditionKeyFrom(p: Platform, src: Source, ops: seq<Operation>, k: nat) returns (i: nat)
    requires k < |OperationKeys(Additions(p, src, ops))|
    ensures i < |ops| && Hit(p, src, ops[i]).None? && OperationKeys(Additions(p, src, ops))[k] == ops[i].key
    decreases |ops|
  {
    var before, last := ops[..|ops| - 1], ops[|ops| - 1];
    var added := Additions(p, src, before);
    if Hit(p, src, last).Some? {
      assert Additions(p, src, ops) == added;
      i := AdditionKeyFrom(p, src, before, k);
    } else {
      assert (added + [last])[..|added|] == added;
      if k < |OperationKeys(added)| { i := AdditionKeyFrom(p, src, before, k); } else { i := |before|; }
    }
  }

  lemma {:induction false} AdditionKeysDistinct(p: Platform, src: Source, ops: seq<Operation>)
    requires DistinctTargets(p, ops)
    ensures DistinctFolds(p, OperationKeys(Additions(p, src, ops)))
    decreases |ops|
  {
    if ops != [] {
      var before, last := ops[..|ops| - 1], ops[|ops| - 1];
      var added := Additions(p, src, before);
      AdditionKeysDistinct(p, src, before);
      if Hit(p, src, last).Some? {
        assert Additions(p, src, ops) == added;
      } else {
        assert (added + [last])[..|added|] == added;
        forall k | 0 <= k < |OperationKeys(added)| ensures p.fold(OperationKeys(added)[k]) != p.fold(last.key) {
          var i := AdditionKeyFrom(p, src, before, k);
          assert p.fold(ops[i].key) != p.fold(ops[|ops| - 1].key);
        }
      }
    }
  }

  lemma AdditionIsNew(p: Platform, src: Source, op: Operation, i: nat)
    requires Hit(p, src, op).None? && i < |src.entries|
    ensures p.fold(src.entries[i].key) != p.fold(op.key)
  {
    assert src.entries[i] in src.entries;
  }

  lemma ExpectedDistinct(p: Platform, src: Source, ops: seq<Operation>)
    requires SourceOk(p, src) && DistinctTargets(p, ops)
    ensures DistinctFolds(p, ExpectedKeys(p, src, ops))
  {
    var old1 := EntryKeys(src.entries);
    var kept, added := Minus(old1, DeletedKeys(p, src, ops)), OperationKeys(Additions(p, src, ops));
    MinusDistinct(p, old1, DeletedKeys(p, src, ops));
    MinusItems(old1, DeletedKeys(p, src, ops));
    AdditionKeysDistinct(p, src, ops);
    forall i, j | 0 <= i < |kept| && 0 <= j < |added| ensures p.fold(kept[i]) != p.fold(added[j]) {
      var k :| 0 <= k < |old1| && old1[k] == kept[i];
      var o := AdditionKeyFrom(p, src, ops, j);
      AdditionIsNew(p, src, ops[o], k);
    }
    ApartTogether(p, kept, added);
  }

  lemma ApartTogether(p: Platform, a: seq<string>, b: seq<string>)
    requires DistinctFolds(p, a) && DistinctFolds(p, b)
    requires forall i, j :: 0 <= i < |a| && 0 <= j < |b| ==> p.fold(a[i]) != p.fold(b[j])
    ensures DistinctFolds(p, a + b)
  {
  }

  // -------------------------------------------------------------------------
  // Main results
  // -------------------------------------------------------------------------

  lemma {:induction false} UnsupportedSpoils(p: Platform, lines: seq<string>, k: nat)
    requires k < |lines| && KindOf(p, lines[k]).Unsupported?
    ensures !LaidOut(p, lines, false)
  {
    if k < |lines| - 1 { assert lines[..|lines| - 1][k] == lines[k]; UnsupportedSpoils(p, lines[..|lines| - 1], k); }
  }

  /**
   The edits of an accepted plan fit, and the result is read back with the same frame and body. Its layout is
   accepted exactly when every rendered value is one line, and then has the expected keys.
   */
  lemma Rescan(p: Platform, src: Source, ops: seq<Operation>)
    requires Ready(p, src, ops) && Framed(src) && Fits(src.lines, Ordered(p, src, ops))
    ensures var result := Spliced(src.lines, Ordered(p, src, ops));
            && Parse(p, Note(src, result)) == ParseBlock(p, src.opening, result, src.closing, src.body)
            && (Starts(p, result).Ok? <==> AllOneLine(p, ops))
            && (AllOneLine(p, ops) ==> KeysOf(p, result) == ExpectedKeys(p, src, ops))
  {
    var result := Spliced(src.lines, Ordered(p, src, ops));
    ResultLines(p, src, ops);
    Reparsed(p, src, result);
    StartsMean(p, result);
    if AllOneLine(p, ops) {
      ResultKeys(p, src, ops);
      ExpectedDistinct(p, src, ops);
    } else {
      var i :| 0 <= i < |ops| && ops[i].Set? && !OneLine(p, p.json(ops[i].value));
      SeparatorSpoils(p, src, ops, i);
    }
  }

  lemma SeparatorSpoils(p: Platform, src: Source, ops: seq<Operation>, i: nat)
    requires Ready(p, src, ops) && Fits(src.lines, Ordered(p, src, ops))
    requires i < |ops| && ops[i].Set? && !OneLine(p, p.json(ops[i].value))
    ensures !LaidOut(p, Spliced(src.lines, Ordered(p, src, ops)), false)
  {
    var result, line := Spliced(src.lines, Ordered(p, src, ops)), WrittenBy(p, src, ops[i]);
    WrittenKind(p, src, ops[i]);
    WrittenIsInReplacement(p, src, ops, i);
    SplicedItems(src.lines, Ordered(p, src, ops), line);
    var k :| 0 <= k < |result| && result[k] == line;
    UnsupportedSpoils(p, result, k);
  }

  /** What a compilation works with once its operations and its source are accepted. */
  lemma Prepared(p: Platform, content: string, operations: seq<Operation>)
    requires Conventional(p) && Canonicalize(p, operations).Ok? && Parse(p, content).Ok?
    requires Edits(p, Parse(p, content).value, Canonicalize(p, operations).value).Ok?
    ensures var ops, src := Canonicalize(p, operations).value, Parse(p, content).value;
            && Ready(p, src, ops) && Framed(src) && Fits(src.lines, Ordered(p, src, ops))
            && SortBy(Before, Edits(p, src, ops).value) == Ordered(p, src, ops)
            && content == Note(src, src.lines)
  {
    var ops, src := Canonicalize(p, operations).value, Parse(p, content).value;
    CanonicalIsOk(p, operations);
    ParsedIsFramed(p, content);
    ParsedIsOk(p, src.opening, src.lines, src.closing, src.body);
    forall i | 0 <= i < |ops| ensures Planned(p, src, ops[i]) { AllPlanned(p, src, ops, i); }
    OrderedIs(p, src, ops, Edits(p, src, ops).value);
  }

  lemma BlockFrame(p: Platform, opening: string, lines: seq<string>, closing: string, body: string)
    requires opening == "---\n" || opening == "---\r\n"
    ensures var r := ParseBlock(p, opening, lines, closing, body);
            && (r.Ok? ==> r.value.body == body && r.value.opening == opening && r.value.closing == closing && r.value.lines == lines)
            && (r.Ok? <==> p.scan(Contents(lines)).Some? && p.mapping(Flatten(lines)) && Starts(p, lines).Ok?)
            && (r.Ok? ==> EntryKeys(r.value.entries) == KeysOf(p, lines))
            && (r.Fail? ==> r.reason in {YamlUnsupported, YamlInvalid} || (Starts(p, lines).Fail? && r.reason == Starts(p, lines).reason))
  {
    if ParseBlock(p, opening, lines, closing, body).Ok? { ParsedIsOk(p, opening, lines, closing, body); }
  }

  lemma {:induction false} StartsReasons(p: Platform, lines: seq<string>)
    ensures Starts(p, lines).Fail? ==> Starts(p, lines).reason in {LayoutUnsupported, TopLevelUnsupported, DuplicateKey}
  {
    if lines != [] { StartsReasons(p, lines[..|lines| - 1]); }
  }

  /**
   Once the edits are planned, the patch is accepted exactly when every rendered value is one line and the YAML
   library accepts the result; an overlap of edits or a changed body cannot be the reason to refuse.
   */
  lemma AcceptedIff(p: Platform, content: string, operations: seq<Operation>)
    requires Conventional(p) && Canonicalize(p, operations).Ok? && Parse(p, content).Ok?
    requires Edits(p, Parse(p, content).value, Canonicalize(p, operations).value).Ok?
    ensures var ops, src := Canonicalize(p, operations).value, Parse(p, content).value;
            && Fits(src.lines, Ordered(p, src, ops))
            && var result := Spliced(src.lines, Ordered(p, src, ops));
               (Compile(p, content, operations).Ok? <==> AllOneLine(p, ops) && p.scan(Contents(result)).Some? && p.mapping(Flatten(result)))
    ensures Compile(p, content, operations).Fail? ==> Compile(p, content, operations).reason !in {Overlap, BodyDrift}
  {
    var ops, src := Canonicalize(p, operations).value, Parse(p, content).value;
    Prepared(p, content, operations);
    Rescan(p, src, ops);
    var result := Spliced(src.lines, Ordered(p, src, ops));
    BlockFrame(p, src.opening, result, src.closing, src.body);
    StartsReasons(p, result);
  }

  /** An accepted patch: the re-scan finds the expected keys in the same frame, and the body is the same. */
  lemma AcceptedPatch(p: Platform, content: string, operations: seq<Operation>)
    requires Conventional(p) && Compile(p, content, operations).Ok?
    ensures var c := Compile(p, content, operations).value;
            && Parse(p, content) == Ok(c.before) && Parse(p, c.nextContent) == Ok(c.after)
            && EntryKeys(c.after.entries) == ExpectedKeys(p, c.before, c.operations)
            && c.after.body == c.before.body && c.after.opening == c.before.opening && c.after.closing == c.before.closing
  {
    var ops, src := Canonicalize(p, operations).value, Parse(p, content).value;
    Prepared(p, content, operations);
    Rescan(p, src, ops);
    BlockFrame(p, src.opening, Spliced(src.lines, Ordered(p, src, ops)), src.closing, src.body);
  }
}
