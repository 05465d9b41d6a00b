/** Top-level keys of a block before and after its lines are edited. */
module FrontmatterLayout {
  import opened FrontmatterSource

  // -------------------------------------------------------------------------
  // Keys and layout of a list of lines
  // -------------------------------------------------------------------------

  function KeyOf(p: Platform, raw: string): seq<string> {
    match KindOf(p, raw)
    case Key(key) => [key]
    case _ => []
  }

  /** The top-level keys, in order and as spelled. */
  function KeysOf(p: Platform, lines: seq<string>): seq<string> {
    if lines == [] then [] else KeysOf(p, lines[..|lines| - 1]) + KeyOf(p, lines[|lines| - 1])
  }

  /** Only supported lines, none of them indented before a key; `active` says a key was seen before. */
  predicate LaidOut(p: Platform, lines: seq<string>, active: bool) {
    if lines == [] then true
    else
      var before, kind := lines[..|lines| - 1], KindOf(p, lines[|lines| - 1]);
      LaidOut(p, before, active) && !kind.Unsupported? && (kind.Indented? ==> active || KeysOf(p, before) != [])
  }

  predicate DistinctFolds(p: Platform, keys: seq<string>) {
    forall i, j :: 0 <= i < j < |keys| ==> p.fold(keys[i]) != p.fold(keys[j])
  }

  lemma {:induction false} KeysConcat(p: Platform, a: seq<string>, b: seq<string>)
    ensures KeysOf(p, a + b) == KeysOf(p, a) + KeysOf(p, b)
  {
    if b == [] {
      assert a + b == a;
    } else {
      assert (a + b)[..|a + b| - 1] == a + b[..|b| - 1];
      KeysConcat(p, a, b[..|b| - 1]);
    }
  }

  lemma {:induction false} LaidOutConcat(p: Platform, a: seq<string>, b: seq<string>, active: bool)
    ensures LaidOut(p, a + b, active) <==> LaidOut(p, a, active) && LaidOut(p, b, active || KeysOf(p, a) != [])
  {
    if b == [] {
      assert a + b == a;
    } else {
      assert (a + b)[..|a + b| - 1] == a + b[..|b| - 1];
      LaidOutConcat(p, a, b[..|b| - 1], active);
      KeysConcat(p, a, b[..|b| - 1]);
    }
  }

  lemma {:induction false} MoreActive(p: Platform, lines: seq<string>)
    requires LaidOut(p, lines, false)
    ensures LaidOut(p, lines, true)
  {
    if lines != [] { MoreActive(p, lines[..|lines| - 1]); }
  }

  /** Pieces that each stand on their own stand together. */
  lemma Together(p: Platform, a: seq<string>, b: seq<string>)
    requires LaidOut(p, a, false) && LaidOut(p, b, false)
    ensures LaidOut(p, a + b, false)
  {
    MoreActive(p, b);
    LaidOutConcat(p, a, b, false);
  }

  function StartKeys(starts: seq<StartLine>): seq<string> {
    seq(|starts|, i requires 0 <= i < |starts| => starts[i].key)
  }

  lemma FoldsApart(p: Platform, starts: seq<StartLine>, key: string)
    requires DistinctFolds(p, StartKeys(starts))
    ensures !HasFold(p, starts, p.fold(key)) <==> DistinctFolds(p, StartKeys(starts) + [key])
  {
    var keys := StartKeys(starts) + [key];
    if DistinctFolds(p, keys) {
      forall i | 0 <= i < |starts| ensures p.fold(starts[i].key) != p.fold(key) {
        assert p.fold(keys[i]) != p.fold(keys[|starts|]);
      }
    }
  }

  lemma FoldsPrefix(p: Platform, keys: seq<string>, more: seq<string>)
    requires DistinctFolds(p, keys + more)
    ensures DistinctFolds(p, keys)
  {
    forall i, j | 0 <= i < j < |keys| ensures p.fold(keys[i]) != p.fold(keys[j]) {
      assert p.fold((keys + more)[i]) != p.fold((keys + more)[j]);
    }
  }

  /** The scan accepts exactly the supported layouts whose keys differ when folded, and finds their keys in order. */
  lemma {:induction false} StartsMean(p: Platform, lines: seq<string>)
    ensures Starts(p, lines).Ok? <==> LaidOut(p, lines, false) && DistinctFolds(p, KeysOf(p, lines))
    ensures Starts(p, lines).Ok? ==> StartKeys(Starts(p, lines).value) == KeysOf(p, lines)
  {
    if lines != [] {
      var n := |lines| - 1;
      var before := Starts(p, lines[..n]);
      StartsMean(p, lines[..n]);
      if DistinctFolds(p, KeysOf(p, lines)) { FoldsPrefix(p, KeysOf(p, lines[..n]), KeyOf(p, lines[n])); }
      if before.Ok? && KindOf(p, lines[n]).Key? {
        var key := KindOf(p, lines[n]).key;
        FoldsApart(p, before.value, key);
        assert StartKeys(before.value + [StartLine(key, n)]) == StartKeys(before.value) + [key];
      }
    }
  }

  /** The starts are exactly the key lines. */
  ghost predicate StartsAre(p: Platform, lines: seq<string>, starts: seq<StartLine>) {
    && StartsInside(lines, starts)
    && (forall i :: 0 <= i < |starts| ==> KindOf(p, lines[starts[i].line]) == Key(starts[i].key))
    && (forall k :: 0 <= k < |lines| ==> StartIfKey(p, lines, starts, k))
  }

  predicate StartIfKey(p: Platform, lines: seq<string>, starts: seq<StartLine>, k: nat)
    requires k < |lines|
  {
    KindOf(p, lines[k]).Key? ==> IsStart(starts, k)
  }

  predicate IsStart(starts: seq<StartLine>, k: nat) { exists i :: 0 <= i < |starts| && starts[i].line == k }

  lemma {:induction false} StartsFound(p: Platform, lines: seq<string>)
    requires Starts(p, lines).Ok?
    ensures StartsAre(p, lines, Starts(p, lines).value)
  {
    if lines != [] {
      var n := |lines| - 1;
      StartsFound(p, lines[..n]);
      var before := Starts(p, lines[..n]).value;
      if KindOf(p, lines[n]).Key? {
        NewStart(p, lines, before, KindOf(p, lines[n]).key);
      } else {
        SameStarts(p, lines, before);
      }
    }
  }

  lemma SameStarts(p: Platform, lines: seq<string>, starts: seq<StartLine>)
    requires lines != [] && StartsAre(p, lines[..|lines| - 1], starts) && !KindOf(p, lines[|lines| - 1]).Key?
    ensures StartsAre(p, lines, starts)
  {
    forall k | 0 <= k < |lines| ensures StartIfKey(p, lines, starts, k) {
      if k < |lines| - 1 { assert StartIfKey(p, lines[..|lines| - 1], starts, k); }
    }
  }

  lemma NewStart(p: Platform, lines: seq<string>, before: seq<StartLine>, key: string)
    requires lines != [] && StartsAre(p, lines[..|lines| - 1], before) && KindOf(p, lines[|lines| - 1]) == Key(key)
    ensures StartsAre(p, lines, before + [StartLine(key, |lines| - 1)])
  {
    var n, starts := |lines| - 1, before + [StartLine(key, |lines| - 1)];
    assert StartsInside(lines, starts);
    forall k | 0 <= k < |lines| ensures StartIfKey(p, lines, starts, k) {
      if k == n {
        assert starts[|before|].line == k;
      } else if KindOf(p, lines[k]).Key? {
        assert StartIfKey(p, lines[..n], before, k);
        var i :| 0 <= i < |before| && before[i].line == k;
        assert starts[i].line == k;
      }
    }
  }

  // -------------------------------------------------------------------------
  // Entries
  // -------------------------------------------------------------------------

  predicate AllSeparators(p: Platform, lines: seq<string>) { forall i :: 0 <= i < |lines| ==> IsSeparator(p, lines[i]) }

  lemma {:induction false} TrimIs(p: Platform, lines: seq<string>, from: nat, to: nat)
    requires to <= |lines|
    ensures var end := TrimEnd(p, lines, from, to);
            AllSeparators(p, lines[end..to]) && (from < end ==> !IsSeparator(p, lines[end - 1]))
  {
    if from < to && IsSeparator(p, lines[to - 1]) {
      TrimIs(p, lines, from, to - 1);
      var end := TrimEnd(p, lines, from, to - 1);
      forall k | end <= k < to ensures IsSeparator(p, lines[k]) {
        if k < to - 1 { assert lines[end..to - 1][k - end] == lines[k]; }
      }
    }
  }

  lemma {:induction false} SeparatorsLaidOut(p: Platform, lines: seq<string>, active: bool)
    requires AllSeparators(p, lines)
    ensures LaidOut(p, lines, active) && KeysOf(p, lines) == []
  {
    if lines != [] { SeparatorsLaidOut(p, lines[..|lines| - 1], active); }
  }

  /** The lines a key owns start with its key line and end before anything that is not its own. */
  ghost predicate Owns(p: Platform, lines: seq<string>, key: string, first: nat, last: nat) {
    && first < last <= |lines| && KindOf(p, lines[first]) == Key(key)
    && KeysOf(p, lines[first..last]) == [key] && LaidOut(p, lines[last..], false)
  }

  ghost predicate EntryOk(p: Platform, lines: seq<string>, e: Entry) { Owns(p, lines, e.key, e.first, e.last) }

  ghost predicate EntriesOk(p: Platform, lines: seq<string>, entries: seq<Entry>) {
    && Spans(lines, entries)
    && (forall i :: 0 <= i < |entries| ==> EntryOk(p, lines, entries[i]))
    && (forall k :: 0 <= k < |lines| ==> EntryIfKey(p, lines, entries, k))
  }

  /** Entries own lines one after another. */
  predicate Spans(lines: seq<string>, entries: seq<Entry>) {
    && (forall i :: 0 <= i < |entries| ==> entries[i].first < entries[i].last <= |lines|)
    && (forall i, j :: 0 <= i < j < |entries| ==> entries[i].last <= entries[j].first)
  }

  predicate EntryIfKey(p: Platform, lines: seq<string>, entries: seq<Entry>, k: nat)
    requires k < |lines|
  {
    KindOf(p, lines[k]).Key? ==> IsEntryStart(entries, k)
  }

  predicate IsEntryStart(entries: seq<Entry>, k: nat) { exists i :: 0 <= i < |entries| && entries[i].first == k }

  function EntryKeys(entries: seq<Entry>): seq<string> {
    seq(|entries|, i requires 0 <= i < |entries| => entries[i].key)
  }

  lemma {:induction false} NoKeysBetween(p: Platform, lines: seq<string>)
    requires forall k :: 0 <= k < |lines| ==> !KindOf(p, lines[k]).Key?
    ensures KeysOf(p, lines) == []
  {
    if lines != [] { NoKeysBetween(p, lines[..|lines| - 1]); }
  }

  lemma OneKey(p: Platform, raw: string)
    ensures KeysOf(p, [raw]) == KeyOf(p, raw) && (LaidOut(p, [raw], false) <==> KindOf(p, raw).Key? || KindOf(p, raw).Separator?)
  {
    assert [raw][..0] == [];
  }

  lemma KeyFirst(p: Platform, lines: seq<string>, active: bool)
    requires lines != [] && KindOf(p, lines[0]).Key? && LaidOut(p, lines, active)
    ensures LaidOut(p, lines, false)
  {
    assert lines == [lines[0]] + lines[1..];
    OneKey(p, lines[0]);
    LaidOutConcat(p, [lines[0]], lines[1..], active);
    LaidOutConcat(p, [lines[0]], lines[1..], false);
  }

  /** From a key line on, or from the end, a layout stands on its own. */
  lemma FromKeyLine(p: Platform, lines: seq<string>, k: nat)
    requires LaidOut(p, lines, false) && k <= |lines| && (k < |lines| ==> KindOf(p, lines[k]).Key?)
    ensures LaidOut(p, lines[k..], false)
  {
    assert lines == lines[..k] + lines[k..];
    LaidOutConcat(p, lines[..k], lines[k..], false);
    if k < |lines| { KeyFirst(p, lines[k..], KeysOf(p, lines[..k]) != []); }
  }

  /** A key line, lines without one, and then a key line or the end. */
  predicate KeyRun(p: Platform, lines: seq<string>, key: string, first: nat, next: nat) {
    && first < next <= |lines| && KindOf(p, lines[first]) == Key(key)
    && (next < |lines| ==> KindOf(p, lines[next]).Key?)
    && forall k :: first < k < next ==> !KindOf(p, lines[k]).Key?
  }

  lemma StartRuns(p: Platform, lines: seq<string>, starts: seq<StartLine>, i: nat)
    requires StartsAre(p, lines, starts) && i < |starts|
    ensures KeyRun(p, lines, starts[i].key, starts[i].line, NextStart(lines, starts, i))
  {
    forall k | starts[i].line < k < NextStart(lines, starts, i) && k < |lines| ensures !KindOf(p, lines[k]).Key? {
      assert StartIfKey(p, lines, starts, k);
      if KindOf(p, lines[k]).Key? { StartBetween(lines, starts, i, k); }
    }
  }

  lemma OwnsItsLines(p: Platform, lines: seq<string>, key: string, first: nat, next: nat)
    requires LaidOut(p, lines, false) && KeyRun(p, lines, key, first, next)
    ensures Owns(p, lines, key, first, TrimEnd(p, lines, first + 1, next))
  {
    AfterEntry(p, lines, first + 1, next);
    OwnedKeys(p, lines, key, first, TrimEnd(p, lines, first + 1, next));
  }

  /** What follows the owned lines is separators, then a key line or nothing. */
  lemma AfterEntry(p: Platform, lines: seq<string>, from: nat, next: nat)
    requires from <= next <= |lines| && LaidOut(p, lines, false) && (next < |lines| ==> KindOf(p, lines[next]).Key?)
    ensures LaidOut(p, lines[TrimEnd(p, lines, from, next)..], false)
  {
    var last := TrimEnd(p, lines, from, next);
    TrimIs(p, lines, from, next);
    FromKeyLine(p, lines, next);
    SliceInTwo(lines, last, next);
    SeparatorsThen(p, lines[last..next], lines[next..]);
  }

  lemma SliceInTwo<T>(s: seq<T>, i: nat, j: nat)
    requires i <= j <= |s|
    ensures s[i..] == s[i..j] + s[j..]
  {
  }

  lemma SeparatorsThen(p: Platform, separators: seq<string>, rest: seq<string>)
    requires AllSeparators(p, separators) && LaidOut(p, rest, false)
    ensures LaidOut(p, separators + rest, false)
  {
    SeparatorsLaidOut(p, separators, false);
    Together(p, separators, rest);
  }

  lemma OwnedKeys(p: Platform, lines: seq<string>, key: string, first: nat, last: nat)
    requires first < last <= |lines| && KindOf(p, lines[first]) == Key(key)
    requires forall k :: first < k < last ==> !KindOf(p, lines[k]).Key?
    ensures KeysOf(p, lines[first..last]) == [key]
  {
    var line, body := [lines[first]], lines[first + 1..last];
    assert lines[first..last] == line + body;
    KeysConcat(p, line, body);
    OneKey(p, lines[first]);
    NoKeysBetween(p, body);
  }

  lemma StartBetween(lines: seq<string>, starts: seq<StartLine>, i: nat, k: nat)
    requires StartsInside(lines, starts) && i < |starts| && IsStart(starts, k)
    ensures !(starts[i].line < k < NextStart(lines, starts, i))
  {
    var j :| 0 <= j < |starts| && starts[j].line == k;
    if j > i + 1 { assert starts[i + 1].line < starts[j].line; }
    if j < i { assert starts[j].line < starts[i].line; }
  }

  lemma EntriesAreOk(p: Platform, lines: seq<string>, features: Features)
    requires Starts(p, lines).Ok?
    ensures var starts := Starts(p, lines).value;
            && StartsInside(lines, starts)
            && EntriesOk(p, lines, Entries(p, lines, features, starts, |starts|))
            && EntryKeys(Entries(p, lines, features, starts, |starts|)) == KeysOf(p, lines)
  {
    var starts := Starts(p, lines).value;
    StartsFound(p, lines);
    StartsMean(p, lines);
    EntriesFollowStarts(p, lines, features, starts);
    EntriesOwn(p, lines, features, starts);
    EntriesStart(p, lines, features, starts);
  }

  lemma EntriesFollowStarts(p: Platform, lines: seq<string>, features: Features, starts: seq<StartLine>)
    requires StartsInside(lines, starts)
    ensures var entries := Entries(p, lines, features, starts, |starts|);
            && |entries| == |starts|
            && forall i :: 0 <= i < |starts| ==>
                 && entries[i].key == starts[i].key && entries[i].first == starts[i].line
                 && entries[i].first < entries[i].last <= NextStart(lines, starts, i)
  {
  }

  lemma EntriesStart(p: Platform, lines: seq<string>, features: Features, starts: seq<StartLine>)
    requires StartsAre(p, lines, starts)
    ensures var entries := Entries(p, lines, features, starts, |starts|);
            && EntryKeys(entries) == StartKeys(starts)
            && (forall k :: 0 <= k < |lines| ==> EntryIfKey(p, lines, entries, k))
            && Spans(lines, entries)
  {
    var entries := Entries(p, lines, features, starts, |starts|);
    EntriesFollowStarts(p, lines, features, starts);
    forall k | 0 <= k < |lines| ensures EntryIfKey(p, lines, entries, k) {
      assert StartIfKey(p, lines, starts, k);
      if IsStart(starts, k) { StartOfEntry(starts, entries, k); }
    }
    EntriesApart(lines, starts, entries);
  }

  lemma StartOfEntry(starts: seq<StartLine>, entries: seq<Entry>, k: nat)
    requires IsStart(starts, k) && |entries| == |starts| && forall i :: 0 <= i < |starts| ==> entries[i].first == starts[i].line
    ensures IsEntryStart(entries, k)
  {
    var i :| 0 <= i < |starts| && starts[i].line == k;
    assert entries[i].first == k;
  }

  lemma EntriesApart(lines: seq<string>, starts: seq<StartLine>, entries: seq<Entry>)
    requires StartsInside(lines, starts) && |entries| == |starts|
    requires forall i :: 0 <= i < |starts| ==>
               entries[i].first == starts[i].line && entries[i].first < entries[i].last <= NextStart(lines, starts, i)
    ensures Spans(lines, entries)
  {
    forall i | 0 <= i < |entries| ensures entries[i].last <= |lines| { assert NextStart(lines, starts, i) <= |lines|; }
    forall i, j | 0 <= i < j < |entries| ensures entries[i].last <= entries[j].first {
      if i + 1 < j { assert starts[i + 1].line < starts[j].line; }
    }
  }

  lemma EntriesOwn(p: Platform, lines: seq<string>, features: Features, starts: seq<StartLine>)
    requires StartsAre(p, lines, starts) && LaidOut(p, lines, false)
    ensures var entries := Entries(p, lines, features, starts, |starts|);
            forall i :: 0 <= i < |entries| ==> EntryOk(p, lines, entries[i])
  {
    var entries := Entries(p, lines, features, starts, |starts|);
    forall i | 0 <= i < |entries| ensures EntryOk(p, lines, entries[i]) {
      StartRuns(p, lines, starts, i);
      OwnsItsLines(p, lines, starts[i].key, starts[i].line, NextStart(lines, starts, i));
    }
  }

  /** Additions go right after the last entry, before trailing separators; without entries, first. */
  ghost predicate AppendOk(p: Platform, src: Source) {
    && src.appendLine <= |src.lines| && AllSeparators(p, src.lines[src.appendLine..])
    && (if src.entries == [] then src.appendLine == 0 else src.appendLine == src.entries[|src.entries| - 1].last)
  }

  lemma {:induction false} TrimFrom(p: Platform, lines: seq<string>, from: nat, to: nat)
    requires from < to <= |lines| && !IsSeparator(p, lines[from])
    ensures TrimEnd(p, lines, 0, to) == TrimEnd(p, lines, from + 1, to)
  {
    if from + 1 < to && IsSeparator(p, lines[to - 1]) { TrimFrom(p, lines, from, to - 1); }
  }

  lemma NoEntryNoLine(p: Platform, lines: seq<string>)
    requires LaidOut(p, lines, false) && KeysOf(p, lines) == []
    ensures AllSeparators(p, lines)
  {
    if lines != [] {
      var before, last := lines[..|lines| - 1], lines[|lines| - 1];
      NoEntryNoLine(p, before);
      assert KindOf(p, last).Separator? && IsSeparator(p, last);
      SeparatorsSnoc(p, before, last);
    }
  }

  lemma SeparatorsSnoc(p: Platform, before: seq<string>, last: string)
    requires AllSeparators(p, before) && IsSeparator(p, last)
    ensures AllSeparators(p, before + [last])
  {
  }

  /** Entries one after another, the last of them ending where additions go. */
  predicate SourceSpans(src: Source) {
    Spans(src.lines, src.entries) && (src.entries != [] ==> src.appendLine == src.entries[|src.entries| - 1].last)
  }

  /** What reading a block gives, for any block that is read. */
  ghost predicate SourceOk(p: Platform, src: Source) {
    && SourceSpans(src) && EntriesOk(p, src.lines, src.entries) && EntryKeys(src.entries) == KeysOf(p, src.lines)
    && LaidOut(p, src.lines, false) && DistinctFolds(p, KeysOf(p, src.lines)) && AppendOk(p, src)
    && (src.eol == "\n" || src.eol == "\r\n")
  }

  lemma ParsedIsOk(p: Platform, opening: string, lines: seq<string>, closing: string, body: string)
    requires opening == "---\n" || opening == "---\r\n"
    requires ParseBlock(p, opening, lines, closing, body).Ok?
    ensures SourceOk(p, ParseBlock(p, opening, lines, closing, body).value)
  {
    BlockIs(p, opening, lines, closing, body);
    StartsMean(p, lines);
    EntriesAreOk(p, lines, p.scan(Contents(lines)).value);
    AppendIsOk(p, lines, p.scan(Contents(lines)).value);
  }

  lemma BlockIs(p: Platform, opening: string, lines: seq<string>, closing: string, body: string)
    requires opening == "---\n" || opening == "---\r\n"
    requires ParseBlock(p, opening, lines, closing, body).Ok?
    ensures p.scan(Contents(lines)).Some? && Starts(p, lines).Ok? && StartsInside(lines, Starts(p, lines).value)
    ensures var src, starts := ParseBlock(p, opening, lines, closing, body).value, Starts(p, lines).value;
            && src.lines == lines && src.entries == Entries(p, lines, p.scan(Contents(lines)).value, starts, |starts|)
            && |src.entries| == |starts| && src.appendLine == TrimEnd(p, lines, 0, |lines|)
            && (starts != [] ==> src.entries[|starts| - 1] == EntryAt(p, lines, p.scan(Contents(lines)).value, starts, |starts| - 1))
            && (src.eol == "\n" || src.eol == "\r\n")
  {
    StartsAreInside(p, lines);
  }

  lemma AppendIsOk(p: Platform, lines: seq<string>, features: Features)
    requires Starts(p, lines).Ok?
    ensures var starts, append := Starts(p, lines).value, TrimEnd(p, lines, 0, |lines|);
            && AllSeparators(p, lines[append..]) && StartsInside(lines, starts)
            && (if starts == [] then append == 0 else append == EntryAt(p, lines, features, starts, |starts| - 1).last)
  {
    var starts := Starts(p, lines).value;
    TrimIs(p, lines, 0, |lines|);
    assert lines[TrimEnd(p, lines, 0, |lines|)..] == lines[TrimEnd(p, lines, 0, |lines|)..|lines|];
    StartsFound(p, lines);
    StartsMean(p, lines);
    if starts == [] {
      NoEntryNoLine(p, lines);
    } else {
      var n := |starts| - 1;
      assert KindOf(p, lines[starts[n].line]) == Key(starts[n].key);
      TrimFrom(p, lines, starts[n].line, |lines|);
    }
  }
}
