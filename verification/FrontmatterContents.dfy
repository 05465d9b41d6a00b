/** What an accepted patch leaves under each key of the note, told from the operations and the lines before it. */
module FrontmatterContents {
  import opened StableSort
  import opened TextSplice
  import opened FrontmatterSource
  import opened FrontmatterLines
  import opened FrontmatterLayout
  import opened FrontmatterPatch
  import opened FrontmatterProofs
  import opened FrontmatterResults

  // -------------------------------------------------------------------------
  // Lines a key owns
  // -------------------------------------------------------------------------

  /** A key line and what belongs to it, up to its last line that is no separator. */
  predicate IsBlock(p: Platform, key: string, block: seq<string>) {
    block != [] && KindOf(p, block[0]) == Key(key) && NoKeyFrom(p, block, 1) && !IsSeparator(p, block[|block| - 1])
  }

  predicate NoKeyFrom(p: Platform, lines: seq<string>, from: nat) { forall k :: from <= k < |lines| ==> !KindOf(p, lines[k]).Key? }

  predicate OwnedAt(lines: seq<string>, e: Entry, key: string, block: seq<string>) {
    e.key == key && e.first <= e.last <= |lines| && lines[e.first..e.last] == block
  }

  /** The block has the key, and these are the lines it owns. */
  ghost predicate HasBlock(src: Source, key: string, block: seq<string>) {
    exists i :: 0 <= i < |src.entries| && OwnedAt(src.lines, src.entries[i], key, block)
  }

  lemma {:induction false} TrimAt(p: Platform, lines: seq<string>, from: nat, end: nat, to: nat)
    requires from <= end <= to <= |lines| && AllSeparators(p, lines[end..to])
    requires from < end ==> !IsSeparator(p, lines[end - 1])
    ensures TrimEnd(p, lines, from, to) == end
  {
    if end < to {
      assert lines[end..to][to - 1 - end] == lines[to - 1];
      assert lines[end..to - 1] == lines[end..to][..to - 1 - end];
      TrimAt(p, lines, from, end, to - 1);
    }
  }

  /** Lines without a key between a block and the next key line are separators. */
  lemma OnlySeparators(p: Platform, rest: seq<string>, n: nat)
    requires LaidOut(p, rest, false) && n <= |rest| && forall k :: 0 <= k < n ==> !KindOf(p, rest[k]).Key?
    ensures AllSeparators(p, rest[..n])
  {
    assert rest == rest[..n] + rest[n..];
    LaidOutConcat(p, rest[..n], rest[n..], false);
    NoKeysBetween(p, rest[..n]);
    NoEntryNoLine(p, rest[..n]);
  }

  lemma KeyInside(p: Platform, lines: seq<string>, k: nat)
    requires k < |lines| && KindOf(p, lines[k]).Key?
    ensures KeysOf(p, lines) != []
  {
    assert lines == lines[..k] + [lines[k]] + lines[k + 1..];
    KeysConcat(p, lines[..k] + [lines[k]], lines[k + 1..]);
    KeysConcat(p, lines[..k], [lines[k]]);
    OneKey(p, lines[k]);
  }

  lemma OneKeyOnly(p: Platform, key: string, block: seq<string>)
    requires block != [] && KindOf(p, block[0]) == Key(key) && KeysOf(p, block) == [key]
    ensures NoKeyFrom(p, block, 1)
  {
    var rest := block[1..];
    assert block == [block[0]] + rest;
    KeysConcat(p, [block[0]], rest);
    OneKey(p, block[0]);
    forall k | 1 <= k < |block| ensures !KindOf(p, block[k]).Key? {
      assert block[k] == rest[k - 1];
      if KindOf(p, rest[k - 1]).Key? { KeyInside(p, rest, k - 1); }
    }
  }

  /** Where a block stands among lines read as a whole, there is an entry of its key that owns it. */
  lemma BlockIsOwned(p: Platform, features: Features, lines: seq<string>, starts: seq<StartLine>,
                     head: seq<string>, key: string, block: seq<string>, tail: seq<string>) returns (i: nat)
    requires StartsAre(p, lines, starts) && lines == head + block + tail && IsBlock(p, key, block) && LaidOut(p, tail, false)
    ensures i < |starts|
    ensures var e := EntryAt(p, lines, features, starts, i); e.key == key && e.first == |head| && e.last == |head| + |block|
  {
    i := StartHere(p, lines, starts, head, key, block, tail);
    StartRuns(p, lines, starts, i);
    EndsThere(p, lines, head, key, block, tail, NextStart(lines, starts, i));
    EntryFields(p, lines, features, starts, i);
  }

  lemma StartHere(p: Platform, lines: seq<string>, starts: seq<StartLine>, head: seq<string>, key: string, block: seq<string>, tail: seq<string>)
    returns (i: nat)
    requires StartsAre(p, lines, starts) && lines == head + block + tail && IsBlock(p, key, block)
    ensures i < |starts| && starts[i] == StartLine(key, |head|)
  {
    assert lines[|head|] == block[0];
    assert StartIfKey(p, lines, starts, |head|);
    i :| 0 <= i < |starts| && starts[i].line == |head|;
  }

  lemma EndsThere(p: Platform, lines: seq<string>, head: seq<string>, key: string, block: seq<string>, tail: seq<string>, next: nat)
    requires lines == head + block + tail && IsBlock(p, key, block) && LaidOut(p, tail, false) && KeyRun(p, lines, key, |head|, next)
    ensures TrimEnd(p, lines, |head| + 1, next) == |head| + |block|
  {
    NextIsBehind(p, lines, head, key, block, tail, next);
    assert lines[|head| + |block| - 1] == block[|block| - 1];
    TrimBehind(p, lines, head + block, tail, |head| + 1, next);
  }

  lemma TrimBehind(p: Platform, lines: seq<string>, front: seq<string>, tail: seq<string>, from: nat, next: nat)
    requires lines == front + tail && LaidOut(p, tail, false) && from <= |front| <= next <= |lines|
    requires from < |front| ==> !IsSeparator(p, lines[|front| - 1])
    requires forall k :: from <= k < next ==> !KindOf(p, lines[k]).Key?
    ensures TrimEnd(p, lines, from, next) == |front|
  {
    TailSeparators(p, lines, front, tail, next);
    TrimAt(p, lines, from, |front|, next);
  }

  lemma NextIsBehind(p: Platform, lines: seq<string>, head: seq<string>, key: string, block: seq<string>, tail: seq<string>, next: nat)
    requires lines == head + block + tail && IsBlock(p, key, block) && |head| < next <= |lines|
    requires next < |lines| ==> KindOf(p, lines[next]).Key?
    ensures |head| + |block| <= next
  {
    forall k | |head| < k < |head| + |block| ensures !KindOf(p, lines[k]).Key? { assert lines[k] == block[k - |head|]; }
  }

  lemma TailSeparators(p: Platform, lines: seq<string>, head: seq<string>, tail: seq<string>, next: nat)
    requires lines == head + tail && |head| <= next <= |lines| && LaidOut(p, tail, false)
    requires forall k :: |head| <= k < next ==> !KindOf(p, lines[k]).Key?
    ensures AllSeparators(p, lines[|head|..next])
  {
    forall k | 0 <= k < next - |head| ensures !KindOf(p, tail[k]).Key? { assert tail[k] == lines[|head| + k]; }
    OnlySeparators(p, tail, next - |head|);
    assert lines[|head|..next] == tail[..next - |head|];
  }

  // -------------------------------------------------------------------------
  // What stands behind an edit
  // -------------------------------------------------------------------------

  /** The spliced lines from the end of the first `n` edits on. */
  function Behind(lines: seq<string>, edits: seq<Edit<string>>, n: nat): seq<string>
    requires Fits(lines, edits) && n <= |edits|
    decreases |edits| - n
  {
    FitsUpTo(lines, edits, n);
    if n == |edits| then lines[EndOf(edits)..]
    else lines[EndOf(edits[..n])..edits[n].start] + edits[n].replacement + Behind(lines, edits, n + 1)
  }

  lemma FitsUpTo(lines: seq<string>, edits: seq<Edit<string>>, n: nat)
    requires Fits(lines, edits) && n <= |edits|
    ensures Fits(lines, edits[..n]) && EndOf(edits[..n]) <= |lines| && EndOf(edits) <= |lines|
    ensures n < |edits| ==> EndOf(edits[..n]) <= edits[n].start <= edits[n].end <= |lines|
  {
    FitsPrefix(lines, edits, n);
    FitsOrder(lines, edits);
    if 0 < n < |edits| { assert edits[n - 1].end <= edits[n].start; }
  }

  lemma {:induction false} SplicedAt(lines: seq<string>, edits: seq<Edit<string>>, n: nat)
    requires Fits(lines, edits) && n <= |edits|
    ensures Fits(lines, edits[..n]) && Spliced(lines, edits) == Built(lines, edits[..n]) + Behind(lines, edits, n)
    decreases |edits| - n
  {
    FitsUpTo(lines, edits, n);
    if n == |edits| {
      assert edits[..n] == edits;
    } else {
      SplicedAt(lines, edits, n + 1);
      FitsUpTo(lines, edits, n + 1);
      BuiltSnoc(lines, edits, n + 1);
      var gap, own := lines[EndOf(edits[..n])..edits[n].start], edits[n].replacement;
      Rejoin(Built(lines, edits[..n]), gap, own, Behind(lines, edits, n + 1));
    }
  }

  lemma Rejoin<T>(a: seq<T>, b: seq<T>, c: seq<T>, d: seq<T>)
    ensures a + (b + c) + d == a + (b + c + d)
  {
  }

  /** Edits that leave every stretch of lines, and every replacement, standing on its own. */
  ghost predicate Standing(p: Platform, lines: seq<string>, edits: seq<Edit<string>>) {
    && Fits(lines, edits) && LaidOut(p, lines, false)
    && forall i :: 0 <= i < |edits| ==> StandsAlone(p, lines, edits[i])
  }

  ghost predicate StandsAlone(p: Platform, lines: seq<string>, e: Edit<string>) {
    e.end <= |lines| && LaidOut(p, lines[e.end..], false) && LaidOut(p, e.replacement, false)
  }

  lemma EndStands(p: Platform, lines: seq<string>, edits: seq<Edit<string>>, n: nat)
    requires Standing(p, lines, edits) && n <= |edits|
    ensures EndOf(edits[..n]) <= |lines| && LaidOut(p, lines[EndOf(edits[..n])..], false)
  {
    FitsUpTo(lines, edits, n);
    if n == 0 { assert lines[0..] == lines; } else { assert StandsAlone(p, lines, edits[n - 1]); }
  }

  lemma {:induction false} BehindStands(p: Platform, lines: seq<string>, edits: seq<Edit<string>>, n: nat)
    requires Standing(p, lines, edits) && n <= |edits|
    ensures LaidOut(p, Behind(lines, edits, n), false)
    decreases |edits| - n
  {
    EndStands(p, lines, edits, n);
    FitsUpTo(lines, edits, n);
    if n == |edits| {
      assert edits[..n] == edits;
    } else {
      BehindStands(p, lines, edits, n + 1);
      assert StandsAlone(p, lines, edits[n]);
      GapLaidOut(p, lines, EndOf(edits[..n]), edits[n].start);
      var gap := lines[EndOf(edits[..n])..edits[n].start];
      Together(p, gap, edits[n].replacement);
      Together(p, gap + edits[n].replacement, Behind(lines, edits, n + 1));
    }
  }

  /** What the edit numbered `n` writes stands in the result, before something that stands on its own. */
  lemma WrittenStands(p: Platform, lines: seq<string>, edits: seq<Edit<string>>, n: nat) returns (head: seq<string>, tail: seq<string>)
    requires Standing(p, lines, edits) && n < |edits|
    ensures Spliced(lines, edits) == head + edits[n].replacement + tail && LaidOut(p, tail, false)
  {
    SplicedAt(lines, edits, n + 1);
    FitsUpTo(lines, edits, n + 1);
    BuiltSnoc(lines, edits, n + 1);
    BehindStands(p, lines, edits, n + 1);
    head := Built(lines, edits[..n]) + lines[EndOf(edits[..n])..edits[n].start];
    tail := Behind(lines, edits, n + 1);
    Regroup3(Built(lines, edits[..n]), lines[EndOf(edits[..n])..edits[n].start], edits[n].replacement);
  }

  /** The edits that end before a stretch of lines; the next one starts behind it. */
  lemma {:induction false} EditsBefore(lines: seq<string>, edits: seq<Edit<string>>, from: nat, to: nat, m: nat) returns (n: nat)
    requires Fits(lines, edits) && from < to && m <= |edits|
    requires forall i :: 0 <= i < |edits| ==> edits[i].end <= from || to <= edits[i].start
    requires forall i :: m <= i < |edits| ==> to <= edits[i].start
    ensures n <= |edits| && EndOf(edits[..n]) <= from && (n < |edits| ==> to <= edits[n].start)
  {
    if m == 0 || edits[m - 1].end <= from { n := m; } else { n := EditsBefore(lines, edits, from, to, m - 1); }
  }

  /** Lines no edit touches stand in the result, before something that stands on its own if what follows them did. */
  lemma UntouchedStands(p: Platform, lines: seq<string>, edits: seq<Edit<string>>, from: nat, to: nat)
    returns (head: seq<string>, tail: seq<string>)
    requires Standing(p, lines, edits) && from < to <= |lines| && LaidOut(p, lines[to..], false)
    requires forall i :: 0 <= i < |edits| ==> edits[i].end <= from || to <= edits[i].start
    ensures Spliced(lines, edits) == head + lines[from..to] + tail && LaidOut(p, tail, false)
  {
    var n := EditsBefore(lines, edits, from, to, |edits|);
    SplicedAt(lines, edits, n);
    FitsUpTo(lines, edits, n);
    var end := EndOf(edits[..n]);
    head := Built(lines, edits[..n]) + lines[end..from];
    if n == |edits| {
      assert edits[..n] == edits;
      tail := lines[to..];
      CutAround(Built(lines, edits[..n]), lines, end, from, to, |lines|, []);
    } else {
      tail := lines[to..edits[n].start] + (edits[n].replacement + Behind(lines, edits, n + 1));
      CutAround(Built(lines, edits[..n]), lines, end, from, to, edits[n].start, edits[n].replacement + Behind(lines, edits, n + 1));
      Regroup3(lines[end..edits[n].start], edits[n].replacement, Behind(lines, edits, n + 1));
      BehindStands(p, lines, edits, n + 1);
      assert StandsAlone(p, lines, edits[n]);
      GapLaidOut(p, lines, to, edits[n].start);
      Together(p, edits[n].replacement, Behind(lines, edits, n + 1));
      Together(p, lines[to..edits[n].start], edits[n].replacement + Behind(lines, edits, n + 1));
    }
  }

  lemma CutAround<T>(built: seq<T>, s: seq<T>, a: nat, b: nat, c: nat, d: nat, rest: seq<T>)
    requires a <= b <= c <= d <= |s|
    ensures built + (s[a..d] + rest) == (built + s[a..b]) + s[b..c] + (s[c..d] + rest)
    ensures d == |s| ==> built + s[a..] == (built + s[a..b]) + s[b..c] + s[c..]
  {
    assert s[a..d] == s[a..b] + s[b..c] + s[c..d];
  }

  // -------------------------------------------------------------------------
  // The edits of a patch
  // -------------------------------------------------------------------------

  lemma PatchStands(p: Platform, src: Source, ops: seq<Operation>)
    requires Ready(p, src, ops) && AllOneLine(p, ops) && Fits(src.lines, Ordered(p, src, ops))
    ensures Standing(p, src.lines, Ordered(p, src, ops))
  {
    var es, added := SortBy(Before, EditsOf(p, src, ops)), AddedLines(p, src, Additions(p, src, ops));
    EntryEditsOk(p, src, ops);
    AddedLinesKeys(p, src, ops);
    EntryEditsStand(p, src.lines, es, DeletedKeys(p, src, ops));
    if added != [] { AdditionStands(p, src.lines, es, src.appendLine, added); }
  }

  lemma EntryEditsStand(p: Platform, lines: seq<string>, es: seq<Edit<string>>, deleted: set<string>)
    requires EditsOk(p, lines, es, deleted)
    ensures Standing(p, lines, es)
  {
    forall i | 0 <= i < |es| ensures StandsAlone(p, lines, es[i]) { assert EditOk(p, lines, es[i], deleted); }
  }

  lemma AdditionStands(p: Platform, lines: seq<string>, es: seq<Edit<string>>, at: nat, added: seq<string>)
    requires Standing(p, lines, es) && at <= |lines| && AllSeparators(p, lines[at..]) && LaidOut(p, added, false)
    requires Fits(lines, es + [Edit(at, at, added)])
    ensures Standing(p, lines, es + [Edit(at, at, added)])
  {
    var all := es + [Edit(at, at, added)];
    SeparatorsLaidOut(p, lines[at..], false);
    forall i | 0 <= i < |all| ensures StandsAlone(p, lines, all[i]) { if i < |es| { assert StandsAlone(p, lines, es[i]); } }
  }

  /** The operation sets the key, spelled as the note has it or, where the note lacks it, as the operation does. */
  predicate Spells(p: Platform, before: Source, op: Operation, key: string) {
    || (exists i :: 0 <= i < |before.entries| && p.fold(before.entries[i].key) == p.fold(op.key) && key == before.entries[i].key)
    || ((forall i :: 0 <= i < |before.entries| ==> p.fold(before.entries[i].key) != p.fold(op.key)) && key == op.key)
  }

  lemma WrittenSpells(p: Platform, src: Source, op: Operation)
    ensures Spells(p, src, op, if Hit(p, src, op).Some? then Hit(p, src, op).value.key else op.key)
  {
    if Hit(p, src, op).Some? {
      var i :| 0 <= i < |src.entries| && src.entries[i] == Hit(p, src, op).value;
    } else {
      forall i | 0 <= i < |src.entries| ensures p.fold(src.entries[i].key) != p.fold(op.key) { AdditionIsNew(p, src, op, i); }
    }
  }

  /** One line of the value, under the key. */
  lemma WrittenIsBlock(p: Platform, src: Source, op: Operation)
    requires Conventional(p) && SourceOk(p, src) && OperationOk(p, op) && Planned(p, src, op) && op.Set? && OneLine(p, p.json(op.value))
    ensures IsBlock(p, if Hit(p, src, op).Some? then Hit(p, src, op).value.key else op.key, [WrittenBy(p, src, op)])
  {
    WrittenKind(p, src, op);
    OneKey(p, WrittenBy(p, src, op));
  }

  /** An added line stands among the additions, before additions that stand on their own. */
  lemma {:induction false} AddedStands(p: Platform, src: Source, ops: seq<Operation>, i: nat) returns (head: seq<string>, tail: seq<string>)
    requires Ready(p, src, ops) && AllOneLine(p, ops) && i < |ops| && ops[i].Set? && Hit(p, src, ops[i]).None?
    ensures AddedLines(p, src, Additions(p, src, ops)) == head + [WrittenBy(p, src, ops[i])] + tail && LaidOut(p, tail, false)
    decreases |ops|
  {
    var before, last := ops[..|ops| - 1], ops[|ops| - 1];
    ReadyPrefix(p, src, ops);
    AddedLinesSnoc(p, src, ops);
    var line := [WrittenBy(p, src, ops[i])];
    if i == |ops| - 1 {
      head, tail := AddedLines(p, src, Additions(p, src, before)), [];
      assert head + line == head + line + [];
    } else {
      var more := if Hit(p, src, last).None? then LineFor(p, src, last) else [];
      head, tail := AddedStands(p, src, before, i);
      OneLineStands(p, src, last);
      Together(p, tail, more);
      Regroup3(head + line, tail, more);
      tail := tail + more;
    }
  }

  lemma OneLineStands(p: Platform, src: Source, op: Operation)
    requires Conventional(p) && SourceOk(p, src) && OperationOk(p, op) && Planned(p, src, op) && (op.Set? ==> OneLine(p, p.json(op.value)))
    ensures Hit(p, src, op).None? ==> LaidOut(p, LineFor(p, src, op), false)
  {
    if Hit(p, src, op).None? {
      WrittenKind(p, src, op);
      OneKey(p, WrittenBy(p, src, op));
    }
  }

  /** The line a set operation writes, and what is around it in the result. */
  lemma SetStands(p: Platform, src: Source, ops: seq<Operation>, i: nat) returns (head: seq<string>, tail: seq<string>)
    requires Ready(p, src, ops) && AllOneLine(p, ops) && Fits(src.lines, Ordered(p, src, ops)) && i < |ops| && ops[i].Set?
    ensures Spliced(src.lines, Ordered(p, src, ops)) == head + [WrittenBy(p, src, ops[i])] + tail && LaidOut(p, tail, false)
  {
    PatchStands(p, src, ops);
    if Hit(p, src, ops[i]).Some? {
      var k := EditOfOp(p, src, ops, i);
      head, tail := WrittenStands(p, src.lines, Ordered(p, src, ops), k);
    } else {
      head, tail := AdditionAround(p, src, ops, i);
    }
  }

  lemma EditOfOp(p: Platform, src: Source, ops: seq<Operation>, i: nat) returns (k: nat)
    requires i < |ops| && ops[i].Set? && Hit(p, src, ops[i]).Some?
    ensures k < |Ordered(p, src, ops)| && Ordered(p, src, ops)[k].replacement == [WrittenBy(p, src, ops[i])]
  {
    var es := SortBy(Before, EditsOf(p, src, ops));
    var j := OpHasEdit(p, src, ops, i);
    SortItems(Before, EditsOf(p, src, ops));
    assert EditsOf(p, src, ops)[j] in multiset(es);
    k :| 0 <= k < |es| && es[k] == EditsOf(p, src, ops)[j];
  }

  lemma AdditionAround(p: Platform, src: Source, ops: seq<Operation>, i: nat) returns (head: seq<string>, tail: seq<string>)
    requires Ready(p, src, ops) && AllOneLine(p, ops) && Fits(src.lines, Ordered(p, src, ops))
    requires i < |ops| && ops[i].Set? && Hit(p, src, ops[i]).None? && Standing(p, src.lines, Ordered(p, src, ops))
    ensures Spliced(src.lines, Ordered(p, src, ops)) == head + [WrittenBy(p, src, ops[i])] + tail && LaidOut(p, tail, false)
  {
    var all := Ordered(p, src, ops);
    var before, after := AddedStands(p, src, ops, i);
    var h, t := WrittenStands(p, src.lines, all, |all| - 1);
    Together(p, after, t);
    Nested(h, before, [WrittenBy(p, src, ops[i])], after, t);
    head, tail := h + before, after + t;
  }

  lemma Nested<T>(a: seq<T>, b: seq<T>, c: seq<T>, d: seq<T>, e: seq<T>)
    ensures a + (b + c + d) + e == (a + b) + c + (d + e)
  {
  }

  /** No operation targets the entry, so no edit touches its lines. */
  lemma UntargetedIsUntouched(p: Platform, src: Source, ops: seq<Operation>, n: nat)
    requires SourceSpans(src) && n < |src.entries|
    requires forall i :: 0 <= i < |ops| && Hit(p, src, ops[i]).Some? ==> Misses(EditFor(p, src, ops[i]), src.entries[n])
    ensures var e := src.entries[n];
            forall k :: 0 <= k < |Ordered(p, src, ops)| ==>
              Ordered(p, src, ops)[k].end <= e.first || e.last <= Ordered(p, src, ops)[k].start
  {
    var es, all, e := SortBy(Before, EditsOf(p, src, ops)), Ordered(p, src, ops), src.entries[n];
    SortItems(Before, EditsOf(p, src, ops));
    LastEndsLast(src.lines, src.entries, n);
    forall k | 0 <= k < |all| ensures all[k].end <= e.first || e.last <= all[k].start {
      if k < |es| {
        assert all[k] == es[k] && es[k] in multiset(EditsOf(p, src, ops));
        var j :| 0 <= j < |EditsOf(p, src, ops)| && EditsOf(p, src, ops)[j] == es[k];
        var i := EditFromOp(p, src, ops, j);
        assert Misses(EditFor(p, src, ops[i]), e);
      }
    }
  }

  predicate Misses(edit: Edit<string>, e: Entry) { edit.end <= e.first || e.last <= edit.start }

  lemma OtherEntry(p: Platform, src: Source, op: Operation, n: nat)
    requires SourceOk(p, src) && n < |src.entries| && Hit(p, src, op).Some? && p.fold(op.key) != p.fold(src.entries[n].key)
    ensures Misses(EditFor(p, src, op), src.entries[n])
  {
    var m := HitEntry(p, src, op);
    EntriesDoNotMeet(src.lines, src.entries, m, n);
  }

  lemma EntriesDoNotMeet(lines: seq<string>, entries: seq<Entry>, m: nat, n: nat)
    requires Spans(lines, entries) && m < |entries| && n < |entries| && m != n
    ensures entries[m].last <= entries[n].first || entries[n].last <= entries[m].first
  {
  }

  /** The lines an entry owns are a block. */
  lemma OwnedIsBlock(p: Platform, content: string, n: nat)
    requires Parse(p, content).Ok? && n < |Parse(p, content).value.entries|
    ensures var src := Parse(p, content).value; var e := src.entries[n];
            SourceOk(p, src) && OwnedBlock(p, src.lines, e)
  {
    var src := Parse(p, content).value;
    ParsedIsFramed(p, content);
    OwnedInBlock(p, src.opening, src.lines, src.closing, src.body, n);
  }

  lemma OwnedInBlock(p: Platform, opening: string, lines: seq<string>, closing: string, body: string, n: nat)
    requires (opening == "---\n" || opening == "---\r\n") && ParseBlock(p, opening, lines, closing, body).Ok?
    requires n < |ParseBlock(p, opening, lines, closing, body).value.entries|
    ensures var src := ParseBlock(p, opening, lines, closing, body).value; var e := src.entries[n];
            src.lines == lines && SourceOk(p, src) && OwnedBlock(p, lines, e)
  {
    var features, starts := p.scan(Contents(lines)).value, Starts(p, lines).value;
    ParsedIsOk(p, opening, lines, closing, body);
    BlockIs(p, opening, lines, closing, body);
    var e := ParseBlock(p, opening, lines, closing, body).value.entries[n];
    assert EntryOk(p, lines, e);
    EntryFields(p, lines, features, starts, n);
    EntryOwnsBlock(p, lines, e, NextStart(lines, starts, n));
  }

  lemma EntryFields(p: Platform, lines: seq<string>, features: Features, starts: seq<StartLine>, n: nat)
    requires StartsInside(lines, starts) && n < |starts|
    ensures var e, next := EntryAt(p, lines, features, starts, n), NextStart(lines, starts, n);
            e.key == starts[n].key && e.first == starts[n].line < next <= |lines| && e.last == TrimEnd(p, lines, e.first + 1, next)
  {
  }

  /** The entry owns a block, and what follows stands on its own. */
  ghost predicate OwnedBlock(p: Platform, lines: seq<string>, e: Entry) {
    e.first < e.last <= |lines| && IsBlock(p, e.key, lines[e.first..e.last]) && LaidOut(p, lines[e.last..], false)
  }

  lemma EntryOwnsBlock(p: Platform, lines: seq<string>, e: Entry, next: nat)
    requires e.first < next <= |lines| && e.last == TrimEnd(p, lines, e.first + 1, next) && Owns(p, lines, e.key, e.first, e.last)
    ensures OwnedBlock(p, lines, e)
  {
    LastIsVisible(p, lines, e.first, next);
    OneKeyOnly(p, e.key, lines[e.first..e.last]);
    SliceIsBlock(p, lines, e.key, e.first, e.last);
  }

  lemma LastIsVisible(p: Platform, lines: seq<string>, first: nat, next: nat)
    requires first < next <= |lines| && KindOf(p, lines[first]).Key?
    ensures !IsSeparator(p, lines[TrimEnd(p, lines, first + 1, next) - 1])
  {
    TrimIs(p, lines, first + 1, next);
  }

  lemma SliceIsBlock(p: Platform, lines: seq<string>, key: string, first: nat, last: nat)
    requires first < last <= |lines| && KindOf(p, lines[first]) == Key(key)
    requires NoKeyFrom(p, lines[first..last], 1) && !IsSeparator(p, lines[last - 1])
    ensures IsBlock(p, key, lines[first..last])
  {
    assert lines[first..last][0] == lines[first] && lines[first..last][last - first - 1] == lines[last - 1];
  }

  // -------------------------------------------------------------------------
  // The patch does as asked
  // -------------------------------------------------------------------------

  /** After a set the key owns one line, its value; after a deletion there is no such key. */
  ghost predicate DidAsAsked(p: Platform, before: Source, after: Source, op: Operation) {
    match op
    case Set(key, value) =>
      exists spelled: string :: Spells(p, before, op, spelled) && HasBlock(after, spelled, [spelled + ": " + p.json(value) + before.eol])
    case Delete(key) =>
      && (exists i :: 0 <= i < |before.entries| && p.fold(before.entries[i].key) == p.fold(key))
      && forall i :: 0 <= i < |after.entries| ==> p.fold(after.entries[i].key) != p.fold(key)
  }

  /** A key no operation targets owns the lines it had. */
  ghost predicate KeptAsItWas(p: Platform, before: Source, after: Source, ops: seq<Operation>, n: nat)
    requires n < |before.entries|
  {
    var e := before.entries[n];
    !Targets(p, ops, p.fold(e.key)) ==> e.first <= e.last <= |before.lines| && HasBlock(after, e.key, before.lines[e.first..e.last])
  }

  lemma BlockIsThere(p: Platform, src: Source, lines: seq<string>, head: seq<string>, key: string, block: seq<string>, tail: seq<string>)
    requires Framed(src) && ParseBlock(p, src.opening, lines, src.closing, src.body).Ok?
    requires lines == head + block + tail && IsBlock(p, key, block) && LaidOut(p, tail, false)
    ensures HasBlock(ParseBlock(p, src.opening, lines, src.closing, src.body).value, key, block)
  {
    var after := ParseBlock(p, src.opening, lines, src.closing, src.body).value;
    BlockIs(p, src.opening, lines, src.closing, src.body);
    var features, starts := p.scan(Contents(lines)).value, Starts(p, lines).value;
    StartsFound(p, lines);
    var i := BlockIsOwned(p, features, lines, starts, head, key, block, tail);
    SameEntry(p, lines, features, starts, i);
    SliceOfThree(head, block, tail);
    assert OwnedAt(after.lines, after.entries[i], key, block);
  }

  lemma SliceOfThree<T>(a: seq<T>, b: seq<T>, c: seq<T>)
    ensures (a + b + c)[|a|..|a| + |b|] == b
  {
  }

  lemma SameEntry(p: Platform, lines: seq<string>, features: Features, starts: seq<StartLine>, i: nat)
    requires StartsInside(lines, starts) && i < |starts|
    ensures Entries(p, lines, features, starts, |starts|)[i] == EntryAt(p, lines, features, starts, i)
  {
  }

  lemma SetIsDone(p: Platform, src: Source, ops: seq<Operation>, i: nat, after: Source)
    requires Ready(p, src, ops) && Framed(src) && AllOneLine(p, ops) && Fits(src.lines, Ordered(p, src, ops)) && i < |ops| && ops[i].Set?
    requires ParseBlock(p, src.opening, Spliced(src.lines, Ordered(p, src, ops)), src.closing, src.body) == Ok(after)
    ensures DidAsAsked(p, src, after, ops[i])
  {
    var op := ops[i];
    var key := if Hit(p, src, op).Some? then Hit(p, src, op).value.key else op.key;
    var head, tail := SetStands(p, src, ops, i);
    WrittenIsBlock(p, src, op);
    BlockIsThere(p, src, Spliced(src.lines, Ordered(p, src, ops)), head, key, [WrittenBy(p, src, op)], tail);
    WrittenSpells(p, src, op);
  }

  lemma DeleteIsDone(p: Platform, src: Source, ops: seq<Operation>, i: nat, after: Source)
    requires Ready(p, src, ops) && i < |ops| && ops[i].Delete?
    requires EntryKeys(after.entries) == ExpectedKeys(p, src, ops)
    ensures DidAsAsked(p, src, after, ops[i])
  {
    var n := HitEntry(p, src, ops[i]);
    DeletedIs(p, src, ops, i);
    NotExpected(p, src, ops, n);
    forall k | 0 <= k < |after.entries| ensures p.fold(after.entries[k].key) != p.fold(ops[i].key) {
      assert after.entries[k].key == EntryKeys(after.entries)[k];
    }
  }

  /** A key left or added differs, folded, from one that is deleted. */
  lemma NotExpected(p: Platform, src: Source, ops: seq<Operation>, n: nat)
    requires DistinctFolds(p, EntryKeys(src.entries)) && n < |src.entries| && src.entries[n].key in DeletedKeys(p, src, ops)
    ensures Lacks(p, ExpectedKeys(p, src, ops), src.entries[n].key)
  {
    var kept, added := Minus(EntryKeys(src.entries), DeletedKeys(p, src, ops)), OperationKeys(Additions(p, src, ops));
    KeptLacks(p, src, DeletedKeys(p, src, ops), n);
    forall k | 0 <= k < |added| ensures p.fold(added[k]) != p.fold(src.entries[n].key) { AddedIsOther(p, src, ops, n, k); }
    BothLack(p, kept, added, src.entries[n].key);
  }

  predicate Lacks(p: Platform, keys: seq<string>, key: string) { forall k :: 0 <= k < |keys| ==> p.fold(keys[k]) != p.fold(key) }

  lemma BothLack(p: Platform, a: seq<string>, b: seq<string>, key: string)
    requires Lacks(p, a, key) && Lacks(p, b, key)
    ensures Lacks(p, a + b, key)
  {
  }

  lemma KeptLacks(p: Platform, src: Source, deleted: set<string>, n: nat)
    requires DistinctFolds(p, EntryKeys(src.entries)) && n < |src.entries| && src.entries[n].key in deleted
    ensures Lacks(p, Minus(EntryKeys(src.entries), deleted), src.entries[n].key)
  {
    var keys := EntryKeys(src.entries);
    var kept := Minus(keys, deleted);
    MinusItems(keys, deleted);
    assert keys[n] == src.entries[n].key;
    forall k | 0 <= k < |kept| ensures p.fold(kept[k]) != p.fold(keys[n]) { OtherKey(p, keys, kept[k], n); }
  }

  lemma OtherKey(p: Platform, keys: seq<string>, key: string, n: nat)
    requires DistinctFolds(p, keys) && n < |keys| && key in keys && key != keys[n]
    ensures p.fold(key) != p.fold(keys[n])
  {
    var m :| 0 <= m < |keys| && keys[m] == key;
    if m < n { assert p.fold(keys[m]) != p.fold(keys[n]); } else { assert p.fold(keys[n]) != p.fold(keys[m]); }
  }

  lemma AddedIsOther(p: Platform, src: Source, ops: seq<Operation>, n: nat, k: nat)
    requires n < |src.entries| && k < |OperationKeys(Additions(p, src, ops))|
    ensures p.fold(OperationKeys(Additions(p, src, ops))[k]) != p.fold(src.entries[n].key)
  {
    var o := AdditionKeyFrom(p, src, ops, k);
    AdditionIsNew(p, src, ops[o], n);
  }

  lemma EntryIsKept(p: Platform, src: Source, ops: seq<Operation>, n: nat, after: Source)
    requires Ready(p, src, ops) && Framed(src) && AllOneLine(p, ops) && Fits(src.lines, Ordered(p, src, ops))
    requires n < |src.entries| && OwnedBlock(p, src.lines, src.entries[n])
    requires ParseBlock(p, src.opening, Spliced(src.lines, Ordered(p, src, ops)), src.closing, src.body) == Ok(after)
    ensures KeptAsItWas(p, src, after, ops, n)
  {
    var e := src.entries[n];
    if !Targets(p, ops, p.fold(e.key)) {
      var head, tail := KeptStands(p, src, ops, n);
      BlockIsThere(p, src, Spliced(src.lines, Ordered(p, src, ops)), head, e.key, src.lines[e.first..e.last], tail);
    }
  }

  lemma KeptStands(p: Platform, src: Source, ops: seq<Operation>, n: nat) returns (head: seq<string>, tail: seq<string>)
    requires Ready(p, src, ops) && AllOneLine(p, ops) && Fits(src.lines, Ordered(p, src, ops))
    requires n < |src.entries| && OwnedBlock(p, src.lines, src.entries[n]) && !Targets(p, ops, p.fold(src.entries[n].key))
    ensures var e := src.entries[n];
            Spliced(src.lines, Ordered(p, src, ops)) == head + src.lines[e.first..e.last] + tail && LaidOut(p, tail, false)
  {
    UntargetedIsMissed(p, src, ops, n);
    PatchStands(p, src, ops);
    head, tail := MissedStands(p, src.lines, Ordered(p, src, ops), src.entries[n]);
  }

  lemma MissedStands(p: Platform, lines: seq<string>, edits: seq<Edit<string>>, e: Entry) returns (head: seq<string>, tail: seq<string>)
    requires Standing(p, lines, edits) && OwnedBlock(p, lines, e) && forall k :: 0 <= k < |edits| ==> Misses(edits[k], e)
    ensures Spliced(lines, edits) == head + lines[e.first..e.last] + tail && LaidOut(p, tail, false)
  {
    head, tail := UntouchedStands(p, lines, edits, e.first, e.last);
  }

  lemma UntargetedIsMissed(p: Platform, src: Source, ops: seq<Operation>, n: nat)
    requires SourceOk(p, src) && n < |src.entries| && !Targets(p, ops, p.fold(src.entries[n].key))
    ensures forall k :: 0 <= k < |Ordered(p, src, ops)| ==> Misses(Ordered(p, src, ops)[k], src.entries[n])
  {
    forall i | 0 <= i < |ops| && Hit(p, src, ops[i]).Some? ensures Misses(EditFor(p, src, ops[i]), src.entries[n]) {
      OtherEntry(p, src, ops[i], n);
    }
    UntargetedIsUntouched(p, src, ops, n);
  }

  /**
   An accepted patch does what each of its operations asks: a key that is set owns exactly one line with its rendered
   value, spelled as before; a key that is deleted was there and is gone; every other key owns the lines it had.
   */
  lemma PatchedAsAsked(p: Platform, content: string, operations: seq<Operation>)
    requires Conventional(p) && Compile(p, content, operations).Ok?
    ensures var c := Compile(p, content, operations).value;
            && Parse(p, content) == Ok(c.before) && Parse(p, c.nextContent) == Ok(c.after)
            && (forall op :: op in operations ==> DidAsAsked(p, c.before, c.after, op))
            && forall n :: 0 <= n < |c.before.entries| ==> KeptAsItWas(p, c.before, c.after, operations, n)
  {
    var ops, src, c := Canonicalize(p, operations).value, Parse(p, content).value, Compile(p, content, operations).value;
    Prepared(p, content, operations);
    Rescan(p, src, ops);
    AcceptedPatch(p, content, operations);
    CanonicalIsOk(p, operations);
    var result := Spliced(src.lines, Ordered(p, src, ops));
    BlockFrame(p, src.opening, result, src.closing, src.body);
    forall op | op in operations ensures DidAsAsked(p, src, c.after, op) {
      var i := FoundIn(operations, ops, op);
      if op.Set? { SetIsDone(p, src, ops, i, c.after); } else { DeleteIsDone(p, src, ops, i, c.after); }
    }
    forall n | 0 <= n < |src.entries| ensures KeptAsItWas(p, src, c.after, operations, n) {
      OwnedIsBlock(p, content, n);
      EntryIsKept(p, src, ops, n, c.after);
      SameTargets(p, ops, operations, p.fold(src.entries[n].key));
    }
  }

  lemma FoundIn(a: seq<Operation>, b: seq<Operation>, op: Operation) returns (i: nat)
    requires multiset(a) == multiset(b) && op in a
    ensures i < |b| && b[i] == op
  {
    assert op in multiset(b);
    i :| 0 <= i < |b| && b[i] == op;
  }

  lemma SameTargets(p: Platform, a: seq<Operation>, b: seq<Operation>, fold: string)
    requires multiset(a) == multiset(b)
    ensures Targets(p, a, fold) ==> Targets(p, b, fold)
  {
    if Targets(p, a, fold) {
      var i :| 0 <= i < |a| && p.fold(a[i].key) == fold;
      var j := FoundIn(a, b, a[i]);
    }
  }
}
