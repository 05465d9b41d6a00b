/** What a text must be to name a file of the vault, in terms of the parts between its separators. */
module VaultPathParts {
  import opened Options
  import opened VaultPaths

  predicate Separator(c: char) { c == '/' || c == '\\' }

  predicate NoSeparator(part: string) { forall c :: c in part ==> !Separator(c) }

  predicate NoSeparators(parts: seq<string>) { forall i :: 0 <= i < |parts| ==> NoSeparator(parts[i]) }

  predicate Separators(between: string) { forall c :: c in between ==> Separator(c) }

  /** The text with these parts and these separators between them; every text is one. */
  function Written(parts: seq<string>, between: string): string
    requires |parts| == |between| + 1
  {
    if between == [] then parts[0] else parts[0] + [between[0]] + Written(parts[1..], between[1..])
  }

  /** A part that counts: not empty, and not a dot before the first separator. */
  predicate Counts(parts: seq<string>, i: nat)
    requires i < |parts|
  {
    parts[i] != "" && !(i == 0 && parts[i] == "." && |parts| > 1)
  }

  predicate Ascending(s: seq<nat>) { forall i, j :: 0 <= i < j < |s| ==> s[i] < s[j] }

  predicate Below(idx: seq<nat>, n: nat) { forall k :: 0 <= k < |idx| ==> idx[k] < n }

  /** The indices of the parts that count, in order. */
  predicate Listed(parts: seq<string>, idx: seq<nat>) {
    && Ascending(idx) && Below(idx, |parts|) && (forall k :: 0 <= k < |idx| ==> Counts(parts, idx[k]))
    && forall i :: 0 <= i < |parts| && Counts(parts, i) ==> i in idx
  }

  function At(parts: seq<string>, idx: seq<nat>): seq<string>
    requires Below(idx, |parts|)
  {
    seq(|idx|, k requires 0 <= k < |idx| => parts[idx[k]])
  }

  predicate NoSteps(segments: seq<string>) { "." !in segments && ".." !in segments }

  /** A name of one letter and a colon stands for a drive. */
  predicate NamesDrive(segments: seq<string>) {
    segments != [] && exists c :: IsLetter(c) && segments[0] == [c, ':']
  }

  lemma {:induction false} WrittenSplit(parts: seq<string>, between: string)
    requires |parts| == |between| + 1 && NoSeparators(parts) && Separators(between)
    ensures Split(Slashes(Written(parts, between))) == parts
  {
    var head := parts[0];
    assert NoSeparator(head);
    SlashesKeep(head);
    if between == [] {
      SplitPart(head);
    } else {
      assert between[0] in between;
      var rest := Written(parts[1..], between[1..]);
      assert NoSeparators(parts[1..]);
      assert Separators(between[1..]);
      WrittenSplit(parts[1..], between[1..]);
      SlashesAt(head, between[0], rest);
      SplitHead(head, Slashes(rest));
    }
  }

  lemma SlashesAt(head: string, c: char, rest: string)
    requires NoSeparator(head) && Separator(c)
    ensures Slashes(head + [c] + rest) == head + ("/" + Slashes(rest))
  {
    SlashesKeep(head);
    SlashesConcat(head + [c], rest);
    SlashesConcat(head, [c]);
    assert Slashes([c]) == "/";
    assert head + "/" + Slashes(rest) == head + ("/" + Slashes(rest));
  }

  lemma {:induction false} SlashesKeep(part: string)
    requires NoSeparator(part)
    ensures Slashes(part) == part && '/' !in part && '\\' !in part
  {
    if part != [] {
      assert part[0] in part && forall c :: c in part[1..] ==> c in part;
      SlashesKeep(part[1..]);
    }
  }

  lemma {:induction false} SlashesConcat(a: string, b: string)
    ensures Slashes(a + b) == Slashes(a) + Slashes(b)
  {
    if a == [] { assert a + b == b; } else { assert (a + b)[1..] == a[1..] + b; SlashesConcat(a[1..], b); }
  }

  /** The indices of the parts that are not empty, from `from` on. */
  function FilledFrom(parts: seq<string>, from: nat): (idx: seq<nat>)
    requires from <= |parts|
    ensures Ascending(idx) && Below(idx, |parts|) && forall k :: 0 <= k < |idx| ==> from <= idx[k] && parts[idx[k]] != ""
    ensures forall i :: from <= i < |parts| && parts[i] != "" ==> i in idx
    decreases |parts| - from
  {
    if from == |parts| then []
    else if parts[from] == "" then FilledFrom(parts, from + 1)
    else [from] + FilledFrom(parts, from + 1)
  }

  lemma {:induction false} FilledAt(parts: seq<string>, from: nat)
    requires from <= |parts|
    ensures Filled(parts[from..]) == At(parts, FilledFrom(parts, from))
    decreases |parts| - from
  {
    if from < |parts| {
      FilledAt(parts, from + 1);
      assert parts[from..][1..] == parts[from + 1..];
      if parts[from] != "" { AtCons(parts, from, FilledFrom(parts, from + 1)); }
    }
  }

  lemma AtCons(parts: seq<string>, first: nat, rest: seq<nat>)
    requires first < |parts| && Below(rest, |parts|)
    ensures Below([first] + rest, |parts|) && At(parts, [first] + rest) == [parts[first]] + At(parts, rest)
  {
  }

  /**
   A text is a vault path exactly when it is at most 4096 characters long without a NUL, and the parts that count are
   at most 64, none of them a dot or a step up, and the first of them no drive. The canonical path has those parts in
   their order, with single slashes between them.
   */
  lemma PathIs(parts: seq<string>, between: string) returns (idx: seq<nat>)
    requires |parts| == |between| + 1 && NoSeparators(parts) && Separators(between)
    ensures Listed(parts, idx)
    ensures var text, segments := Written(parts, between), At(parts, idx);
            NormalizeVaultPath(text)
            == if |text| <= 4096 && '\0' !in text && |segments| <= 64 && NoSteps(segments) && !NamesDrive(segments)
               then Some(Join(segments)) else None
  {
    var text := Written(parts, between);
    WrittenSplit(parts, between);
    var from := if parts[0] == "." && |parts| > 1 then 1 else 0;
    idx := FilledFrom(parts, from);
    FilledAt(parts, from);
    assert parts[0..] == parts;
    assert Segments(text) == At(parts, idx);
    AcceptedIff(At(parts, idx));
  }

  lemma AcceptedIff(segments: seq<string>)
    ensures AcceptedSegments(segments) <==> |segments| <= 64 && NoSteps(segments) && !NamesDrive(segments)
  {
    if segments != [] && IsDrive(segments[0]) { assert segments[0] == [segments[0][0], ':']; }
  }

  /** Every text has parts and separators. */
  lemma {:induction false} EveryText(text: string) returns (parts: seq<string>, between: string)
    ensures |parts| == |between| + 1 && NoSeparators(parts) && Separators(between) && Written(parts, between) == text
  {
    if text == [] {
      parts, between := [""], [];
    } else {
      var rest, later := EveryText(text[1..]);
      if Separator(text[0]) {
        parts, between := [""] + rest, [text[0]] + later;
        assert parts[1..] == rest && between[1..] == later;
      } else {
        parts, between := [[text[0]] + rest[0]] + rest[1..], later;
        assert parts[1..] == rest[1..];
        if later == [] { assert text == [text[0]] + text[1..]; }
        else { assert Written(parts, between) == [text[0]] + Written(rest, later); }
      }
    }
  }
}
