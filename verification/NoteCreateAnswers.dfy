/** Exactly when a created note is taken as written, as settled by date lines, or as neither. */
module NoteCreateAnswers {
  import opened Options
  import opened StableSort
  import opened NoteCreate

  // -------------------------------------------------------------------------
  // One field
  // -------------------------------------------------------------------------

  /** The text opens with a frontmatter that is closed at line `end`. */
  predicate Envelope(lines: Lines, end: nat) {
    && 0 < end < |lines| && IsDelimiter(lines[0]) && IsDelimiter(lines[end])
    && forall k :: 0 < k < end ==> !IsDelimiter(lines[k])
  }

  /** Before line `end` no line but `k` is of the field; with 0 for `k`, none is. */
  predicate OnlyAt(lines: Lines, end: nat, name: string, k: nat) {
    && end < |lines| && k < end && (k > 0 ==> IsFieldLine(name, lines[k]))
    && forall j :: 0 < j < end && j != k ==> !IsFieldLine(name, lines[j])
  }

  /** A text that opens with a frontmatter and has at most one line of the field in it. */
  predicate Shaped(lines: Lines, end: nat, name: string, k: nat) { Envelope(lines, end) && OnlyAt(lines, end, name, k) }

  /** The text with a line of the field written: in place of its line, or where the observed text has it. */
  function WithLine(current: Lines, i: nat, observed: Lines, j: nat): Lines
    requires i < |current| && j < |observed|
  {
    if i > 0 then current[i := observed[j]]
    else if j <= |current| then current[..j] + [observed[j]] + current[j..]
    else current + [observed[j]]
  }

  /** A line not of this value is written, which a created date in the text forbids, and which the verifier accepts. */
  predicate Writes(p: Platform, current: Lines, i: nat, observed: Lines, j: nat, next: Lines, field: Field)
    requires i < |current| && j < |observed|
  {
    && j > 0 && (i > 0 ==> current[i] != observed[j] && !field.created)
    && next == WithLine(current, i, observed, j) && p.settles(current, next, field)
  }

  /** Nothing is to be explained: both texts lack the field, or have the same line. */
  predicate Agree(current: Lines, i: nat, observed: Lines, j: nat)
    requires i < |current| && j < |observed|
  {
    if i > 0 then j > 0 && current[i] == observed[j] else j == 0
  }

  predicate ExplainsAt(p: Platform, current: Lines, next: Lines, observed: Lines, field: Field, ends: (nat, nat), i: nat, j: nat) {
    && Shaped(current, ends.0, field.name, i) && Shaped(observed, ends.1, field.name, j)
    && ((Agree(current, i, observed, j) && next == current) || Writes(p, current, i, observed, j, next, field))
  }

  /** The field explains the difference between the two texts. */
  ghost predicate Explains(p: Platform, current: Lines, next: Lines, observed: Lines, field: Field) {
    exists ends, i: nat, j: nat :: ExplainsAt(p, current, next, observed, field, ends, i, j)
  }

  lemma EnvelopeIff(lines: Lines)
    ensures EndIndex(lines).Some? && lines != [] && IsDelimiter(lines[0]) ==> Envelope(lines, EndIndex(lines).value)
    ensures forall end: nat :: Envelope(lines, end) ==> EndIndex(lines) == Some(end)
  {
    EndInside(lines, 0);
    forall end: nat | Envelope(lines, end) ensures EndIndex(lines) == Some(end) { EndIs(lines, end); }
  }

  lemma {:induction false} MatchesAre(lines: Lines, end: nat, name: string)
    requires end <= |lines|
    ensures forall k :: k in Matches(lines, end, name) <==> 0 < k < end && IsFieldLine(name, lines[k])
    ensures forall a, b :: 0 <= a < b < |Matches(lines, end, name)| ==> Matches(lines, end, name)[a] < Matches(lines, end, name)[b]
  {
    if end > 0 {
      MatchesAre(lines, end - 1, name);
      var before := Matches(lines, end - 1, name);
      forall a | 0 <= a < |before| ensures before[a] < end - 1 { assert before[a] in before; }
    }
  }

  lemma ShapedMatches(lines: Lines, end: nat, name: string, k: nat)
    requires Shaped(lines, end, name, k)
    ensures EndIndex(lines) == Some(end) && Matches(lines, end, name) == if k > 0 then [k] else []
  {
    EnvelopeIff(lines);
    MatchesAre(lines, end, name);
    OnlyMatch(Matches(lines, end, name), k);
  }

  lemma TwoOf(at: seq<nat>)
    requires |at| > 1 && forall a, b :: 0 <= a < b < |at| ==> at[a] < at[b]
    ensures at[0] in at && at[1] in at && at[0] != at[1]
  {
  }

  lemma OnlyMatch(at: seq<nat>, k: nat)
    requires forall a, b :: 0 <= a < b < |at| ==> at[a] < at[b]
    requires forall x :: x in at <==> x == k > 0
    ensures at == if k > 0 then [k] else []
  {
    assert at != [] ==> at[0] in at;
    assert |at| <= 1 by { if |at| > 1 { TwoOf(at); } }
    if k > 0 {
      assert k in at;
      assert at == [k];
    }
  }

  lemma MatchesShaped(lines: Lines, end: nat, name: string) returns (k: nat)
    requires Envelope(lines, end) && |Matches(lines, end, name)| <= 1
    ensures Shaped(lines, end, name, k)
  {
    var at := Matches(lines, end, name);
    MatchesAre(lines, end, name);
    k := if at == [] then 0 else at[0];
    if at != [] { assert at[0] in at; }
    forall j | 0 < j < end && j != k ensures !IsFieldLine(name, lines[j]) {
      assert IsFieldLine(name, lines[j]) ==> j in at;
    }
  }

  /** What the code decides once both texts have a frontmatter with at most one line of the field. */
  lemma ShapedStep(p: Platform, current: Lines, observed: Lines, field: Field, ends: (nat, nat), i: nat, j: nat, next: Lines)
    requires Shaped(current, ends.0, field.name, i) && Shaped(observed, ends.1, field.name, j)
    ensures StepField(p, current, observed, field) == Some(next) <==>
              (Agree(current, i, observed, j) && next == current) || Writes(p, current, i, observed, j, next, field)
  {
    ShapedExplain(current, observed, field, ends, i, j);
    if j > 0 && i == 0 { WithLineInserted(current, observed, j); }
  }

  lemma ShapedExplain(current: Lines, observed: Lines, field: Field, ends: (nat, nat), i: nat, j: nat)
    requires Shaped(current, ends.0, field.name, i) && Shaped(observed, ends.1, field.name, j)
    ensures Explain(current, observed, field) ==
              if Agree(current, i, observed, j) then Unchanged
              else if j == 0 || (field.created && i > 0) then Refused
              else if i > 0 then Replaced(i, observed[j]) else Inserted(j, observed[j])
  {
    ShapedMatches(current, ends.0, field.name, i);
    ShapedMatches(observed, ends.1, field.name, j);
  }

  lemma WithLineInserted(current: Lines, observed: Lines, j: nat)
    requires current != [] && j < |observed|
    ensures WithLine(current, 0, observed, j) == InsertLine(current, j, observed[j])
  {
    if j > |current| { assert current[..|current|] == current && current[|current|..] == []; }
  }

  /** A text the code goes on with has a frontmatter with at most one line of the field, as the observed text has. */
  lemma StepIsShaped(p: Platform, current: Lines, observed: Lines, field: Field) returns (ends: (nat, nat), i: nat, j: nat)
    requires StepField(p, current, observed, field).Some?
    ensures Shaped(current, ends.0, field.name, i) && Shaped(observed, ends.1, field.name, j)
  {
    EnvelopeIff(current);
    EnvelopeIff(observed);
    ends := (EndIndex(current).value, EndIndex(observed).value);
    i := MatchesShaped(current, ends.0, field.name);
    j := MatchesShaped(observed, ends.1, field.name);
  }

  /** A field is passed exactly when it explains a next text, and that text is taken. */
  lemma StepIff(p: Platform, current: Lines, observed: Lines, field: Field, next: Lines)
    ensures StepField(p, current, observed, field) == Some(next) <==> Explains(p, current, next, observed, field)
  {
    if StepField(p, current, observed, field) == Some(next) {
      var ends, i, j := StepIsShaped(p, current, observed, field);
      ShapedStep(p, current, observed, field, ends, i, j, next);
      assert ExplainsAt(p, current, next, observed, field, ends, i, j);
    }
    if Explains(p, current, next, observed, field) {
      var ends, i: nat, j: nat :| ExplainsAt(p, current, next, observed, field, ends, i, j);
      ShapedStep(p, current, observed, field, ends, i, j, next);
    }
  }

  // -------------------------------------------------------------------------
  // All fields
  // -------------------------------------------------------------------------

  /** Texts from one to the next of which each field in turn explains the difference. */
  ghost predicate Chain(p: Platform, texts: seq<Lines>, observed: Lines, fields: seq<Field>) {
    |texts| == |fields| + 1 && forall k, next :: 0 <= k < |fields| && next == k + 1 ==> Explains(p, texts[k], texts[next], observed, fields[k])
  }

  ghost predicate Leads(p: Platform, current: Lines, last: Lines, observed: Lines, fields: seq<Field>) {
    exists texts :: Chain(p, texts, observed, fields) && texts[0] == current && texts[|fields|] == last
  }

  lemma {:induction false} StepsIff(p: Platform, current: Lines, observed: Lines, fields: seq<Field>, last: Lines)
    ensures StepFields(p, current, observed, fields) == Some(last) <==> Leads(p, current, last, observed, fields)
    decreases |fields|
  {
    if fields == [] {
      assert Chain(p, [current], observed, fields);
    } else {
      if StepFields(p, current, observed, fields) == Some(last) {
        var next := StepField(p, current, observed, fields[0]).value;
        StepIff(p, current, observed, fields[0], next);
        StepsIff(p, next, observed, fields[1..], last);
        LeadsOn(p, current, next, last, observed, fields);
      }
      if Leads(p, current, last, observed, fields) {
        var next := LeadsFirst(p, current, last, observed, fields);
        StepIff(p, current, observed, fields[0], next);
        StepsIff(p, next, observed, fields[1..], last);
      }
    }
  }

  lemma LeadsOn(p: Platform, current: Lines, next: Lines, last: Lines, observed: Lines, fields: seq<Field>)
    requires fields != [] && Explains(p, current, next, observed, fields[0]) && Leads(p, next, last, observed, fields[1..])
    ensures Leads(p, current, last, observed, fields)
  {
    var texts :| Chain(p, texts, observed, fields[1..]) && texts[0] == next && texts[|fields[1..]|] == last;
    ChainBegins(p, current, texts, observed, fields);
  }

  lemma LeadsFirst(p: Platform, current: Lines, last: Lines, observed: Lines, fields: seq<Field>) returns (next: Lines)
    requires fields != [] && Leads(p, current, last, observed, fields)
    ensures Explains(p, current, next, observed, fields[0]) && Leads(p, next, last, observed, fields[1..])
  {
    var texts :| Chain(p, texts, observed, fields) && texts[0] == current && texts[|fields|] == last;
    ChainGoesOn(p, texts, observed, fields);
    next := texts[1];
    assert texts[1..][|fields[1..]|] == last;
  }

  lemma ChainBegins(p: Platform, current: Lines, texts: seq<Lines>, observed: Lines, fields: seq<Field>)
    requires fields != [] && Chain(p, texts, observed, fields[1..]) && Explains(p, current, texts[0], observed, fields[0])
    ensures Leads(p, current, texts[|fields| - 1], observed, fields)
  {
    var all := [current] + texts;
    forall k, next | 0 <= k < |fields| && next == k + 1 ensures Explains(p, all[k], all[next], observed, fields[k]) {
      if k > 0 { assert fields[1..][k - 1] == fields[k] && Explains(p, texts[k - 1], texts[k], observed, fields[1..][k - 1]); }
    }
    assert Chain(p, all, observed, fields) && all[|fields|] == texts[|fields| - 1];
  }

  lemma ChainGoesOn(p: Platform, texts: seq<Lines>, observed: Lines, fields: seq<Field>)
    requires fields != [] && Chain(p, texts, observed, fields)
    ensures Explains(p, texts[0], texts[1], observed, fields[0]) && Chain(p, texts[1..], observed, fields[1..])
  {
    forall k, next | 0 <= k < |fields[1..]| && next == k + 1 ensures Explains(p, texts[1..][k], texts[1..][next], observed, fields[1..][k]) {
      assert Explains(p, texts[k + 1], texts[k + 2], observed, fields[k + 1]);
    }
  }

  // -------------------------------------------------------------------------
  // The observation
  // -------------------------------------------------------------------------

  /** At most six fields of known plugins, with names that differ in more than case. */
  predicate PolicyOk(p: Platform, fields: seq<Field>) {
    && |fields| <= 6
    && (forall i :: 0 <= i < |fields| ==>
          && fields[i].plugin in ["update-time-on-edit", "frontmatter-date-manager", "update-time"]
          && p.nameOk(fields[i].name) && |fields[i].name| <= 128 && 0 <= fields[i].delay <= 240000)
    && forall i, j :: 0 <= i < j < |fields| ==> p.fold(fields[i].name) != p.fold(fields[j].name)
  }

  lemma {:induction false} FieldsOkIff(p: Platform, fields: seq<Field>)
    requires |fields| <= 6
    ensures FieldsOk(p, fields) <==> PolicyOk(p, fields)
  {
    if fields != [] {
      var before, last := fields[..|fields| - 1], fields[|fields| - 1];
      FieldsOkIff(p, before);
      assert fields == before + [last];
      if PolicyOk(p, fields) {
        forall i | 0 <= i < |before| ensures p.fold(before[i].name) != p.fold(last.name) {
          assert p.fold(fields[i].name) != p.fold(fields[|fields| - 1].name);
        }
      }
      if FieldsOk(p, fields) {
        forall i, j | 0 <= i < j < |fields| ensures p.fold(fields[i].name) != p.fold(fields[j].name) {
          if j == |fields| - 1 { assert before[i] == fields[i]; } else { assert before[i] == fields[i] && before[j] == fields[j]; }
        }
      }
    }
  }

  /** Every delay of the policy has elapsed. */
  predicate Elapsed(fields: seq<Field>, startedAt: int, observedAt: int) {
    startedAt <= observedAt && forall f :: f in fields ==> f.delay <= observedAt - startedAt
  }

  lemma {:induction false} LargestIff(fields: seq<Field>, time: int)
    requires time >= 0
    ensures LargestDelay(fields) <= time <==> forall f :: f in fields ==> f.delay <= time
  {
    if fields != [] {
      var before, last := fields[..|fields| - 1], fields[|fields| - 1];
      LargestIff(before, time);
      assert fields == before + [last];
    }
  }

  /**
   An acceptable policy is observed for as long as its longest delay. The note is then exact when it is as sealed, and
   settled exactly when texts lead from the sealed to the observed one, each next text explained by one field, in the
   order the observed text has them.
   */
  lemma ObservedIff(p: Platform, expected: Lines, observed: Lines, fields: seq<Field>, startedAt: int, observedAt: int)
    ensures var r := Observe(p, expected, observed, fields, startedAt, observedAt);
            && (r == InvalidPolicy <==> !PolicyOk(p, fields))
            && (r == Exact <==> PolicyOk(p, fields) && Elapsed(fields, startedAt, observedAt) && expected == observed)
            && (r == DateSettled <==>
                  && PolicyOk(p, fields) && Elapsed(fields, startedAt, observedAt) && expected != observed
                  && Leads(p, expected, observed, observed, SortBy(ObservedOrder(observed), fields)))
  {
    if |fields| <= 6 { FieldsOkIff(p, fields); }
    if startedAt <= observedAt { LargestIff(fields, observedAt - startedAt); }
    StepsIff(p, expected, observed, SortBy(ObservedOrder(observed), fields), observed);
  }
}
