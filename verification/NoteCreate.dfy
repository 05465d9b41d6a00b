/**
 Explaining the observed text of a created note as the sealed text plus date lines that plugins write. Texts are
 taken as their lines between line feeds.
 */
module NoteCreate {
  import opened Options
  import opened TextOrder
  import opened StableSort

  type Lines = seq<string>

  datatype Field = Field(plugin: string, name: string, created: bool, delay: int)

  /** Names the runtime accepts, case folding, and the verifier of a single date line. */
  datatype Platform = Platform(nameOk: string -> bool, fold: string -> string, settles: (Lines, Lines, Field) -> bool)

  ghost predicate Conventional(p: Platform) {
    forall name :: p.nameOk(name) ==> name != "" && ':' !in name && '-' != name[0]
  }

  // -------------------------------------------------------------------------
  // The policy
  // -------------------------------------------------------------------------

  const Plugins: set<string> := {"update-time-on-edit", "frontmatter-date-manager", "update-time"}

  predicate FieldOk(p: Platform, f: Field) {
    f.plugin in Plugins && p.nameOk(f.name) && |f.name| <= 128 && 0 <= f.delay <= 240000
  }

  predicate SameFold(p: Platform, fields: seq<Field>, name: string) {
    exists i :: 0 <= i < |fields| && p.fold(fields[i].name) == p.fold(name)
  }

  predicate FieldsOk(p: Platform, fields: seq<Field>) {
    fields == []
    || (var before, last := fields[..|fields| - 1], fields[|fields| - 1];
        FieldsOk(p, before) && FieldOk(p, last) && !SameFold(p, before, last.name))
  }

  predicate NameBefore(a: Field, b: Field) { Less(a.name, b.name) }

  /** The accepted policy with its fields in order of their names. */
  function ValidatePolicy(p: Platform, fields: seq<Field>): Option<seq<Field>> {
    if |fields| > 6 || !FieldsOk(p, fields) then None else Some(SortBy(NameBefore, fields))
  }

  // -------------------------------------------------------------------------
  // Lines of the frontmatter
  // -------------------------------------------------------------------------

  function Clean(line: string): string { if line != [] && line[|line| - 1] == '\r' then line[..|line| - 1] else line }

  predicate IsDelimiter(line: string) { Clean(line) == "---" }

  predicate StartsWith(text: string, prefix: string) { |prefix| <= |text| && text[..|prefix|] == prefix }

  predicate IsFieldLine(name: string, line: string) { StartsWith(Clean(line), name + ":") }

  /** The first delimiter line behind the first line. */
  function EndFrom(lines: Lines, i: nat): Option<nat>
    decreases |lines| - i
  {
    if i >= |lines| then None else if i > 0 && IsDelimiter(lines[i]) then Some(i) else EndFrom(lines, i + 1)
  }

  function EndIndex(lines: Lines): Option<nat> { EndFrom(lines, 0) }

  /** The lines of a field between the delimiters, by index. */
  function Matches(lines: Lines, end: nat, name: string): seq<nat>
    requires end <= |lines|
  {
    if end == 0 then []
    else Matches(lines, end - 1, name) + (if end - 1 > 0 && IsFieldLine(name, lines[end - 1]) then [end - 1] else [])
  }

  function Min(a: nat, b: nat): nat { if a < b then a else b }

  function InsertLine(lines: Lines, at: nat, line: string): Lines {
    lines[..Min(at, |lines|)] + [line] + lines[Min(at, |lines|)..]
  }

  // -------------------------------------------------------------------------
  // One field
  // -------------------------------------------------------------------------

  datatype Step = Refused | Unchanged | Replaced(at: nat, line: string) | Inserted(at: nat, line: string)

  function Apply(lines: Lines, step: Step): Lines {
    match step
    case Refused => lines
    case Unchanged => lines
    case Replaced(at, line) => if at < |lines| then lines[at := line] else lines
    case Inserted(at, line) => InsertLine(lines, at, line)
  }

  /** What explains the observed text for one field, before the verifier is asked. */
  function Explain(before: Lines, after: Lines, field: Field): Step {
    var endBefore, endAfter := EndIndex(before), EndIndex(after);
    if before == [] || after == [] || !IsDelimiter(before[0]) || !IsDelimiter(after[0]) || endBefore.None? || endAfter.None? then Refused
    else
      EndInside(before, 0);
      EndInside(after, 0);
      var found, next := Matches(before, endBefore.value, field.name), Matches(after, endAfter.value, field.name);
      MatchesInside(before, endBefore.value, field.name);
      MatchesInside(after, endAfter.value, field.name);
      if |found| > 1 || |next| > 1 then Refused
      else if |found| == 0 && |next| == 0 then Unchanged
      else if |next| == 0 then Refused
      else if |found| == 1 && before[found[0]] == after[next[0]] then Unchanged
      else if field.created && |found| == 1 then Refused
      else if |found| == 1 then Replaced(found[0], after[next[0]])
      else Inserted(next[0], after[next[0]])
  }

  lemma {:induction false} EndInside(lines: Lines, i: nat)
    ensures EndFrom(lines, i).Some? ==>
              var end := EndFrom(lines, i).value;
              0 < end < |lines| && i <= end && IsDelimiter(lines[end]) && forall k :: i <= k < end && k > 0 ==> !IsDelimiter(lines[k])
    ensures EndFrom(lines, i).None? ==> forall k :: i <= k < |lines| && k > 0 ==> !IsDelimiter(lines[k])
    decreases |lines| - i
  {
    if i < |lines| && !(i > 0 && IsDelimiter(lines[i])) { EndInside(lines, i + 1); }
  }

  lemma {:induction false} MatchesInside(lines: Lines, end: nat, name: string)
    requires end <= |lines|
    ensures forall i :: 0 <= i < |Matches(lines, end, name)| ==>
              0 < Matches(lines, end, name)[i] < end && IsFieldLine(name, lines[Matches(lines, end, name)[i]])
  {
    if end > 0 { MatchesInside(lines, end - 1, name); }
  }

  /** One field with the verifier's word: refused, or the text that explains more of the observed one. */
  function StepField(p: Platform, current: Lines, observed: Lines, field: Field): Option<Lines> {
    var step := Explain(current, observed, field);
    if step.Refused? then None
    else if step.Unchanged? then Some(current)
    else if !p.settles(current, Apply(current, step), field) then None
    else Some(Apply(current, step))
  }

  function StepFields(p: Platform, current: Lines, observed: Lines, fields: seq<Field>): Option<Lines>
    decreases |fields|
  {
    if fields == [] then Some(current)
    else
      var next := StepField(p, current, observed, fields[0]);
      if next.None? then None else StepFields(p, next.value, observed, fields[1..])
  }

  // -------------------------------------------------------------------------
  // The observation
  // -------------------------------------------------------------------------

  datatype Observation = Exact | DateSettled | Unexplained | InvalidPolicy

  /** Where a field stands in the observed frontmatter; behind everything when it does not. */
  function Position(observed: Lines, name: string): nat {
    var end := EndIndex(observed);
    EndInside(observed, 0);
    var at := if end.None? then [] else Matches(observed, end.value, name);
    MatchesInside(observed, if end.None? then 0 else end.value, name);
    if at == [] then |observed| else at[0]
  }

  function ObservedOrder(observed: Lines): (Field, Field) -> bool {
    (a: Field, b: Field) => Position(observed, a.name) < Position(observed, b.name)
  }

  function LargestDelay(fields: seq<Field>): int {
    if fields == [] then 0
    else
      var rest := LargestDelay(fields[..|fields| - 1]);
      if fields[|fields| - 1].delay > rest then fields[|fields| - 1].delay else rest
  }

  function Observe(p: Platform, expected: Lines, observed: Lines, fields: seq<Field>, startedAt: int, observedAt: int): Observation {
    if ValidatePolicy(p, fields).None? then InvalidPolicy
    else if observedAt < startedAt || observedAt - startedAt < LargestDelay(fields) then Unexplained
    else if expected == observed then Exact
    else if StepFields(p, expected, observed, SortBy(ObservedOrder(observed), fields)) == Some(observed) then DateSettled
    else Unexplained
  }

  method ObserveCreateContent(p: Platform, expected: Lines, observed: Lines, policy: seq<Field>, startedAt: int, observedAt: int)
    returns (r: Observation)
    ensures r == Observe(p, expected, observed, policy, startedAt, observedAt)
  {
    if ValidatePolicy(p, policy).None? { return InvalidPolicy; }
    if observedAt < startedAt { return Unexplained; }
    var delay := 0;
    var i := 0;
    while i < |policy|
      invariant 0 <= i <= |policy| && delay == LargestDelay(policy[..i])
    {
      assert policy[..i + 1][..i] == policy[..i];
      if policy[i].delay > delay { delay := policy[i].delay; }
      i := i + 1;
    }
    assert policy[..i] == policy;
    if observedAt - startedAt < delay { return Unexplained; }
    if expected == observed { return Exact; }
    var fields := SortBy(ObservedOrder(observed), policy);
    var current := expected;
    i := 0;
    while i < |fields|
      invariant 0 <= i <= |fields|
      invariant StepFields(p, expected, observed, fields) == StepFields(p, current, observed, fields[i..])
    {
      var step := Explain(current, observed, fields[i]);
      assert fields[i..][0] == fields[i] && fields[i..][1..] == fields[i + 1..];
      if step.Refused? { return Unexplained; }
      if !step.Unchanged? {
        var changed := Apply(current, step);
        if !p.settles(current, changed, fields[i]) { return Unexplained; }
        current := changed;
      }
      i := i + 1;
    }
    r := if current == observed then DateSettled else Unexplained;
  }

  // -------------------------------------------------------------------------
  // What a settled observation means
  // -------------------------------------------------------------------------

  predicate IsPolicyLine(fields: seq<Field>, line: string) { exists i :: 0 <= i < |fields| && IsFieldLine(fields[i].name, line) }

  /** The text without the lines that start with the name of a policy field. */
  function Dropped(lines: Lines, fields: seq<Field>): Lines {
    if lines == [] then []
    else Dropped(lines[..|lines| - 1], fields) + (if IsPolicyLine(fields, lines[|lines| - 1]) then [] else [lines[|lines| - 1]])
  }

  lemma {:induction false} DroppedConcat(a: Lines, b: Lines, fields: seq<Field>)
    ensures Dropped(a + b, fields) == Dropped(a, fields) + Dropped(b, fields)
  {
    if b == [] {
      assert a + b == a;
    } else {
      assert (a + b)[..|a + b| - 1] == a + b[..|b| - 1];
      DroppedConcat(a, b[..|b| - 1], fields);
    }
  }

  lemma DroppedOne(line: string, fields: seq<Field>)
    ensures Dropped([line], fields) == if IsPolicyLine(fields, line) then [] else [line]
  {
    assert [line][..0] == [];
  }

  lemma DroppedThree(a: Lines, b: Lines, c: Lines, fields: seq<Field>)
    ensures Dropped(a + b + c, fields) == Dropped(a, fields) + Dropped(b, fields) + Dropped(c, fields)
  {
    DroppedConcat(a + b, c, fields);
    DroppedConcat(a, b, fields);
  }

  /** Lines of the policy's fields do not count, wherever they stand. */
  lemma DroppedAround(head: Lines, old1: Lines, new1: Lines, tail: Lines, fields: seq<Field>)
    requires Dropped(old1, fields) == [] && Dropped(new1, fields) == []
    ensures Dropped(head + new1 + tail, fields) == Dropped(head + old1 + tail, fields)
  {
    DroppedThree(head, old1, tail, fields);
    DroppedThree(head, new1, tail, fields);
  }

  lemma DroppedInsert(lines: Lines, at: nat, line: string, fields: seq<Field>)
    requires IsPolicyLine(fields, line)
    ensures Dropped(InsertLine(lines, at, line), fields) == Dropped(lines, fields)
  {
    var n := Min(at, |lines|);
    DroppedOne(line, fields);
    DroppedAround(lines[..n], [], [line], lines[n..], fields);
    assert lines == lines[..n] + [] + lines[n..];
  }

  lemma ReplaceIs<T>(s: seq<T>, at: nat, x: T)
    requires at < |s|
    ensures s == s[..at] + [s[at]] + s[at + 1..] && s[at := x] == s[..at] + [x] + s[at + 1..]
  {
  }

  lemma DroppedReplace(lines: Lines, at: nat, line: string, fields: seq<Field>)
    requires at < |lines| && IsPolicyLine(fields, line) && IsPolicyLine(fields, lines[at])
    ensures Dropped(lines[at := line], fields) == Dropped(lines, fields)
  {
    DroppedOne(line, fields);
    DroppedOne(lines[at], fields);
    DroppedAround(lines[..at], [lines[at]], [line], lines[at + 1..], fields);
    ReplaceIs(lines, at, line);
  }

  /** A step that explains writes a line of its own field, in place of one or at a place of its own. */
  lemma ExplainIs(before: Lines, after: Lines, field: Field)
    ensures var step := Explain(before, after, field);
            && (step.Replaced? ==> 0 < step.at < |before| && IsFieldLine(field.name, before[step.at]) && IsFieldLine(field.name, step.line) && !field.created)
            && (step.Inserted? ==> 0 < step.at && IsFieldLine(field.name, step.line))
  {
    EndInside(before, 0);
    EndInside(after, 0);
    if EndIndex(before).Some? { MatchesInside(before, EndIndex(before).value, field.name); }
    if EndIndex(after).Some? { MatchesInside(after, EndIndex(after).value, field.name); }
  }

  lemma StepDrops(p: Platform, current: Lines, observed: Lines, fields: seq<Field>, i: nat)
    requires i < |fields| && StepField(p, current, observed, fields[i]).Some?
    ensures Dropped(StepField(p, current, observed, fields[i]).value, fields) == Dropped(current, fields)
    ensures |current| <= |StepField(p, current, observed, fields[i]).value| <= |current| + 1
  {
    var step := Explain(current, observed, fields[i]);
    ExplainIs(current, observed, fields[i]);
    match step
    case Unchanged =>
    case Replaced(at, line) =>
      assert IsPolicyLine(fields, line) && IsPolicyLine(fields, current[at]);
      DroppedReplace(current, at, line, fields);
    case Inserted(at, line) =>
      assert IsPolicyLine(fields, line);
      DroppedInsert(current, at, line, fields);
  }

  predicate AllIn(steps: seq<Field>, fields: seq<Field>) { forall k :: 0 <= k < |steps| ==> IsIn(steps[k], fields) }

  predicate IsIn(field: Field, fields: seq<Field>) { exists i :: 0 <= i < |fields| && fields[i] == field }

  predicate Explained(fields: seq<Field>, current: Lines, next: Lines, steps: nat) {
    Dropped(next, fields) == Dropped(current, fields) && |current| <= |next| <= |current| + steps
  }

  lemma FirstStep(p: Platform, current: Lines, observed: Lines, steps: seq<Field>, fields: seq<Field>) returns (next: Lines)
    requires steps != [] && AllIn(steps, fields) && StepFields(p, current, observed, steps).Some?
    ensures StepFields(p, next, observed, steps[1..]) == StepFields(p, current, observed, steps) && Explained(fields, current, next, 1)
  {
    assert IsIn(steps[0], fields);
    var i :| 0 <= i < |fields| && fields[i] == steps[0];
    StepDrops(p, current, observed, fields, i);
    next := StepField(p, current, observed, steps[0]).value;
  }

  lemma {:induction false} StepsDrop(p: Platform, current: Lines, observed: Lines, steps: seq<Field>, fields: seq<Field>)
    requires AllIn(steps, fields) && StepFields(p, current, observed, steps).Some?
    ensures Explained(fields, current, StepFields(p, current, observed, steps).value, |steps|)
    decreases |steps|
  {
    if steps != [] {
      var next := FirstStep(p, current, observed, steps, fields);
      RestIn(steps, fields);
      StepsDrop(p, next, observed, steps[1..], fields);
    }
  }

  lemma RestIn(steps: seq<Field>, fields: seq<Field>)
    requires AllIn(steps, fields) && steps != []
    ensures AllIn(steps[1..], fields)
  {
    forall k | 0 <= k < |steps| - 1 ensures IsIn(steps[1..][k], fields) { assert IsIn(steps[k + 1], fields); }
  }

  // -------------------------------------------------------------------------
  // The lines of one field
  // -------------------------------------------------------------------------

  /** The lines of a field among these, in order. */
  function LinesOf(lines: Lines, name: string): Lines {
    if lines == [] then []
    else LinesOf(lines[..|lines| - 1], name) + (if IsFieldLine(name, lines[|lines| - 1]) then [lines[|lines| - 1]] else [])
  }

  function Region(lines: Lines): Lines {
    var end := EndIndex(lines);
    if end.None? then []
    else
      EndInside(lines, 0);
      lines[1..end.value]
  }

  /** The lines of a field between the delimiters. */
  function FieldLines(lines: Lines, name: string): Lines { LinesOf(Region(lines), name) }

  lemma {:induction false} LinesOfConcat(a: Lines, b: Lines, name: string)
    ensures LinesOf(a + b, name) == LinesOf(a, name) + LinesOf(b, name)
  {
    if b == [] {
      assert a + b == a;
    } else {
      assert (a + b)[..|a + b| - 1] == a + b[..|b| - 1];
      LinesOfConcat(a, b[..|b| - 1], name);
    }
  }

  lemma LinesOfOne(line: string, name: string)
    ensures LinesOf([line], name) == if IsFieldLine(name, line) then [line] else []
  {
    assert [line][..0] == [];
  }

  function FirstColon(text: string): nat { if text == [] || text[0] == ':' then 0 else 1 + FirstColon(text[1..]) }

  lemma {:induction false} ColonAt(text: string, n: nat)
    requires n < |text| && text[n] == ':' && forall k :: 0 <= k < n ==> text[k] != ':'
    ensures FirstColon(text) == n
  {
    if n > 0 { ColonAt(text[1..], n - 1); }
  }

  /** The name on a field line is what stands before its first colon. */
  lemma NameOfLine(name: string, line: string)
    requires ':' !in name && IsFieldLine(name, line)
    ensures FirstColon(Clean(line)) == |name| < |Clean(line)| && Clean(line)[..|name|] == name
  {
    var text := Clean(line);
    assert forall k :: 0 <= k < |name| ==> text[k] == text[..|name| + 1][k] == name[k];
    assert text[|name|] == text[..|name| + 1][|name|] == ':';
    ColonAt(text, |name|);
  }

  /** A line belongs to one field only. */
  lemma SameField(a: string, b: string, line: string)
    requires ':' !in a && ':' !in b && IsFieldLine(a, line) && IsFieldLine(b, line)
    ensures a == b
  {
    NameOfLine(a, line);
    NameOfLine(b, line);
  }

  lemma OneField(a: string, b: string, line: string)
    requires ':' !in a && ':' !in b && a != b && IsFieldLine(a, line)
    ensures !IsFieldLine(b, line)
  {
    if IsFieldLine(b, line) { SameField(a, b, line); }
  }

  lemma FieldIsNoDelimiter(name: string, line: string)
    requires ':' !in name && name != "" && name[0] != '-' && IsFieldLine(name, line)
    ensures !IsDelimiter(line)
  {
    NameOfLine(name, line);
    assert Clean(line)[0] == Clean(line)[..|name|][0] == name[0];
  }

  lemma EndIs(lines: Lines, end: nat)
    requires 0 < end < |lines| && IsDelimiter(lines[end]) && forall k :: 0 < k < end ==> !IsDelimiter(lines[k])
    ensures EndIndex(lines) == Some(end)
  {
    EndInside(lines, 0);
  }

  lemma InsertedAt(lines: Lines, at: nat, line: string)
    requires at <= |lines|
    ensures |InsertLine(lines, at, line)| == |lines| + 1
    ensures forall k :: 0 <= k <= |lines| ==> InsertLine(lines, at, line)[k] == if k < at then lines[k] else if k == at then line else lines[k - 1]
  {
  }

  lemma InsertedRegion(lines: Lines, end: nat, at: nat, line: string)
    requires 0 < at <= end < |lines|
    ensures InsertLine(lines, at, line)[1..end + 1] == lines[1..end][..at - 1] + [line] + lines[1..end][at - 1..]
  {
    assert InsertLine(lines, at, line) == lines[..at] + [line] + lines[at..];
  }

  /** A line inserted up to the closing delimiter goes into the frontmatter. */
  lemma InsertInside(lines: Lines, end: nat, at: nat, line: string)
    requires EndIndex(lines) == Some(end) && 0 < at <= end && !IsDelimiter(line)
    ensures end < |lines| && EndIndex(InsertLine(lines, at, line)) == Some(end + 1)
    ensures |Region(lines)| == end - 1
    ensures Region(InsertLine(lines, at, line)) == Region(lines)[..at - 1] + [line] + Region(lines)[at - 1..]
  {
    EndInside(lines, 0);
    InsertMovesEnd(lines, end, at, line);
    InsertedRegion(lines, end, at, line);
  }

  lemma InsertMovesEnd(lines: Lines, end: nat, at: nat, line: string)
    requires EndIndex(lines) == Some(end) && 0 < at <= end && !IsDelimiter(line)
    ensures end < |lines| && EndIndex(InsertLine(lines, at, line)) == Some(end + 1)
  {
    EndInside(lines, 0);
    var longer := InsertLine(lines, at, line);
    InsertedAt(lines, at, line);
    assert longer[end + 1] == lines[end];
    forall k | 0 < k < end + 1 ensures !IsDelimiter(longer[k]) {
      if k < at { assert longer[k] == lines[k]; } else if k > at { assert longer[k] == lines[k - 1]; }
    }
    EndIs(longer, end + 1);
  }

  /** A line inserted behind the closing delimiter leaves the frontmatter as it is. */
  lemma InsertOutside(lines: Lines, end: nat, at: nat, line: string)
    requires EndIndex(lines) == Some(end) && end < at
    ensures Region(InsertLine(lines, at, line)) == Region(lines)
  {
    EndInside(lines, 0);
    var longer := InsertLine(lines, at, line);
    assert forall k :: 0 <= k <= end ==> longer[k] == lines[k];
    EndIs(longer, end);
  }

  lemma ReplaceRegion(lines: Lines, at: nat, line: string)
    requires EndIndex(lines).Some? && 0 < at < EndIndex(lines).value && !IsDelimiter(line)
    ensures at < |lines| && at - 1 < |Region(lines)| && Region(lines)[at - 1] == lines[at] && Region(lines[at := line]) == Region(lines)[at - 1 := line]
  {
    EndInside(lines, 0);
    var end := EndIndex(lines).value;
    EndIs(lines[at := line], end);
  }

  lemma LinesOfThree(a: Lines, b: Lines, c: Lines, name: string)
    ensures LinesOf(a + b + c, name) == LinesOf(a, name) + LinesOf(b, name) + LinesOf(c, name)
  {
    LinesOfConcat(a + b, c, name);
    LinesOfConcat(a, b, name);
  }

  lemma LinesAround(head: Lines, old1: Lines, new1: Lines, tail: Lines, name: string)
    requires LinesOf(old1, name) == [] && LinesOf(new1, name) == []
    ensures LinesOf(head + new1 + tail, name) == LinesOf(head + old1 + tail, name)
  {
    LinesOfThree(head, old1, tail, name);
    LinesOfThree(head, new1, tail, name);
  }

  lemma InsertLines(r: Lines, k: nat, line: string, name: string)
    requires k <= |r| && !IsFieldLine(name, line)
    ensures LinesOf(r[..k] + [line] + r[k..], name) == LinesOf(r, name)
  {
    LinesOfOne(line, name);
    LinesAround(r[..k], [], [line], r[k..], name);
    assert r == r[..k] + [] + r[k..];
  }

  lemma ReplaceLines(r: Lines, k: nat, line: string, name: string)
    requires k < |r| && !IsFieldLine(name, line) && !IsFieldLine(name, r[k])
    ensures LinesOf(r[k := line], name) == LinesOf(r, name)
  {
    LinesOfOne(line, name);
    LinesOfOne(r[k], name);
    LinesAround(r[..k], [r[k]], [line], r[k + 1..], name);
    ReplaceIs(r, k, line);
  }

  lemma ReplacedKept(current: Lines, observed: Lines, field: Field, name: string)
    requires Explain(current, observed, field).Replaced? && ':' !in field.name && ':' !in name && name != field.name
    requires field.name != "" && field.name[0] != '-'
    ensures FieldLines(Apply(current, Explain(current, observed, field)), name) == FieldLines(current, name)
  {
    var step := Explain(current, observed, field);
    ExplainIs(current, observed, field);
    FieldIsNoDelimiter(field.name, step.line);
    OneField(field.name, name, step.line);
    OneField(field.name, name, current[step.at]);
    ReplacedInside(current, observed, field);
    ReplaceRegion(current, step.at, step.line);
    ReplaceLines(Region(current), step.at - 1, step.line, name);
  }

  lemma InsertedKept(current: Lines, observed: Lines, field: Field, name: string)
    requires Explain(current, observed, field).Inserted? && ':' !in field.name && ':' !in name && name != field.name
    requires field.name != "" && field.name[0] != '-'
    ensures FieldLines(Apply(current, Explain(current, observed, field)), name) == FieldLines(current, name)
  {
    var step := Explain(current, observed, field);
    ExplainIs(current, observed, field);
    FieldIsNoDelimiter(field.name, step.line);
    OneField(field.name, name, step.line);
    EndInside(current, 0);
    var end := EndIndex(current).value;
    InsertKept(current, end, step.at, step.line, name);
  }

  lemma InsertKept(current: Lines, end: nat, at: nat, line: string, name: string)
    requires EndIndex(current) == Some(end) && 0 < at && !IsDelimiter(line) && !IsFieldLine(name, line)
    ensures FieldLines(InsertLine(current, at, line), name) == FieldLines(current, name)
  {
    if at <= end {
      InsertInside(current, end, at, line);
      InsertLines(Region(current), at - 1, line, name);
    } else {
      InsertOutside(current, end, at, line);
    }
  }

  /** A step for one field leaves the lines of every other field as they were. */
  lemma OtherFieldKept(p: Platform, current: Lines, observed: Lines, field: Field, name: string)
    requires Conventional(p) && p.nameOk(field.name) && p.nameOk(name) && name != field.name && StepField(p, current, observed, field).Some?
    ensures FieldLines(StepField(p, current, observed, field).value, name) == FieldLines(current, name)
  {
    if Explain(current, observed, field).Replaced? { ReplacedKept(current, observed, field, name); }
    if Explain(current, observed, field).Inserted? { InsertedKept(current, observed, field, name); }
  }

  lemma ReplacedInside(before: Lines, after: Lines, field: Field)
    requires Explain(before, after, field).Replaced?
    ensures EndIndex(before).Some? && 0 < Explain(before, after, field).at < EndIndex(before).value
  {
    EndInside(before, 0);
    MatchesInside(before, EndIndex(before).value, field.name);
  }

  /** The matches of a field are its lines between the delimiters. */
  lemma {:induction false} MatchesAreLines(lines: Lines, end: nat, name: string)
    requires 0 < end <= |lines|
    ensures |Matches(lines, end, name)| == |LinesOf(lines[1..end], name)|
    ensures forall i :: 0 <= i < |Matches(lines, end, name)| ==>
              Matches(lines, end, name)[i] < |lines| && LinesOf(lines[1..end], name)[i] == lines[Matches(lines, end, name)[i]]
  {
    if end == 1 {
      assert Matches(lines, 0, name) == [];
    } else {
      MatchesAreLines(lines, end - 1, name);
      assert lines[1..end][..end - 2] == lines[1..end - 1];
    }
  }

  /** A created field with a line of its own in the current text is not changed by its own step. */
  lemma CreatedKept(p: Platform, current: Lines, observed: Lines, field: Field)
    requires field.created && FieldLines(current, field.name) != [] && StepField(p, current, observed, field).Some?
    ensures StepField(p, current, observed, field).value == current
  {
    EndInside(current, 0);
    if EndIndex(current).Some? { MatchesAreLines(current, EndIndex(current).value, field.name); }
  }

  // -------------------------------------------------------------------------
  // At most one line for each field
  // -------------------------------------------------------------------------

  lemma ReplacedCount(r: Lines, k: nat, line: string, name: string)
    requires k < |r| && IsFieldLine(name, line) && IsFieldLine(name, r[k])
    ensures |LinesOf(r[k := line], name)| == |LinesOf(r, name)|
  {
    ReplaceIs(r, k, line);
    LinesOfOne(line, name);
    LinesOfOne(r[k], name);
    LinesOfThree(r[..k], [line], r[k + 1..], name);
    LinesOfThree(r[..k], [r[k]], r[k + 1..], name);
  }

  /** The own step of a field loses none of its lines, and is taken only when the observed text has one at most. */
  lemma OwnLines(p: Platform, current: Lines, observed: Lines, field: Field)
    requires Conventional(p) && p.nameOk(field.name) && StepField(p, current, observed, field).Some?
    ensures |FieldLines(current, field.name)| <= |FieldLines(StepField(p, current, observed, field).value, field.name)|
    ensures |FieldLines(observed, field.name)| <= 1
  {
    ExplainCounts(current, observed, field);
    if Explain(current, observed, field).Replaced? { ReplacedOwn(current, observed, field); }
  }

  lemma ExplainCounts(current: Lines, observed: Lines, field: Field)
    requires !Explain(current, observed, field).Refused?
    ensures |FieldLines(observed, field.name)| <= 1 && (Explain(current, observed, field).Inserted? ==> FieldLines(current, field.name) == [])
  {
    EndInside(current, 0);
    EndInside(observed, 0);
    MatchesAreLines(current, EndIndex(current).value, field.name);
    MatchesAreLines(observed, EndIndex(observed).value, field.name);
  }

  lemma ReplacedOwn(current: Lines, observed: Lines, field: Field)
    requires Explain(current, observed, field).Replaced? && ':' !in field.name && field.name != "" && field.name[0] != '-'
    ensures |FieldLines(Apply(current, Explain(current, observed, field)), field.name)| == |FieldLines(current, field.name)|
  {
    var step := Explain(current, observed, field);
    ExplainIs(current, observed, field);
    FieldIsNoDelimiter(field.name, step.line);
    ReplacedInside(current, observed, field);
    ReplaceRegion(current, step.at, step.line);
    ReplacedCount(Region(current), step.at - 1, step.line, field.name);
  }

  lemma {:induction false} FieldLinesKept(p: Platform, current: Lines, observed: Lines, steps: seq<Field>, field: Field)
    requires Conventional(p) && p.nameOk(field.name) && StepsFor(p, steps, field) && StepFields(p, current, observed, steps).Some?
    ensures |FieldLines(current, field.name)| <= |FieldLines(StepFields(p, current, observed, steps).value, field.name)|
    ensures field in steps ==> |FieldLines(observed, field.name)| <= 1
    decreases |steps|
  {
    if steps != [] {
      OneStepLines(p, current, observed, steps[0], field);
      RestFor(p, steps, field);
      FieldLinesKept(p, StepField(p, current, observed, steps[0]).value, observed, steps[1..], field);
    }
  }

  lemma RestFor(p: Platform, steps: seq<Field>, field: Field)
    requires steps != [] && StepsFor(p, steps, field)
    ensures StepsFor(p, steps[1..], field) && (field in steps ==> field == steps[0] || field in steps[1..])
  {
    assert steps == [steps[0]] + steps[1..];
  }

  lemma OneStepLines(p: Platform, current: Lines, observed: Lines, step: Field, field: Field)
    requires Conventional(p) && p.nameOk(field.name) && p.nameOk(step.name) && (step.name == field.name ==> step == field)
    requires StepField(p, current, observed, step).Some?
    ensures |FieldLines(current, field.name)| <= |FieldLines(StepField(p, current, observed, step).value, field.name)|
    ensures step == field ==> |FieldLines(observed, field.name)| <= 1
  {
    if step.name == field.name { OwnLines(p, current, observed, field); } else { OtherFieldKept(p, current, observed, step, field.name); }
  }

  // -------------------------------------------------------------------------
  // The note behind its frontmatter
  // -------------------------------------------------------------------------

  /** The closing delimiter and everything behind it. */
  function BodyOf(lines: Lines): Lines {
    var end := EndIndex(lines);
    if end.None? then lines
    else
      EndInside(lines, 0);
      lines[end.value..]
  }

  lemma ReplaceBody(lines: Lines, at: nat, line: string)
    requires EndIndex(lines).Some? && 0 < at < EndIndex(lines).value && !IsDelimiter(line)
    ensures at < |lines| && EndIndex(lines[at := line]) == EndIndex(lines) && BodyOf(lines[at := line]) == BodyOf(lines)
  {
    EndInside(lines, 0);
    EndIs(lines[at := line], EndIndex(lines).value);
  }

  lemma InsertBody(lines: Lines, at: nat, line: string)
    requires EndIndex(lines).Some? && 0 < at <= EndIndex(lines).value && !IsDelimiter(line)
    ensures BodyOf(InsertLine(lines, at, line)) == BodyOf(lines)
  {
    var end := EndIndex(lines).value;
    EndInside(lines, 0);
    InsertInside(lines, end, at, line);
    assert InsertLine(lines, at, line) == lines[..at] + [line] + lines[at..];
    assert InsertLine(lines, at, line)[end + 1..] == lines[end..];
  }

  lemma InsertEnd(lines: Lines, at: nat, line: string)
    requires EndIndex(lines).Some? && EndIndex(lines).value < at
    ensures EndIndex(InsertLine(lines, at, line)) == EndIndex(lines)
  {
    var end := EndIndex(lines).value;
    EndInside(lines, 0);
    var longer := InsertLine(lines, at, line);
    assert forall k :: 0 <= k <= end ==> longer[k] == lines[k];
    EndIs(longer, end);
  }

  /** A line is inserted where the observed frontmatter has it. */
  lemma InsertedAtPosition(current: Lines, observed: Lines, field: Field)
    requires Explain(current, observed, field).Inserted?
    ensures EndIndex(current).Some? && EndIndex(observed).Some?
    ensures 0 < Explain(current, observed, field).at == Position(observed, field.name) < EndIndex(observed).value
  {
    EndInside(observed, 0);
    MatchesInside(observed, EndIndex(observed).value, field.name);
  }

  predicate InPositionOrder(observed: Lines, steps: seq<Field>) {
    forall i, j :: 0 <= i < j < |steps| ==> Position(observed, steps[i].name) <= Position(observed, steps[j].name)
  }

  predicate AllFrom(observed: Lines, steps: seq<Field>, at: nat) {
    forall k :: 0 <= k < |steps| ==> at <= Position(observed, steps[k].name)
  }

  predicate NamesOk(p: Platform, steps: seq<Field>) { forall k :: 0 <= k < |steps| ==> p.nameOk(steps[k].name) }

  /** While lines are inserted behind the closing delimiter only, it stays where it is. */
  lemma {:induction false} EndStays(p: Platform, current: Lines, observed: Lines, steps: seq<Field>, at: nat)
    requires Conventional(p) && NamesOk(p, steps) && AllFrom(observed, steps, at) && StepFields(p, current, observed, steps).Some?
    requires EndIndex(current).Some? && EndIndex(current).value < at
    ensures EndIndex(StepFields(p, current, observed, steps).value) == EndIndex(current)
    decreases |steps|
  {
    if steps != [] {
      var step := Explain(current, observed, steps[0]);
      ExplainIs(current, observed, steps[0]);
      if step.Replaced? {
        ReplacedInside(current, observed, steps[0]);
        FieldIsNoDelimiter(steps[0].name, step.line);
        ReplaceBody(current, step.at, step.line);
      }
      if step.Inserted? {
        InsertedAtPosition(current, observed, steps[0]);
        InsertEnd(current, step.at, step.line);
      }
      EndStays(p, StepField(p, current, observed, steps[0]).value, observed, steps[1..], at);
    }
  }

  /** A line that the observed frontmatter has is never inserted behind the closing delimiter. */
  lemma InsertedInside(p: Platform, current: Lines, observed: Lines, steps: seq<Field>)
    requires Conventional(p) && steps != [] && NamesOk(p, steps) && InPositionOrder(observed, steps)
    requires StepFields(p, current, observed, steps) == Some(observed) && Explain(current, observed, steps[0]).Inserted?
    ensures EndIndex(current).Some? && Explain(current, observed, steps[0]).at <= EndIndex(current).value
  {
    var step := Explain(current, observed, steps[0]);
    InsertedAtPosition(current, observed, steps[0]);
    if EndIndex(current).value < step.at {
      InsertEnd(current, step.at, step.line);
      EndStays(p, Apply(current, step), observed, steps[1..], step.at);
    }
  }

  /** In the order in which the observed text has the fields, the steps leave everything behind the frontmatter as it is. */
  lemma {:induction false} BodyKept(p: Platform, current: Lines, observed: Lines, steps: seq<Field>)
    requires Conventional(p) && NamesOk(p, steps) && InPositionOrder(observed, steps)
    requires StepFields(p, current, observed, steps) == Some(observed)
    ensures BodyOf(observed) == BodyOf(current)
    decreases |steps|
  {
    if steps != [] {
      var step := Explain(current, observed, steps[0]);
      ExplainIs(current, observed, steps[0]);
      if step.Replaced? {
        ReplacedInside(current, observed, steps[0]);
        FieldIsNoDelimiter(steps[0].name, step.line);
        ReplaceBody(current, step.at, step.line);
      }
      if step.Inserted? {
        InsertedAtPosition(current, observed, steps[0]);
        InsertedInside(p, current, observed, steps);
        FieldIsNoDelimiter(steps[0].name, step.line);
        InsertBody(current, step.at, step.line);
      }
      BodyKept(p, StepField(p, current, observed, steps[0]).value, observed, steps[1..]);
    }
  }

  lemma ObservedOrderSorts(observed: Lines, fields: seq<Field>)
    ensures InPositionOrder(observed, SortBy(ObservedOrder(observed), fields))
  {
    var order := (a: Field, b: Field) => Position(observed, a.name) <= Position(observed, b.name);
    SortsInto(ObservedOrder(observed), order, fields);
  }

  predicate DistinctNames(fields: seq<Field>) { forall i, j :: 0 <= i < j < |fields| ==> fields[i].name != fields[j].name }

  /** Steps over accepted names, at most one of them for a given field. */
  predicate StepsFor(p: Platform, steps: seq<Field>, field: Field) {
    forall k :: 0 <= k < |steps| ==> p.nameOk(steps[k].name) && (steps[k].name == field.name ==> steps[k] == field)
  }

  lemma {:induction false} CreatedKeptThroughout(p: Platform, current: Lines, observed: Lines, steps: seq<Field>, field: Field)
    requires Conventional(p) && p.nameOk(field.name) && StepsFor(p, steps, field)
    requires field.created && FieldLines(current, field.name) != [] && StepFields(p, current, observed, steps).Some?
    ensures FieldLines(StepFields(p, current, observed, steps).value, field.name) == FieldLines(current, field.name)
    decreases |steps|
  {
    if steps != [] {
      var next := FirstStepKept(p, current, observed, steps, field);
      CreatedKeptThroughout(p, next, observed, steps[1..], field);
    }
  }

  lemma FirstStepKept(p: Platform, current: Lines, observed: Lines, steps: seq<Field>, field: Field) returns (next: Lines)
    requires Conventional(p) && p.nameOk(field.name) && steps != [] && StepsFor(p, steps, field)
    requires field.created && FieldLines(current, field.name) != [] && StepFields(p, current, observed, steps).Some?
    ensures StepsFor(p, steps[1..], field) && StepFields(p, next, observed, steps[1..]) == StepFields(p, current, observed, steps)
    ensures FieldLines(next, field.name) == FieldLines(current, field.name)
  {
    OneStepKept(p, current, observed, steps[0], field);
    next := StepField(p, current, observed, steps[0]).value;
  }

  lemma OneStepKept(p: Platform, current: Lines, observed: Lines, step: Field, field: Field)
    requires Conventional(p) && p.nameOk(field.name) && p.nameOk(step.name) && (step.name == field.name ==> step == field)
    requires field.created && FieldLines(current, field.name) != [] && StepField(p, current, observed, step).Some?
    ensures FieldLines(StepField(p, current, observed, step).value, field.name) == FieldLines(current, field.name)
  {
    if step.name == field.name { CreatedKept(p, current, observed, field); } else { OtherFieldKept(p, current, observed, step, field.name); }
  }

  lemma {:induction false} FieldsOkMeans(p: Platform, fields: seq<Field>)
    requires FieldsOk(p, fields)
    ensures forall f :: f in fields ==> FieldOk(p, f)
    ensures DistinctNames(fields)
  {
    if fields != [] {
      var before, last := fields[..|fields| - 1], fields[|fields| - 1];
      FieldsOkMeans(p, before);
      assert fields == before + [last];
    }
  }

  lemma {:induction false} LargestIs(fields: seq<Field>, f: Field)
    requires f in fields
    ensures f.delay <= LargestDelay(fields)
  {
    var before := fields[..|fields| - 1];
    assert fields == before + [fields[|fields| - 1]];
    if f in before { LargestIs(before, f); }
  }

  lemma SortedFields(order: (Field, Field) -> bool, fields: seq<Field>)
    ensures |SortBy(order, fields)| == |fields| && AllIn(SortBy(order, fields), fields)
    ensures multiset(SortBy(order, fields)) == multiset(fields)
  {
    var sorted := SortBy(order, fields);
    SortItems(order, fields);
    forall k | 0 <= k < |sorted| ensures IsIn(sorted[k], fields) {
      assert sorted[k] in multiset(fields);
      assert sorted[k] in fields;
    }
  }

  /**
   When the dates are reported settled: without lines that start with the name of a policy field, the observed text is the sealed one;
   each field has at most one line in its frontmatter, and none fewer than in the sealed one; everything behind the frontmatter
   and any date of creation in the sealed text are unchanged; and every field's delay has elapsed.
   */
  lemma SettledMeans(p: Platform, expected: Lines, observed: Lines, fields: seq<Field>, startedAt: int, observedAt: int)
    requires Conventional(p) && Observe(p, expected, observed, fields, startedAt, observedAt) == DateSettled
    ensures Dropped(observed, fields) == Dropped(expected, fields)
    ensures |expected| <= |observed| <= |expected| + |fields|
    ensures BodyOf(observed) == BodyOf(expected)
    ensures forall f :: f in fields ==> FieldSettled(expected, observed, f)
    ensures forall f :: f in fields ==> observedAt - startedAt >= f.delay
  {
    var steps := StepsTaken(p, expected, observed, fields, startedAt, observedAt);
    StepsDrop(p, expected, observed, steps, fields);
    BodyKept(p, expected, observed, steps);
    forall f | f in fields ensures FieldSettled(expected, observed, f) { SettledField(p, expected, observed, fields, steps, f); }
    forall f | f in fields ensures observedAt - startedAt >= f.delay { LargestIs(fields, f); }
  }

  /** The fields in the order they are observed, each of them explained. */
  lemma StepsTaken(p: Platform, expected: Lines, observed: Lines, fields: seq<Field>, startedAt: int, observedAt: int) returns (steps: seq<Field>)
    requires Observe(p, expected, observed, fields, startedAt, observedAt) == DateSettled
    ensures FieldsOk(p, fields) && observedAt - startedAt >= LargestDelay(fields) && StepFields(p, expected, observed, steps) == Some(observed)
    ensures |steps| == |fields| && multiset(steps) == multiset(fields) && AllIn(steps, fields)
    ensures NamesOk(p, steps) && InPositionOrder(observed, steps)
  {
    steps := SortBy(ObservedOrder(observed), fields);
    SortedFields(ObservedOrder(observed), fields);
    ObservedOrderSorts(observed, fields);
    AllNamesOk(p, fields, steps);
  }

  lemma AllNamesOk(p: Platform, fields: seq<Field>, steps: seq<Field>)
    requires FieldsOk(p, fields) && AllIn(steps, fields)
    ensures NamesOk(p, steps)
  {
    FieldsOkMeans(p, fields);
    forall k | 0 <= k < |steps| ensures p.nameOk(steps[k].name) {
      assert IsIn(steps[k], fields);
      assert steps[k] in fields;
    }
  }

  /** One line at most, and none lost; a created one unchanged. */
  predicate FieldSettled(expected: Lines, observed: Lines, f: Field) {
    && |FieldLines(expected, f.name)| <= |FieldLines(observed, f.name)| <= 1
    && (f.created && FieldLines(expected, f.name) != [] ==> FieldLines(observed, f.name) == FieldLines(expected, f.name))
  }

  lemma SettledField(p: Platform, expected: Lines, observed: Lines, fields: seq<Field>, steps: seq<Field>, f: Field)
    requires Conventional(p) && FieldsOk(p, fields) && multiset(steps) == multiset(fields) && AllIn(steps, fields) && f in fields
    requires StepFields(p, expected, observed, steps) == Some(observed)
    ensures FieldSettled(expected, observed, f)
  {
    FieldsOkMeans(p, fields);
    StepsForField(p, fields, steps, f);
    FieldLinesKept(p, expected, observed, steps, f);
    if f.created && FieldLines(expected, f.name) != [] { CreatedKeptThroughout(p, expected, observed, steps, f); }
  }

  lemma StepsForField(p: Platform, fields: seq<Field>, steps: seq<Field>, f: Field)
    requires FieldsOk(p, fields) && multiset(steps) == multiset(fields) && AllIn(steps, fields) && f in fields
    ensures StepsFor(p, steps, f) && f in steps
  {
    FieldsOkMeans(p, fields);
    SameNameSameField(fields, f);
    forall k | 0 <= k < |steps| ensures p.nameOk(steps[k].name) && (steps[k].name == f.name ==> steps[k] == f) {
      assert IsIn(steps[k], fields);
      assert steps[k] in fields;
    }
    assert f in multiset(steps);
  }

  lemma SameNameSameField(fields: seq<Field>, f: Field)
    requires DistinctNames(fields) && f in fields
    ensures forall x :: x in fields && x.name == f.name ==> x == f
  {
    var i :| 0 <= i < |fields| && fields[i] == f;
    forall x | x in fields && x.name == f.name ensures x == f {
      var j :| 0 <= j < |fields| && fields[j] == x;
      assert i == j;
    }
  }
}
