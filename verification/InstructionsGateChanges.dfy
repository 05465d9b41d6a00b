/** Applies refused as changed although no rule changed: the seal is of another vault or other configured names. */
module InstructionsGateChanges {
  import opened Options
  import opened InstructionRules
  import opened InstructionsGate
  import opened InstructionsGateRuns

  /** One more step of a run. */
  lemma Extend(g: Settings, t: Trace, first: State, e: Event) returns (longer: Trace)
    requires IsRun(g, t, first) && Enabled(g, t.states[|t.events|], e)
    ensures IsRun(g, longer, first)
    ensures longer == Trace(t.events + [e], t.states + [Step(g, t.states[|t.events|], e)])
  {
    longer := Trace(t.events + [e], t.states + [Step(g, t.states[|t.events|], e)]);
    forall i, j | 0 <= i < |longer.events| && j == i + 1 ensures Steps(g, longer.states[i], longer.events[i], longer.states[j]) {
      if i < |t.events| { assert Steps(g, t.states[i], t.events[i], t.states[j]); }
    }
  }

  predicate NothingFound(contents: map<string, Option<string>>) { forall path :: path in contents ==> contents[path].None? }

  /** One enforced apply checks the rules of its seal over an empty vault. */
  predicate ChecksEmptyVault(s: State, seal: Seal) {
    && s.vault == map[] && |s.calls| == 1 && s.calls[0].mode.Enforce? && NothingFound(s.calls[0].contents)
    && s.calls[0].phase == Evaluating(seal.targets, true, Some(seal))
  }

  function Unprobed(g: Settings, s: State, seal: Seal): set<string>
    requires |s.calls| == 1
  {
    set path | path in Chains(g.forms, g.names, seal.targets) && path !in s.calls[0].contents
  }

  /** The probes of an apply, one by one. */
  lemma {:induction false} ProbeAll(g: Settings, t: Trace, first: State, seal: Seal) returns (longer: Trace)
    requires IsRun(g, t, first) && ChecksEmptyVault(t.states[|t.events|], seal)
    ensures IsRun(g, longer, first) && ChecksEmptyVault(longer.states[|longer.events|], seal)
    ensures AllProbed(g, seal.targets, longer.states[|longer.events|].calls[0].contents)
    decreases |Unprobed(g, t.states[|t.events|], seal)|
  {
    var s := t.states[|t.events|];
    if path :| path in Unprobed(g, s, seal) {
      longer := Extend(g, t, first, Probe(0, path));
      assert Unprobed(g, longer.states[|longer.events|], seal) == Unprobed(g, s, seal) - {path};
      longer := ProbeAll(g, longer, first, seal);
    } else {
      longer := t;
      forall path | path in Chains(g.forms, g.names, seal.targets) ensures path in s.calls[0].contents {
        assert path !in Unprobed(g, s, seal);
      }
    }
  }

  lemma NothingRules(f: Forms, names: seq<string>, contents: map<string, Option<string>>, paths: seq<string>)
    requires NothingFound(contents)
    ensures Rules(f, names, contents, paths) == []
  {
    var rules := Rules(f, names, contents, paths);
    assert rules != [] ==> rules[0] in rules;
    RulesMean(f, names, contents, paths);
  }

  lemma NoDifference()
    ensures SealDiff([], []) == []
  {
    DiffEmpty([], []);
  }

  /**
   A plan over a vault without instruction files, sealed for another vault or under other names, then a restart:
   its apply is refused because the rules changed, with no difference to show.
   */
  lemma RefusedWithoutDifference(g: Settings, planRef: string, seal: Seal, reader: string, now: int) returns (t: Trace)
    requires seal.rules.files == [] && (seal.rules.vaultId != g.vaultId || seal.rules.names != g.names)
    requires seal.sealedAt >= now - g.retention
    ensures From(g, t, map[], map[planRef := seal], 1, 1, 0) && |t.events| > 0
    ensures var s := t.states[|t.events| - 1];
            && ChecksEmptyVault(s, seal) && t.events[|t.events| - 1].Conclude?
            && SealDiff(seal.rules.files, RulesNow(g, s.calls[0])) == []
    ensures |t.states[|t.events|].calls| == 1 && t.states[|t.events|].calls[0].phase == Refused(ChangedSincePlan)
  {
    var first := Start(map[], map[planRef := seal], 1, 1, 0);
    t := Trace([], [first]);
    t := Extend(g, t, first, StartApply(seal.family, Some(planRef), reader, Enforce, true, now));
    t := ProbeAll(g, t, first, seal);
    var s := t.states[|t.events|];
    NothingRules(g.forms, g.names, s.calls[0].contents, Chains(g.forms, g.names, seal.targets));
    NoDifference();
    t := Extend(g, t, first, Conclude(0, true, now));
  }

  /** One more configured name, which no file has, is enough. */
  lemma AddedNameRefusesApply() returns (g: Settings, seal: Seal, t: Trace)
    ensures g.names == ["AGENTS.md", "NOTES.md"] && seal.rules == RulesDigest(g.vaultId, ["AGENTS.md"], [])
    ensures seal.targets == [Target("inbox/today.md", false)]
    ensures From(g, t, map[], map["plan" := seal], 1, 1, 0) && |t.events| > 0
    ensures var s := t.states[|t.events| - 1];
            && ChecksEmptyVault(s, seal) && SealDiff(seal.rules.files, RulesNow(g, s.calls[0])) == []
    ensures |t.states[|t.events|].calls| == 1 && t.states[|t.events|].calls[0].phase == Refused(ChangedSincePlan)
  {
    g := Settings(Forms(x => x, x => x), "vault", ["AGENTS.md", "NOTES.md"], 7776000000);
    seal := Seal("obsidian_note_replace", [Target("inbox/today.md", false)], RulesDigest("vault", ["AGENTS.md"], []), 0);
    assert seal.rules.names[..] != g.names by { assert |seal.rules.names| == 1; }
    t := RefusedWithoutDifference(g, "plan", seal, "reader", 1);
  }
}
