/** How each step of the gate answers: when a call is refused and why, when its tool is reached, when a plan is sealed, what a read leaves. */
module InstructionsGateAnswers {
  import opened Options
  import opened InstructionRules
  import opened InstructionChains
  import opened InstructionTargets
  import opened InstructionLedger
  import opened InstructionsGate
  import opened InstructionsGateRuns

  /** What a step makes of one call. */
  function PhaseAfter(g: Settings, s: State, e: Event, c: nat): Phase
    requires Enabled(g, s, e) && c < |Act(g, s, e).calls|
  {
    Act(g, s, e).calls[c].phase
  }

  // -------------------------------------------------------------------------
  // What a reader is remembered to have been served
  // -------------------------------------------------------------------------

  /** The ledger still knows the reader, and holds the proof. */
  predicate Remembered(l: Ledger, key: string, path: string, digest: Digest, now: int) {
    Find(l.readers, key).Some? && now - Find(l.readers, key).value.lastSeen <= l.idle && ProofOf(l, key, path) == Some(digest)
  }

  /** Some spelling of the file is remembered with this content. */
  ghost predicate FileRemembered(f: Forms, l: Ledger, key: string, file: RuleFile, now: int) {
    exists path: string :: SpellingOf(f, path, file.path) && Remembered(l, key, path, file.digest, now)
  }

  ghost predicate AllRemembered(f: Forms, l: Ledger, key: string, files: seq<RuleFile>, now: int) {
    forall i :: 0 <= i < |files| ==> FileRemembered(f, l, key, files[i], now)
  }

  lemma VisitKeepsProofs(l: Ledger, key: string, path: string, digest: Digest, now: int)
    requires l.maxReaders > 0
    ensures ProofOf(Visit(l, key, false, now), key, path) == Some(digest) <==> Remembered(l, key, path, digest, now)
  {
    var found, others := Find(l.readers, key), Without(l.readers, key);
    if found.Some? && !Idle(l, found.value, now) {
      var e := found.value.(lastSeen := now);
      LastKey(others, e, l.maxReaders);
      FindLast(Last(others + [e], l.maxReaders), key);
    } else {
      var left := Find(others, key);
    }
  }

  lemma ReadIsRemembered(f: Forms, l: Ledger, key: string, file: RuleFile, now: int)
    requires l.maxReaders > 0
    ensures ReadBy(f, Visit(l, key, false, now), key, file) <==> FileRemembered(f, l, key, file, now)
  {
    var aliases, visited := Aliases(f, file.path), Visit(l, key, false, now);
    if i :| 0 <= i < |aliases| && ProofOf(visited, key, aliases[i]) == Some(file.digest) {
      AliasesAre(f, file.path, aliases[i]);
      VisitKeepsProofs(l, key, aliases[i], file.digest, now);
    }
    if path: string :| SpellingOf(f, path, file.path) && Remembered(l, key, path, file.digest, now) {
      AliasesAre(f, file.path, path);
      VisitKeepsProofs(l, key, path, file.digest, now);
      var i :| 0 <= i < |aliases| && aliases[i] == path;
    }
  }

  lemma AllReadIsRemembered(f: Forms, s: State, reader: string, rules: seq<RuleFile>, now: int)
    requires s.ledger.maxReaders > 0
    ensures AllRead(f, Visited(s, reader, rules, now).ledger, reader, rules) <==> AllRemembered(f, s.ledger, reader, rules, now)
  {
    forall i | 0 <= i < |rules|
      ensures ReadBy(f, Visited(s, reader, rules, now).ledger, reader, rules[i]) <==> FileRemembered(f, s.ledger, reader, rules[i], now)
    {
      ReadIsRemembered(f, s.ledger, reader, rules[i], now);
    }
  }

  // -------------------------------------------------------------------------
  // The start of a call
  // -------------------------------------------------------------------------

  /** An enforced write is refused at once exactly when its targets are not known, or it is a plan that could not be sealed. */
  lemma StartWriteDecides(g: Settings, s: State, e: Event)
    requires e.StartWrite? && Enabled(g, s, e)
    ensures |Act(g, s, e).calls| == |s.calls| + 1
    ensures var phase := PhaseAfter(g, s, e, |s.calls|);
            if e.mode.Enforce? then
              && (phase.Refused? <==> !e.resolution.Known? || (e.role.Plan? && !e.journal))
              && (phase.Refused? ==> phase.reason == if e.resolution.Unknown? then TargetUnresolved else Unavailable)
              && (!phase.Refused? ==> phase == Evaluating(e.resolution.targets, true, None))
            else
              match e.resolution
              case Known(targets) => phase == Evaluating(targets, true, None)
              case Unknown => phase == Evaluating([Target("", true)], false, None)
              case Unreadable => phase.InTool?
  {
  }

  /** A seal of the family under this reference, not older than the retention. */
  predicate KeptSeal(g: Settings, s: State, planRef: Option<string>, family: string, now: int) {
    && planRef.Some? && planRef.value in s.seals
    && s.seals[planRef.value].family == family && now - s.seals[planRef.value].sealedAt <= g.retention
  }

  /** An enforced apply is refused at once exactly when the journal is missing or keeps no seal of its family for the plan. */
  lemma StartApplyDecides(g: Settings, s: State, e: Event)
    requires e.StartApply? && Enabled(g, s, e)
    ensures |Act(g, s, e).calls| == |s.calls| + 1
    ensures var phase, sealed := PhaseAfter(g, s, e, |s.calls|), e.journal && KeptSeal(g, s, e.planRef, e.family, e.now);
            && (sealed ==> phase == Evaluating(s.seals[e.planRef.value].targets, true, Some(s.seals[e.planRef.value])))
            && (!sealed && e.mode.Enforce? ==> phase == Refused(if e.journal then PlanUnsealed else Unavailable))
            && (!sealed && !e.mode.Enforce? ==> phase.InTool?)
  {
  }

  // -------------------------------------------------------------------------
  // The end of an evaluation
  // -------------------------------------------------------------------------

  predicate Evaluates(g: Settings, s: State, c: nat, persisted: bool, now: int) {
    Enabled(g, s, Conclude(c, persisted, now)) && s.calls[c].phase.Evaluating? && s.ledger.maxReaders > 0
  }

  predicate SealBroken(g: Settings, seal: Option<Seal>, rules: seq<RuleFile>) {
    seal.Some? && seal.value.rules != RulesDigest(g.vaultId, g.names, rules)
  }

  /** What a decision makes of a call, when `read` says whether all rules are read. */
  function Decision(g: Settings, call: Call, rules: seq<RuleFile>, read: bool): Phase
    requires call.phase.Evaluating?
  {
    var broken := SealBroken(g, call.phase.seal, rules);
    if call.mode.Enforce? && broken then Refused(ChangedSincePlan)
    else if call.mode.Enforce? && !read then Refused(Unread)
    else InTool(call.phase.targets, rules, call.role.Plan? && call.phase.resolved && !broken)
  }

  lemma ReadDecision(g: Settings, s: State, c: nat)
    requires c < |s.calls| && s.calls[c].phase.Evaluating?
    requires !SealBroken(g, s.calls[c].phase.seal, RulesNow(g, s.calls[c]))
    ensures var s', call := DecideRead(g, s, c), s.calls[c];
            |s'.calls| == |s.calls| && s'.calls[c].phase == Decision(g, call, RulesNow(g, call), AllRead(g.forms, s.ledger, call.reader, RulesNow(g, call)))
  {
  }

  lemma DecisionIs(g: Settings, s: State, c: nat, now: int)
    requires c < |s.calls| && s.calls[c].phase.Evaluating?
    ensures var s', call := Decide(g, s, c, now), s.calls[c];
            var rules := RulesNow(g, call);
            && |s'.calls| == |s.calls|
            && s'.calls[c].phase == Decision(g, call, rules, AllRead(g.forms, Visited(s, call.reader, rules, now).ledger, call.reader, rules))
  {
    var call := s.calls[c];
    if !SealBroken(g, call.phase.seal, RulesNow(g, call)) { ReadDecision(g, Visited(s, call.reader, RulesNow(g, call), now), c); }
  }

  /**
   An evaluated call runs over its targets unless it is enforced and refused: as changed exactly when its seal was made
   for other rules, and as unread exactly when its reader is not remembered to have been served every rule.
   */
  lemma EvaluationDecides(g: Settings, s: State, c: nat, persisted: bool, now: int) returns (rules: seq<RuleFile>)
    requires Evaluates(g, s, c, persisted, now)
    ensures |Act(g, s, Conclude(c, persisted, now)).calls| == |s.calls|
    ensures RulesOfTargets(g, s.calls[c].contents, s.calls[c].phase.targets, rules)
    ensures var call, phase := s.calls[c], PhaseAfter(g, s, Conclude(c, persisted, now), c);
            var broken := SealBroken(g, call.phase.seal, rules);
            && (phase == Refused(ChangedSincePlan) <==> call.mode.Enforce? && broken)
            && (phase == Refused(Unread) <==> call.mode.Enforce? && !broken && !AllRemembered(g.forms, s.ledger, call.reader, rules, now))
            && (!phase.Refused? ==> phase == InTool(call.phase.targets, rules, call.role.Plan? && call.phase.resolved && !broken))
            && (phase.Refused? ==> phase.reason in {ChangedSincePlan, Unread})
  {
    var call := s.calls[c];
    rules := RulesNow(g, call);
    EvaluatedMeans(g, call, call.phase.targets, rules);
    AllReadIsRemembered(g.forms, s, call.reader, rules, now);
    DecisionIs(g, s, c, now);
    ConcludeIsDecide(g, s, c, persisted, now);
  }

  lemma ConcludeIsDecide(g: Settings, s: State, c: nat, persisted: bool, now: int)
    requires Enabled(g, s, Conclude(c, persisted, now)) && s.calls[c].phase.Evaluating?
    ensures Act(g, s, Conclude(c, persisted, now)) == Decide(g, s, c, now)
  {
  }

  /** A probe that fails refuses an enforced call, whether it is evaluated for the first time or again. */
  lemma ProbeFailsDecides(g: Settings, s: State, c: nat)
    requires Enabled(g, s, ProbeFails(c)) && !s.calls[c].phase.Proving?
    ensures |Act(g, s, ProbeFails(c)).calls| == |s.calls|
    ensures var phase := PhaseAfter(g, s, ProbeFails(c), c);
            if s.calls[c].mode.Enforce? then phase == Refused(Unavailable) else if s.calls[c].phase.Evaluating? then phase.InTool? else phase == Done
  {
  }

  // -------------------------------------------------------------------------
  // The end of a plan
  // -------------------------------------------------------------------------

  /** The step seals the plan: its journal holds the seal from now on, and no other changes. */
  ghost predicate SealsPlan(g: Settings, s: State, e: Event, c: nat, planRef: string, targets: seq<Target>, rules: seq<RuleFile>, now: int)
    requires Enabled(g, s, e) && c < |s.calls| && s.calls[c].role.Plan?
  {
    Act(g, s, e).seals == s.seals[planRef := Seal(s.calls[c].role.family, targets, RulesDigest(g.vaultId, g.names, rules), now)]
  }

  predicate AllKnown(targets: seq<Target>, revealed: seq<Target>) {
    forall i :: 0 <= i < |revealed| ==> KnownPath(targets, revealed[i].path)
  }

  lemma {:induction false} NoNewTargets(known: seq<Target>, revealed: seq<Target>)
    ensures NewTargets(known, revealed) == [] <==> AllKnown(known, revealed)
  {
    if revealed != [] {
      var before, last := revealed[..|revealed| - 1], revealed[|revealed| - 1];
      NoNewTargets(known, before);
      assert revealed == before + [last];
      if AllKnown(known, before) && KnownPath(known, last.path) {
        forall i | 0 <= i < |revealed| ensures KnownPath(known, revealed[i].path) { if i < |before| { assert revealed[i] == before[i]; } }
      }
      if AllKnown(known, revealed) {
        forall i | 0 <= i < |before| ensures KnownPath(known, before[i].path) { assert before[i] == revealed[i]; }
        assert KnownPath(known, revealed[|before|].path);
      }
    }
  }

  /** Only a move reveals paths, and it must name them all. */
  lemma RevealedIs(family: string, outcome: ToolOutcome)
    ensures Revealed(family, outcome).None?
            <==> family == "obsidian_note_move" && (outcome.affected.None? || exists i :: 0 <= i < |outcome.affected.value| && !Names(outcome.affected.value[i]))
    ensures family != "obsidian_note_move" ==> Revealed(family, outcome) == Some([])
  {
  }

  /**
   When a resolved plan returns, it is sealed at once exactly when it succeeded, revealed nothing but known targets,
   named its plan and the journal takes the seal; with new targets it is evaluated again over all of them.
   */
  lemma PlanReturns(g: Settings, s: State, e: Event, c: nat)
    requires ReturnsPlan(g, s, e, c)
    ensures |Act(g, s, e).calls| == |s.calls|
    ensures var call, phase := s.calls[c], PhaseAfter(g, s, e, c);
            var revealed := Revealed(call.role.family, e.outcome);
            var complete := !e.outcome.isError && revealed.Some? && AllKnown(call.phase.targets, revealed.value);
            && (complete && e.outcome.planRef.Some? && e.persisted ==>
                  SealsPlan(g, s, e, c, e.outcome.planRef.value, call.phase.targets, call.phase.rules, e.now))
            && (!(complete && e.outcome.planRef.Some? && e.persisted) ==> Act(g, s, e).seals == s.seals)
            && (complete || e.outcome.isError ==> phase == Done)
            && (!e.outcome.isError && revealed.None? ==> phase == if call.mode.Enforce? then Refused(TargetUnresolved) else Done)
            && (!complete && !e.outcome.isError && revealed.Some? ==>
                  && phase.Reevaluating? && phase.planRef == e.outcome.planRef && Act(g, s, e).calls[c].contents == map[]
                  && forall t :: t in phase.targets <==> t in call.phase.targets || (t in revealed.value && !KnownPath(call.phase.targets, t.path)))
  {
    var call := s.calls[c];
    var revealed := Revealed(call.role.family, e.outcome);
    if e.outcome.isError || revealed.None? {
      PlanEnds(g, s, e, c);
    } else {
      NoNewTargets(call.phase.targets, revealed.value);
      PlanGoesOn(g, s, e, c);
      if !AllKnown(call.phase.targets, revealed.value) { AllTargets(call.phase.targets, revealed.value); }
    }
  }

  predicate ReturnsPlan(g: Settings, s: State, e: Event, c: nat) {
    e.ToolReturns? && e.call == c && Enabled(g, s, e) && s.calls[c].role.Plan? && s.calls[c].phase.mayBeSealed
  }

  lemma PlanEnds(g: Settings, s: State, e: Event, c: nat)
    requires ReturnsPlan(g, s, e, c) && (e.outcome.isError || Revealed(s.calls[c].role.family, e.outcome).None?)
    ensures var s' := Act(g, s, e);
            && |s'.calls| == |s.calls| && s'.seals == s.seals
            && s'.calls[c].phase == if !e.outcome.isError && s.calls[c].mode.Enforce? then Refused(TargetUnresolved) else Done
  {
  }

  lemma PlanGoesOn(g: Settings, s: State, e: Event, c: nat)
    requires ReturnsPlan(g, s, e, c) && !e.outcome.isError && Revealed(s.calls[c].role.family, e.outcome).Some?
    ensures var s', call := Act(g, s, e), s.calls[c];
            var extra := NewTargets(call.phase.targets, Revealed(call.role.family, e.outcome).value);
            && |s'.calls| == |s.calls|
            && (extra != [] ==> s'.seals == s.seals && s'.calls[c].contents == map[]
                                && s'.calls[c].phase == Reevaluating(UniqueTargets(call.phase.targets + extra), e.outcome.planRef))
            && (extra == [] ==>
                  && s'.calls[c].phase == Done
                  && s'.seals == if e.outcome.planRef.None? || !e.persisted then s.seals
                                 else s.seals[e.outcome.planRef.value := Seal(call.role.family, call.phase.targets, RulesDigest(g.vaultId, g.names, call.phase.rules), e.now)])
  {
  }

  lemma AllTargets(known: seq<Target>, revealed: seq<Target>)
    ensures forall t :: t in UniqueTargets(known + NewTargets(known, revealed)) <==> t in known || (t in revealed && !KnownPath(known, t.path))
  {
    UniqueTargetItems(known + NewTargets(known, revealed));
    NewTargetItems(known, revealed);
  }

  lemma {:induction false} UniqueTargetItems(targets: seq<Target>)
    ensures forall t :: t in UniqueTargets(targets) <==> t in targets
  {
    if targets != [] {
      UniqueTargetItems(targets[..|targets| - 1]);
      assert targets == targets[..|targets| - 1] + [targets[|targets| - 1]];
    }
  }

  lemma {:induction false} NewTargetItems(known: seq<Target>, revealed: seq<Target>)
    ensures forall t :: t in NewTargets(known, revealed) <==> t in revealed && !KnownPath(known, t.path)
  {
    if revealed != [] {
      NewTargetItems(known, revealed[..|revealed| - 1]);
      assert revealed == revealed[..|revealed| - 1] + [revealed[|revealed| - 1]];
    }
  }

  /** What a plan evaluated again comes to. */
  ghost predicate Resealed(g: Settings, s: State, s': State, c: nat, rules: seq<RuleFile>, unread: bool, persisted: bool, now: int)
    requires c < |s.calls| && s.calls[c].phase.Reevaluating? && s.calls[c].role.Plan?
  {
    var call := s.calls[c];
    && |s'.calls| == |s.calls| && s'.calls[c].phase == (if unread then Refused(Unread) else Done)
    && s'.seals == (if unread || call.phase.planRef.None? || !persisted then s.seals
                    else s.seals[call.phase.planRef.value := Seal(call.role.family, call.phase.targets, RulesDigest(g.vaultId, g.names, rules), now)])
  }

  lemma RevealedDecision(g: Settings, s: State, c: nat, persisted: bool, now: int)
    requires c < |s.calls| && s.calls[c].phase.Reevaluating? && s.calls[c].role.Plan?
    ensures var call, rules := s.calls[c], RulesNow(g, s.calls[c]);
            Resealed(g, s, DecideRevealed(g, s, c, persisted, now), c, rules, call.mode.Enforce? && !AllRead(g.forms, s.ledger, call.reader, rules), persisted, now)
  {
  }

  /** Evaluated again, a plan is sealed over all targets unless it is enforced and a rule of them is not remembered as read. */
  lemma RevealedDecides(g: Settings, s: State, c: nat, persisted: bool, now: int) returns (rules: seq<RuleFile>)
    requires Enabled(g, s, Conclude(c, persisted, now)) && s.calls[c].phase.Reevaluating? && s.calls[c].role.Plan? && s.ledger.maxReaders > 0
    ensures RulesOfTargets(g, s.calls[c].contents, s.calls[c].phase.targets, rules)
    ensures Resealed(g, s, Act(g, s, Conclude(c, persisted, now)), c, rules,
                     s.calls[c].mode.Enforce? && !AllRemembered(g.forms, s.ledger, s.calls[c].reader, rules, now), persisted, now)
  {
    var call := s.calls[c];
    rules := RulesNow(g, call);
    EvaluatedMeans(g, call, call.phase.targets, rules);
    AllReadIsRemembered(g.forms, s, call.reader, rules, now);
    RevealedDecision(g, Visited(s, call.reader, rules, now), c, persisted, now);
    RevealedAct(g, s, c, persisted, now);
  }

  lemma RevealedAct(g: Settings, s: State, c: nat, persisted: bool, now: int)
    requires Enabled(g, s, Conclude(c, persisted, now)) && s.calls[c].phase.Reevaluating? && s.calls[c].role.Plan?
    ensures Act(g, s, Conclude(c, persisted, now)) == DecideRevealed(g, Visited(s, s.calls[c].reader, RulesNow(g, s.calls[c]), now), c, persisted, now)
  {
  }

  // -------------------------------------------------------------------------
  // The end of a read
  // -------------------------------------------------------------------------

  /** The vault's own copy under this path is what the read served. */
  predicate Matches(call: Call, path: string, served: string) {
    path in call.probed && Present(call.contents, path) && DigestOf(call.contents, path) == Normalized(served)
  }

  /** The proof is recorded in both logs when it is the last one. */
  lemma LastProofLeft(s: State, call: Call, path: string, served: string, now: int)
    requires Matches(call, path, served) && s.ledger.maxReaders > 0 && s.ledger.maxPaths > 0
    ensures var r := RecordProof(s, call, path, served, now);
            ProofLogged(r.served, call.reader, path, Normalized(served), s.steps + 1) && ProofOf(r.ledger, call.reader, path) == Some(Normalized(served))
  {
    RecordedIsFound(s.ledger, call.reader, path, Normalized(served), now);
    var r := RecordProof(s, call, path, served, now);
    assert r.served[|s.served|].path == path;
  }

  lemma EarlierProofLeft(s: State, call: Call, path: string, served: string, now: int, earlier: string)
    requires ProofLogged(s.served, call.reader, earlier, Normalized(served), s.steps + 1)
    ensures ProofLogged(RecordProof(s, call, path, served, now).served, call.reader, earlier, Normalized(served), s.steps + 1)
  {
    LoggedStays(s.served, RecordProof(s, call, path, served, now).served, call.reader, earlier, Normalized(served), s.steps + 1, s.steps + 1);
  }

  lemma {:induction false} ProofsLeft(s: State, call: Call, candidates: seq<string>, served: string, now: int, k: nat)
    requires k < |candidates| && Matches(call, candidates[k], served)
    requires s.ledger.maxReaders > 0 && s.ledger.maxPaths > 0
    ensures var r := RecordProofs(s, call, candidates, served, now);
            && ProofLogged(r.served, call.reader, candidates[k], Normalized(served), s.steps + 1)
            && ((forall j :: k < j < |candidates| ==> !Matches(call, candidates[j], served)) ==>
                  ProofOf(r.ledger, call.reader, candidates[k]) == Some(Normalized(served)))
  {
    var n := |candidates| - 1;
    var fewer := candidates[..n];
    var before := RecordProofs(s, call, fewer, served, now);
    BoundsStay(s, call, fewer, served, now);
    if k == n {
      LastProofLeft(before, call, candidates[n], served, now);
    } else {
      assert fewer[k] == candidates[k];
      ProofsLeft(s, call, fewer, served, now, k);
      EarlierProofLeft(before, call, candidates[n], served, now, candidates[k]);
      if forall j :: k < j < |candidates| ==> !Matches(call, candidates[j], served) {
        assert forall j :: k < j < n ==> fewer[j] == candidates[j];
      }
    }
  }

  lemma {:induction false} BoundsStay(s: State, call: Call, candidates: seq<string>, served: string, now: int)
    ensures var r := RecordProofs(s, call, candidates, served, now);
            r.ledger.maxReaders == s.ledger.maxReaders && r.ledger.maxPaths == s.ledger.maxPaths && r.steps == s.steps
  {
    if candidates != [] { BoundsStay(s, call, candidates[..|candidates| - 1], served, now); }
  }

  /** A read proves every one of its paths whose own copy is what was served, and the last of these is remembered. */
  lemma ReadLeavesProofs(g: Settings, s: State, c: nat, persisted: bool, now: int, k: nat)
    requires Enabled(g, s, Conclude(c, persisted, now)) && s.calls[c].phase.Proving? && s.ledger.maxReaders > 0 && s.ledger.maxPaths > 0
    requires k < |s.calls[c].phase.candidates| && Matches(s.calls[c], s.calls[c].phase.candidates[k], s.calls[c].phase.served)
    ensures var call, s' := s.calls[c], Act(g, s, Conclude(c, persisted, now));
            var path, digest := call.phase.candidates[k], Normalized(call.phase.served);
            && ProofLogged(s'.served, call.reader, path, digest, s.steps + 1)
            && ((forall j :: k < j < |call.phase.candidates| ==> !Matches(call, call.phase.candidates[j], call.phase.served)) ==>
                  ProofOf(s'.ledger, call.reader, path) == Some(digest))
  {
    ProofsLeft(s, s.calls[c], s.calls[c].phase.candidates, s.calls[c].phase.served, now, k);
  }

  /** What a read serves is to be proved under the path asked for and the path it was served from. */
  lemma ReadReturnsDecides(g: Settings, s: State, e: Event, c: nat)
    requires e.ReadReturns? && e.call == c && Enabled(g, s, e) && s.calls[c].role.Read?
    ensures |Act(g, s, e).calls| == |s.calls|
    ensures var phase := PhaseAfter(g, s, e, c);
            if e.content.None? then phase == Done
            else
              && phase.Proving? && phase.served == e.content.value
              && forall path :: path in phase.candidates <==> path == s.calls[c].role.path || path == e.servedPath
  {
    UniqueItems([s.calls[c].role.path, e.servedPath]);
  }
}
