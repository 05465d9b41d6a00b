/** What each call of the gate was asked: its role, reader, mode and targets are those of the event that started it. */
module InstructionsGateAsked {
  import opened Options
  import opened InstructionRules
  import opened InstructionLedger
  import opened InstructionsGate

  predicate Includes(targets: seq<Target>, resolution: WriteResolution) {
    resolution.Known? && forall t :: t in resolution.targets ==> t in targets
  }

  /** A write is evaluated, run and sealed over the targets it named; under enforcement it runs over nothing else. */
  predicate WriteAsked(call: Call, resolution: WriteResolution) {
    && (match call.phase
        case Evaluating(targets, resolved, _) => if resolved then resolution == Known(targets) else resolution.Unknown? && !call.mode.Enforce?
        case InTool(targets, _, mayBeSealed) => mayBeSealed ==> resolution == Known(targets)
        case Reevaluating(targets, _) => Includes(targets, resolution)
        case _ => true)
    && (call.ran.Some? && call.mode.Enforce? ==> resolution == Known(call.ran.value.targets))
  }

  predicate CallAsked(es: seq<Event>, call: Call) {
    && call.began < |es|
    && match es[call.began]
       case StartWrite(role, reader, mode, resolution, _) =>
         && call.role == role && call.reader == reader && call.mode == mode && (role.Plan? || role.Direct?) && WriteAsked(call, resolution)
       case StartApply(family, planRef, reader, mode, _, _) =>
         && call.role == Apply(family, planRef) && call.reader == reader && call.mode == mode && !call.phase.Reevaluating?
       case StartRead(path, reader, mode) => call.role == Read(path) && call.reader == reader && call.mode == mode && !call.phase.Reevaluating?
       case _ => false
  }

  /** A seal covers all targets its plan named. */
  predicate SealAsked(es: seq<Event>, calls: seq<Call>, x: SealLog) {
    && x.call < |calls| && calls[x.call].began < |es|
    && es[calls[x.call].began].StartWrite? && Includes(x.seal.targets, es[calls[x.call].began].resolution)
  }

  predicate AskedOk(es: seq<Event>, s: State) {
    && (forall c :: 0 <= c < |s.calls| ==> CallAsked(es, s.calls[c]))
    && (forall k :: 0 <= k < |s.sealLog| ==> SealAsked(es, s.calls, s.sealLog[k]))
  }

  // -------------------------------------------------------------------------
  // Every step keeps it
  // -------------------------------------------------------------------------

  /** One call changes or is added, and at most one seal is written. */
  lemma OneCallAsked(es: seq<Event>, s: State, s': State, c: nat)
    requires AskedOk(es, s) && c < |s'.calls| && |s.calls| <= |s'.calls| <= |s.calls| + 1 && (c == |s.calls| || |s'.calls| == |s.calls|)
    requires forall b :: 0 <= b < |s.calls| && b != c ==> s'.calls[b] == s.calls[b]
    requires CallAsked(es, s'.calls[c]) && (c < |s.calls| ==> s'.calls[c].began == s.calls[c].began)
    requires s'.sealLog == s.sealLog || exists x :: s'.sealLog == s.sealLog + [x] && SealAsked(es, s'.calls, x)
    ensures AskedOk(es, s')
  {
    forall k | 0 <= k < |s'.sealLog| ensures SealAsked(es, s'.calls, s'.sealLog[k]) {
      if k < |s.sealLog| { assert SealAsked(es, s.calls, s.sealLog[k]); }
    }
  }

  lemma StartWriteAsked(es: seq<Event>, s: State, role: Role, reader: string, mode: Mode, resolution: WriteResolution, journal: bool)
    requires s.steps < |es| && es[s.steps] == StartWrite(role, reader, mode, resolution, journal) && AskedOk(es, s) && (role.Plan? || role.Direct?)
    ensures AskedOk(es, DoStartWrite(s, role, reader, mode, resolution, journal))
  {
    OneCallAsked(es, s, DoStartWrite(s, role, reader, mode, resolution, journal), |s.calls|);
  }

  lemma StartApplyAsked(g: Settings, es: seq<Event>, s: State, family: string, planRef: Option<string>, reader: string, mode: Mode, journal: bool, now: int)
    requires s.steps < |es| && es[s.steps] == StartApply(family, planRef, reader, mode, journal, now) && AskedOk(es, s)
    ensures AskedOk(es, DoStartApply(g, s, family, planRef, reader, mode, journal, now))
  {
    OneCallAsked(es, s, DoStartApply(g, s, family, planRef, reader, mode, journal, now), |s.calls|);
  }

  /** One call moves on as it was asked, and no seal is written. */
  predicate MovesAsAsked(es: seq<Event>, s: State, s': State, c: nat)
    requires c < |s.calls|
  {
    && |s'.calls| == |s.calls| && s'.sealLog == s.sealLog && CallAsked(es, s'.calls[c]) && s'.calls[c].began == s.calls[c].began
    && forall b :: 0 <= b < |s.calls| && b != c ==> s'.calls[b] == s.calls[b]
  }

  lemma ReadDecides(g: Settings, es: seq<Event>, s: State, l: Ledger, c: nat)
    requires c < |s.calls| && s.calls[c].phase.Evaluating? && CallAsked(es, s.calls[c])
    ensures MovesAsAsked(es, s, DecideRead(g, s.(ledger := l), c), c)
  {
  }

  lemma ChangeDecides(g: Settings, es: seq<Event>, s: State, c: nat)
    requires c < |s.calls| && s.calls[c].phase.Evaluating? && CallAsked(es, s.calls[c])
    ensures MovesAsAsked(es, s, DecideChanged(g, s, c), c)
  {
  }

  lemma DecidedAsked(g: Settings, es: seq<Event>, s: State, c: nat, now: int)
    requires c < |s.calls| && s.calls[c].phase.Evaluating? && CallAsked(es, s.calls[c])
    ensures MovesAsAsked(es, s, Decide(g, s, c, now), c)
  {
    var call := s.calls[c];
    if call.phase.seal.Some? && DigestNow(g, call) != call.phase.seal.value.rules {
      ChangeDecides(g, es, s, c);
    } else {
      var v := Visited(s, call.reader, RulesNow(g, call), now);
      assert v == s.(ledger := v.ledger);
      ReadDecides(g, es, s, v.ledger, c);
    }
  }

  lemma SealWritten(g: Settings, es: seq<Event>, s: State, c: nat, planRef: Option<string>, targets: seq<Target>, rules: seq<RuleFile>, persisted: bool, now: int)
    requires c < |s.calls| && s.calls[c].role.Plan? && CallAsked(es, s.calls[c])
    requires es[s.calls[c].began].StartWrite? && Includes(targets, es[s.calls[c].began].resolution)
    ensures var s' := WriteSeal(g, s, c, planRef, targets, rules, persisted, now);
            && |s'.calls| == |s.calls| && CallAsked(es, s'.calls[c]) && s'.calls[c].began == s.calls[c].began
            && (forall b :: 0 <= b < |s.calls| && b != c ==> s'.calls[b] == s.calls[b])
            && (s'.sealLog == s.sealLog || exists x :: s'.sealLog == s.sealLog + [x] && SealAsked(es, s'.calls, x))
  {
  }

  lemma RevealedAsked(g: Settings, es: seq<Event>, s: State, l: Ledger, c: nat, persisted: bool, now: int)
    requires AskedOk(es, s) && c < |s.calls| && s.calls[c].phase.Reevaluating? && s.calls[c].role.Plan?
    ensures AskedOk(es, DecideRevealed(g, s.(ledger := l), c, persisted, now))
  {
    var call, v := s.calls[c], s.(ledger := l);
    var s' := DecideRevealed(g, v, c, persisted, now);
    assert CallAsked(es, call);
    if !(call.mode.Enforce? && !AllRead(g.forms, l, call.reader, RulesNow(g, call))) {
      SealWritten(g, es, v, c, call.phase.planRef, call.phase.targets, RulesNow(g, call), persisted, now);
    }
    OneCallAsked(es, s, s', c);
  }

  lemma ConcludeAsked(g: Settings, es: seq<Event>, s: State, c: nat, persisted: bool, now: int)
    requires AskedOk(es, s) && Enabled(g, s, Conclude(c, persisted, now))
    ensures AskedOk(es, DoConclude(g, s, c, persisted, now))
  {
    var call := s.calls[c];
    assert CallAsked(es, call);
    match call.phase
    case Evaluating(_, _, _) =>
      DecidedAsked(g, es, s, c, now);
      OneCallAsked(es, s, DoConclude(g, s, c, persisted, now), c);
    case Reevaluating(_, _) =>
      if call.role.Plan? { RevealedAsked(g, es, s, Visited(s, call.reader, RulesNow(g, call), now).ledger, c, persisted, now); }
    case Proving(_, _) => OneCallAsked(es, s, DoConclude(g, s, c, persisted, now), c);
  }

  lemma {:induction false} UniqueKeeps(targets: seq<Target>, x: Target)
    requires x in targets
    ensures x in UniqueTargets(targets)
  {
    var before, last := targets[..|targets| - 1], targets[|targets| - 1];
    assert targets == before + [last];
    if x in before { UniqueKeeps(before, x); }
  }

  lemma ReturnsAsked(g: Settings, es: seq<Event>, s: State, c: nat, outcome: ToolOutcome, persisted: bool, now: int)
    requires AskedOk(es, s) && c < |s.calls| && s.calls[c].phase.InTool?
    ensures AskedOk(es, DoToolReturns(g, s, c, outcome, persisted, now))
  {
    var call := s.calls[c];
    assert CallAsked(es, call);
    var returned := SetCall(s, c, call.(outcome := Some(outcome)));
    var s' := DoToolReturns(g, s, c, outcome, persisted, now);
    if call.role.Plan? && !outcome.isError && call.phase.mayBeSealed && Revealed(call.role.family, outcome).Some? {
      var extra := NewTargets(call.phase.targets, Revealed(call.role.family, outcome).value);
      if extra == [] {
        SealWritten(g, es, returned, c, outcome.planRef, call.phase.targets, call.phase.rules, persisted, now);
      } else {
        forall t | t in call.phase.targets ensures t in UniqueTargets(call.phase.targets + extra) { UniqueKeeps(call.phase.targets + extra, t); }
      }
    }
    OneCallAsked(es, s, s', c);
  }

  lemma StepAsked(g: Settings, es: seq<Event>, s: State, e: Event)
    requires s.steps < |es| && es[s.steps] == e && Enabled(g, s, e) && AskedOk(es, s)
    ensures AskedOk(es, Act(g, s, e))
  {
    match e
    case VaultChanges(_, _) =>
    case StartWrite(role, reader, mode, resolution, journal) => StartWriteAsked(es, s, role, reader, mode, resolution, journal);
    case StartApply(family, planRef, reader, mode, journal, now) => StartApplyAsked(g, es, s, family, planRef, reader, mode, journal, now);
    case StartRead(_, _, _) => OneCallAsked(es, s, Act(g, s, e), |s.calls|);
    case Probe(c, path) => ProbeAsked(g, es, s, c, path);
    case ProbeFails(c) => ProbeFailsAsked(g, es, s, c);
    case Conclude(c, persisted, now) => ConcludeAsked(g, es, s, c, persisted, now);
    case ToolReturns(c, outcome, persisted, now) => ReturnsAsked(g, es, s, c, outcome, persisted, now);
    case ReadReturns(c, content, servedPath) => if s.calls[c].role.Read? { ReadReturnsAsked(es, s, c, content, servedPath); }
  }

  lemma ProbeAsked(g: Settings, es: seq<Event>, s: State, c: nat, path: string)
    requires Enabled(g, s, Probe(c, path)) && AskedOk(es, s)
    ensures AskedOk(es, DoProbe(g, s, c, path))
  {
    assert CallAsked(es, s.calls[c]);
    OneCallAsked(es, s, DoProbe(g, s, c, path), c);
  }

  lemma ProbeFailsAsked(g: Settings, es: seq<Event>, s: State, c: nat)
    requires Enabled(g, s, ProbeFails(c)) && AskedOk(es, s)
    ensures AskedOk(es, DoProbeFails(g, s, c))
  {
    assert CallAsked(es, s.calls[c]);
    OneCallAsked(es, s, DoProbeFails(g, s, c), c);
  }

  lemma ReadReturnsAsked(es: seq<Event>, s: State, c: nat, content: Option<string>, servedPath: string)
    requires c < |s.calls| && s.calls[c].phase.Serving? && s.calls[c].role.Read? && AskedOk(es, s)
    ensures AskedOk(es, DoReadReturns(s, c, content, servedPath))
  {
    assert CallAsked(es, s.calls[c]);
    OneCallAsked(es, s, DoReadReturns(s, c, content, servedPath), c);
  }

  /** In every run, whatever the journal held. */
  lemma {:induction false} ReachableAsked(g: Settings, t: Trace, first: State, i: nat)
    requires IsRun(g, t, first) && first.steps == 0 && first.calls == [] && first.sealLog == [] && i < |t.states|
    ensures t.states[i].steps == i && AskedOk(t.events, t.states[i])
  {
    if i > 0 {
      ReachableAsked(g, t, first, i - 1);
      assert Steps(g, t.states[i - 1], t.events[i - 1], t.states[i]);
      StepAsked(g, t.events, t.states[i - 1], t.events[i - 1]);
    }
  }
}
