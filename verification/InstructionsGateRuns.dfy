/** What every run of the vault-instructions gate keeps. */
module InstructionsGateRuns {
  import opened Options
  import opened InstructionRules
  import opened InstructionChains
  import opened InstructionLedger
  import opened InstructionsGate
  import InstructionsGateAsked

  /** The vault before step `k`. */
  function VaultAt(es: seq<Event>, v0: map<string, string>, k: nat): map<string, string>
    requires k <= |es|
  {
    if k == 0 then v0
    else
      var before := VaultAt(es, v0, k - 1);
      match es[k - 1]
      case VaultChanges(path, content) => if content.Some? then before[path := content.value] else before - {path}
      case _ => before
  }

  // -------------------------------------------------------------------------
  // The invariant
  // -------------------------------------------------------------------------

  /** Each answer is what the vault held when that path was probed, between two steps of the call. */
  ghost predicate Probed(es: seq<Event>, v0: map<string, string>, contents: map<string, Option<string>>, probed: map<string, nat>, from: nat, to: nat)
    requires to <= |es|
  {
    contents.Keys == probed.Keys
    && forall path :: path in contents ==>
         from <= probed[path] < to && contents[path] == InVault(VaultAt(es, v0, probed[path]), path)
  }

  predicate ProofLogged(served: seq<Served>, reader: string, path: string, digest: Digest, before: nat) {
    exists j :: 0 <= j < |served| && served[j].reader == reader && served[j].path == path && served[j].digest == digest && served[j].at < before
  }

  /** Some spelling of the file was served to the reader with this content before a step. */
  predicate ReadLogged(f: Forms, served: seq<Served>, reader: string, file: RuleFile, before: nat) {
    exists i :: 0 <= i < |Aliases(f, file.path)| && ProofLogged(served, reader, Aliases(f, file.path)[i], file.digest, before)
  }

  predicate AllLogged(f: Forms, served: seq<Served>, reader: string, rules: seq<RuleFile>, before: nat) {
    forall i :: 0 <= i < |rules| ==> ReadLogged(f, served, reader, rules[i], before)
  }

  predicate SealLogged(log: seq<SealLog>, planRef: string, seal: Seal, before: nat) {
    exists k :: 0 <= k < |log| && log[k].planRef == planRef && log[k].seal == seal && log[k].at < before
  }

  predicate SealInherited(inherited: map<string, Seal>, planRef: string, seal: Seal) {
    planRef in inherited && inherited[planRef] == seal
  }

  /** The seal was in the journal from the start, or was written before a step. */
  predicate SealKnown(inherited: map<string, Seal>, log: seq<SealLog>, planRef: Option<string>, seal: Seal, before: nat) {
    planRef.Some? && (SealInherited(inherited, planRef.value, seal) || SealLogged(log, planRef.value, seal, before))
  }

  /** A seal lists its files in the order of the names it was made for. */
  ghost predicate SealOrdered(f: Forms, seal: Seal) { InOrder(f, seal.rules.names, seal.rules.files) }

  ghost predicate JournalOk(f: Forms, journal: map<string, Seal>) {
    forall planRef :: planRef in journal ==> SealOrdered(f, journal[planRef])
  }

  predicate AllProbed(g: Settings, targets: seq<Target>, contents: map<string, Option<string>>) {
    forall path :: path in Chains(g.forms, g.names, targets) ==> path in contents
  }

  /** An enforced call that reached its tool: its files were all probed and read, and an apply's seal still holds. */
  ghost predicate RanOk(g: Settings, es: seq<Event>, v0: map<string, string>, s: State, call: Call, r: Ran)
    requires s.steps <= |es|
  {
    && r.at < s.steps && call.began <= r.at
    && Probed(es, v0, r.contents, r.probed, call.began, r.at) && AllProbed(g, r.targets, r.contents)
    && r.rules == Rules(g.forms, g.names, r.contents, Chains(g.forms, g.names, r.targets))
    && AllLogged(g.forms, s.served, call.reader, r.rules, r.at)
    && (call.role.Apply? ==>
          && r.seal.Some? && r.seal.value.family == call.role.family && r.seal.value.targets == r.targets
          && r.seal.value.rules == RulesDigest(g.vaultId, g.names, r.rules) && Retained(g, es, call.began, r.seal.value)
          && SealKnown(s.inherited, s.sealLog, call.role.planRef, r.seal.value, r.at))
  }

  /** The rules are those of what the call's probes found for the targets, all of them probed. */
  predicate Evaluated(g: Settings, call: Call, targets: seq<Target>, rules: seq<RuleFile>) {
    AllProbed(g, targets, call.contents) && rules == Rules(g.forms, g.names, call.contents, Chains(g.forms, g.names, targets))
  }

  /** When the apply looked its seal up, at its start, the seal was still kept. */
  predicate Retained(g: Settings, es: seq<Event>, began: nat, seal: Seal) {
    began < |es| && es[began].StartApply? && !(seal.sealedAt < es[began].now - g.retention)
  }

  predicate RevealedIn(role: Role, outcome: Option<ToolOutcome>, targets: seq<Target>) {
    && role.Plan? && outcome.Some? && Revealed(role.family, outcome.value).Some?
    && forall i :: 0 <= i < |Revealed(role.family, outcome.value).value| ==>
         KnownPath(targets, Revealed(role.family, outcome.value).value[i].path)
  }

  ghost predicate CallOk(g: Settings, es: seq<Event>, v0: map<string, string>, s: State, call: Call)
    requires s.steps <= |es|
  {
    && call.began < s.steps && Probed(es, v0, call.contents, call.probed, call.began, s.steps)
    && (call.mode.Enforce? && call.ran.Some? ==> RanOk(g, es, v0, s, call, call.ran.value))
    && match call.phase
       case Evaluating(targets, resolved, seal) =>
         && (call.role.Apply? ==> seal.Some?)
         && (seal.Some? ==>
               && call.role.Apply? && seal.value.family == call.role.family && seal.value.targets == targets
               && SealOrdered(g.forms, seal.value) && Retained(g, es, call.began, seal.value)
               && SealKnown(s.inherited, s.sealLog, call.role.planRef, seal.value, s.steps))
       case InTool(targets, rules, mayBeSealed) =>
         mayBeSealed ==>
           && InOrder(g.forms, g.names, rules) && Evaluated(g, call, targets, rules)
           && (call.mode.Enforce? ==> AllLogged(g.forms, s.served, call.reader, rules, s.steps))
       case Reevaluating(targets, _) => RevealedIn(call.role, call.outcome, targets)
       case Serving => call.role.Read?
       case Proving(_, _) => call.role.Read?
       case Refused(_) => true
       case Done => true
  }

  ghost predicate CallsOk(g: Settings, es: seq<Event>, v0: map<string, string>, s: State)
    requires s.steps <= |es|
  {
    forall c :: 0 <= c < |s.calls| ==> CallAt(g, es, v0, s, c)
  }

  ghost predicate CallAt(g: Settings, es: seq<Event>, v0: map<string, string>, s: State, c: nat)
    requires s.steps <= |es| && c < |s.calls|
  {
    CallOk(g, es, v0, s, s.calls[c])
  }

  ghost predicate ServedOk(es: seq<Event>, v0: map<string, string>, x: Served, steps: nat)
    requires steps <= |es|
  {
    && x.probedAt <= x.at < steps && x.digest == Normalized(x.content)
    && x.path in VaultAt(es, v0, x.probedAt) && Normalized(VaultAt(es, v0, x.probedAt)[x.path]) == x.digest
  }

  ghost predicate AllServedOk(es: seq<Event>, v0: map<string, string>, s: State)
    requires s.steps <= |es|
  {
    forall j :: 0 <= j < |s.served| ==> ServedOk(es, v0, s.served[j], s.steps)
  }

  ghost predicate HeldIsServed(l: Ledger, served: seq<Served>, steps: nat, key: string, path: string, digest: Digest) {
    Holds(l, key, path, digest) ==> ProofLogged(served, key, path, digest, steps)
  }

  /** Whatever the ledger holds was served. */
  ghost predicate LedgerOk(l: Ledger, served: seq<Served>, steps: nat) {
    forall key, path, digest :: HeldIsServed(l, served, steps, key, path, digest)
  }

  /** A seal was written by a finished plan of its family, over targets that include every path that plan revealed. */
  ghost predicate SealLogOk(g: Settings, s: State, x: SealLog) {
    && x.at < s.steps && x.call < |s.calls| && SealOrdered(g.forms, x.seal)
    && s.calls[x.call].role == Plan(x.seal.family) && s.calls[x.call].phase.Done?
    && RevealedIn(s.calls[x.call].role, s.calls[x.call].outcome, x.seal.targets)
    && x.seal.rules == RulesDigest(g.vaultId, g.names, x.seal.rules.files) && Evaluated(g, s.calls[x.call], x.seal.targets, x.seal.rules.files)
    && (s.calls[x.call].mode.Enforce? ==> AllLogged(g.forms, s.served, s.calls[x.call].reader, x.seal.rules.files, x.at))
  }

  ghost predicate SealLogAt(g: Settings, s: State, k: nat)
    requires k < |s.sealLog|
  {
    SealLogOk(g, s, s.sealLog[k])
  }

  ghost predicate SealsOk(g: Settings, s: State) {
    && (forall k :: 0 <= k < |s.sealLog| ==> SealLogAt(g, s, k))
    && JournalOk(g.forms, s.inherited)
    && (forall planRef :: planRef in s.seals ==> SealKnown(s.inherited, s.sealLog, Some(planRef), s.seals[planRef], s.steps))
  }

  ghost predicate Inv(g: Settings, es: seq<Event>, v0: map<string, string>, s: State) {
    && s.steps <= |es| && s.vault == VaultAt(es, v0, s.steps)
    && CallsOk(g, es, v0, s) && AllServedOk(es, v0, s) && LedgerOk(s.ledger, s.served, s.steps) && SealsOk(g, s)
  }

  // -------------------------------------------------------------------------
  // Logs only grow
  // -------------------------------------------------------------------------

  ghost predicate Grows(s: State, s': State) {
    s'.steps == s.steps + 1 && s.served <= s'.served && s.sealLog <= s'.sealLog && |s.calls| <= |s'.calls|
    && s'.inherited == s.inherited
  }

  lemma LoggedStays(served: seq<Served>, served': seq<Served>, reader: string, path: string, digest: Digest, before: nat, later: nat)
    requires served <= served' && before <= later && ProofLogged(served, reader, path, digest, before)
    ensures ProofLogged(served', reader, path, digest, later)
  {
    var j :| 0 <= j < |served| && served[j].reader == reader && served[j].path == path && served[j].digest == digest && served[j].at < before;
    assert served'[j] == served[j];
  }

  lemma ReadStays(f: Forms, served: seq<Served>, served': seq<Served>, reader: string, file: RuleFile, before: nat)
    requires served <= served' && ReadLogged(f, served, reader, file, before)
    ensures ReadLogged(f, served', reader, file, before)
  {
    var i :| 0 <= i < |Aliases(f, file.path)| && ProofLogged(served, reader, Aliases(f, file.path)[i], file.digest, before);
    LoggedStays(served, served', reader, Aliases(f, file.path)[i], file.digest, before, before);
  }

  lemma AllReadStays(f: Forms, served: seq<Served>, served': seq<Served>, reader: string, rules: seq<RuleFile>, before: nat)
    requires served <= served' && AllLogged(f, served, reader, rules, before)
    ensures AllLogged(f, served', reader, rules, before)
  {
    forall i | 0 <= i < |rules| ensures ReadLogged(f, served', reader, rules[i], before) { ReadStays(f, served, served', reader, rules[i], before); }
  }

  lemma SealStays(inherited: map<string, Seal>, log: seq<SealLog>, log': seq<SealLog>, planRef: Option<string>, seal: Seal, before: nat, later: nat)
    requires log <= log' && before <= later && SealKnown(inherited, log, planRef, seal, before)
    ensures SealKnown(inherited, log', planRef, seal, later)
  {
    if SealLogged(log, planRef.value, seal, before) {
      var k :| 0 <= k < |log| && log[k].planRef == planRef.value && log[k].seal == seal && log[k].at < before;
      assert log'[k] == log[k];
    }
  }

  lemma RanStays(g: Settings, es: seq<Event>, v0: map<string, string>, s: State, s': State, call: Call, r: Ran)
    requires s.steps < |es| && Grows(s, s') && RanOk(g, es, v0, s, call, r)
    ensures RanOk(g, es, v0, s', call, r)
  {
    AllReadStays(g.forms, s.served, s'.served, call.reader, r.rules, r.at);
    if call.role.Apply? { SealStays(s.inherited, s.sealLog, s'.sealLog, call.role.planRef, r.seal.value, r.at, r.at); }
  }

  lemma CallStays(g: Settings, es: seq<Event>, v0: map<string, string>, s: State, s': State, call: Call)
    requires s.steps < |es| && Grows(s, s') && CallOk(g, es, v0, s, call)
    ensures CallOk(g, es, v0, s', call)
  {
    if call.mode.Enforce? && call.ran.Some? { RanStays(g, es, v0, s, s', call, call.ran.value); }
    if call.phase.Evaluating? && call.phase.seal.Some? {
      SealStays(s.inherited, s.sealLog, s'.sealLog, call.role.planRef, call.phase.seal.value, s.steps, s'.steps);
    }
    if call.phase.InTool? && call.phase.mayBeSealed && call.mode.Enforce? {
      AllLoggedLater(g.forms, s.served, s'.served, call.reader, call.phase.rules, s.steps, s'.steps);
    }
  }

  lemma AllLoggedLater(f: Forms, served: seq<Served>, served': seq<Served>, reader: string, rules: seq<RuleFile>, before: nat, later: nat)
    requires served <= served' && before <= later && AllLogged(f, served, reader, rules, before)
    ensures AllLogged(f, served', reader, rules, later)
  {
    forall i | 0 <= i < |rules| ensures ReadLogged(f, served', reader, rules[i], later) {
      assert ReadLogged(f, served, reader, rules[i], before);
      var k :| 0 <= k < |Aliases(f, rules[i].path)| && ProofLogged(served, reader, Aliases(f, rules[i].path)[k], rules[i].digest, before);
      LoggedStays(served, served', reader, Aliases(f, rules[i].path)[k], rules[i].digest, before, later);
    }
  }

  lemma OthersStay(g: Settings, es: seq<Event>, v0: map<string, string>, s: State, s': State, changed: int)
    requires s.steps < |es| && Grows(s, s') && CallsOk(g, es, v0, s)
    requires forall c :: 0 <= c < |s.calls| && c != changed ==> s'.calls[c] == s.calls[c]
    ensures forall c :: 0 <= c < |s.calls| && c != changed ==> CallAt(g, es, v0, s', c)
  {
    forall c | 0 <= c < |s.calls| && c != changed ensures CallAt(g, es, v0, s', c) {
      assert CallAt(g, es, v0, s, c);
      CallStays(g, es, v0, s, s', s.calls[c]);
    }
  }

  lemma LedgerStays(l: Ledger, served: seq<Served>, served': seq<Served>, steps: nat)
    requires LedgerOk(l, served, steps) && served <= served'
    ensures LedgerOk(l, served', steps + 1)
  {
    var later := steps + 1;
    forall key, path, digest ensures HeldIsServed(l, served', later, key, path, digest) {
      assert HeldIsServed(l, served, steps, key, path, digest);
      if Holds(l, key, path, digest) { LoggedStays(served, served', key, path, digest, steps, later); }
    }
  }

  lemma SealLogStays(g: Settings, s: State, s': State, k: nat, changed: int)
    requires k < |s.sealLog| && SealLogAt(g, s, k) && Grows(s, s') && s'.sealLog[k] == s.sealLog[k]
    requires forall c :: 0 <= c < |s.calls| && c != changed ==> s'.calls[c] == s.calls[c]
    requires 0 <= changed < |s.calls| ==> !s.calls[changed].phase.Done?
    ensures SealLogAt(g, s', k)
  {
    var x := s.sealLog[k];
    if s.calls[x.call].mode.Enforce? { AllReadStays(g.forms, s.served, s'.served, s.calls[x.call].reader, x.seal.rules.files, x.at); }
  }

  /** Seals stay right while finished calls stay as they are. */
  lemma SealsStay(g: Settings, s: State, s': State, changed: int)
    requires SealsOk(g, s) && Grows(s, s') && s'.sealLog == s.sealLog && s'.seals == s.seals
    requires forall c :: 0 <= c < |s.calls| && c != changed ==> s'.calls[c] == s.calls[c]
    requires 0 <= changed < |s.calls| ==> !s.calls[changed].phase.Done?
    ensures SealsOk(g, s')
  {
    forall k | 0 <= k < |s'.sealLog| ensures SealLogAt(g, s', k) { SealLogStays(g, s, s', k, changed); }
    forall planRef | planRef in s'.seals ensures SealKnown(s'.inherited, s'.sealLog, Some(planRef), s'.seals[planRef], s'.steps) {
      SealStays(s.inherited, s.sealLog, s'.sealLog, Some(planRef), s.seals[planRef], s.steps, s'.steps);
    }
  }

  /** A step that changes one call and none of the logs; the ledger may have been visited. */
  lemma PlainStep(g: Settings, es: seq<Event>, v0: map<string, string>, s: State, s': State, c: int)
    requires Inv(g, es, v0, s) && s.steps < |es| && Grows(s, s') && s'.vault == VaultAt(es, v0, s'.steps)
    requires LedgerOk(s'.ledger, s.served, s.steps) && s'.served == s.served && s'.sealLog == s.sealLog && s'.seals == s.seals
    requires forall b :: 0 <= b < |s.calls| && b != c ==> s'.calls[b] == s.calls[b]
    requires 0 <= c < |s.calls| ==> !s.calls[c].phase.Done? && CallAt(g, es, v0, s', c)
    requires forall b :: |s.calls| <= b < |s'.calls| ==> CallAt(g, es, v0, s', b)
    ensures Inv(g, es, v0, s')
  {
    OthersStay(g, es, v0, s, s', c);
    LedgerStays(s'.ledger, s.served, s'.served, s.steps);
    SealsStay(g, s, s', c);
  }

  /** Looking a reader up may only forget. */
  lemma VisitStays(l: Ledger, served: seq<Served>, steps: nat, reader: string, create: bool, now: int)
    requires LedgerOk(l, served, steps)
    ensures LedgerOk(Visit(l, reader, create, now), served, steps)
  {
    forall key, path, digest ensures HeldIsServed(Visit(l, reader, create, now), served, steps, key, path, digest) {
      assert HeldIsServed(l, served, steps, key, path, digest);
      if Holds(Visit(l, reader, create, now), key, path, digest) { VisitForgets(l, reader, create, now, key, path, digest); }
    }
  }

  /** The state a decision is made in: as it was, with the reader visited. */
  lemma VisitedIs(s: State, reader: string, rules: seq<RuleFile>, now: int)
    requires LedgerOk(s.ledger, s.served, s.steps)
    ensures Visited(s, reader, rules, now) == s.(ledger := Visited(s, reader, rules, now).ledger)
    ensures LedgerOk(Visited(s, reader, rules, now).ledger, s.served, s.steps)
  {
    if rules != [] { VisitStays(s.ledger, s.served, s.steps, reader, false, now); }
  }

  // -------------------------------------------------------------------------
  // Every step keeps it
  // -------------------------------------------------------------------------

  ghost predicate Now(g: Settings, es: seq<Event>, v0: map<string, string>, s: State, e: Event) {
    Inv(g, es, v0, s) && s.steps < |es| && es[s.steps] == e && Enabled(g, s, e)
  }

  lemma VaultChangesKeeps(g: Settings, es: seq<Event>, v0: map<string, string>, s: State, path: string, content: Option<string>)
    requires Now(g, es, v0, s, VaultChanges(path, content))
    ensures Inv(g, es, v0, Step(g, s, VaultChanges(path, content)))
  {
    PlainStep(g, es, v0, s, Step(g, s, VaultChanges(path, content)), -1);
  }

  /** A call that ends without touching anything else. */
  lemma EndKeeps(g: Settings, es: seq<Event>, v0: map<string, string>, s: State, l: Ledger, c: nat, phase: Phase)
    requires Inv(g, es, v0, s) && s.steps < |es| && !es[s.steps].VaultChanges? && LedgerOk(l, s.served, s.steps)
    requires c < |s.calls| && !s.calls[c].phase.Done? && (phase.Refused? || phase.Done?)
    ensures Inv(g, es, v0, Goto(s.(ledger := l), c, phase).(steps := s.steps + 1))
  {
    var s' := Goto(s.(ledger := l), c, phase).(steps := s.steps + 1);
    assert CallAt(g, es, v0, s, c);
    CallStays(g, es, v0, s, s', s.calls[c]);
    PlainStep(g, es, v0, s, s', c);
  }

  lemma StartWriteKeeps(g: Settings, es: seq<Event>, v0: map<string, string>, s: State, role: Role, reader: string, mode: Mode, resolution: WriteResolution, journal: bool)
    requires Now(g, es, v0, s, StartWrite(role, reader, mode, resolution, journal))
    ensures Inv(g, es, v0, Step(g, s, StartWrite(role, reader, mode, resolution, journal)))
  {
    PlainStep(g, es, v0, s, Step(g, s, StartWrite(role, reader, mode, resolution, journal)), -1);
  }

  lemma SealFound(g: Settings, s: State, planRef: Option<string>, now: int)
    requires SealsOk(g, s) && SealOf(g, s, planRef, now).Some?
    ensures var seal := SealOf(g, s, planRef, now).value;
            SealKnown(s.inherited, s.sealLog, planRef, seal, s.steps) && SealOrdered(g.forms, seal)
  {
    var seal := SealOf(g, s, planRef, now).value;
    if !SealInherited(s.inherited, planRef.value, seal) { LoggedIsOrdered(g, s, planRef.value, seal); }
  }

  lemma LoggedIsOrdered(g: Settings, s: State, planRef: string, seal: Seal)
    requires SealsOk(g, s) && SealLogged(s.sealLog, planRef, seal, s.steps)
    ensures SealOrdered(g.forms, seal)
  {
    var k :| 0 <= k < |s.sealLog| && s.sealLog[k].planRef == planRef && s.sealLog[k].seal == seal && s.sealLog[k].at < s.steps;
    assert SealLogAt(g, s, k);
  }

  lemma StartApplyKeeps(g: Settings, es: seq<Event>, v0: map<string, string>, s: State, family: string, planRef: Option<string>, reader: string, mode: Mode, journal: bool, now: int)
    requires Now(g, es, v0, s, StartApply(family, planRef, reader, mode, journal, now))
    ensures Inv(g, es, v0, Step(g, s, StartApply(family, planRef, reader, mode, journal, now)))
  {
    var s' := DoStartApply(g, s, family, planRef, reader, mode, journal, now);
    ApplyAdds(g, s, family, planRef, reader, mode, journal, now);
    NewApplyOk(g, es, v0, s, family, planRef, reader, mode, journal, now);
    AddedKeeps(g, es, v0, s, s'.(steps := s.steps + 1));
  }

  /** Only a call is added. */
  lemma ApplyAdds(g: Settings, s: State, family: string, planRef: Option<string>, reader: string, mode: Mode, journal: bool, now: int)
    ensures var s' := DoStartApply(g, s, family, planRef, reader, mode, journal, now);
            |s'.calls| == |s.calls| + 1 && s' == s.(calls := s.calls + [s'.calls[|s.calls|]])
  {
  }

  lemma AddedKeeps(g: Settings, es: seq<Event>, v0: map<string, string>, s: State, s': State)
    requires Inv(g, es, v0, s) && s.steps < |es| && !es[s.steps].VaultChanges? && |s'.calls| == |s.calls| + 1
    requires s' == s.(calls := s.calls + [s'.calls[|s.calls|]], steps := s.steps + 1) && CallAt(g, es, v0, s', |s.calls|)
    ensures Inv(g, es, v0, s')
  {
    PlainStep(g, es, v0, s, s', -1);
  }

  lemma NewApplyOk(g: Settings, es: seq<Event>, v0: map<string, string>, s: State, family: string, planRef: Option<string>, reader: string, mode: Mode, journal: bool, now: int)
    requires s.steps < |es| && SealsOk(g, s) && es[s.steps] == StartApply(family, planRef, reader, mode, journal, now)
    ensures var s' := DoStartApply(g, s, family, planRef, reader, mode, journal, now).(steps := s.steps + 1);
            |s'.calls| == |s.calls| + 1 && CallAt(g, es, v0, s', |s.calls|)
  {
    var s' := DoStartApply(g, s, family, planRef, reader, mode, journal, now).(steps := s.steps + 1);
    if UsesSeal(g, s, family, planRef, journal, now) {
      SealedCall(g, s, family, planRef, reader, mode, journal, now);
      SealedOk(g, es, v0, s, s', s'.calls[|s.calls|], now);
    } else {
      UnsealedCall(g, s, family, planRef, reader, mode, journal, now);
      FreshOk(g, es, v0, s', s'.calls[|s.calls|]);
    }
  }

  predicate UsesSeal(g: Settings, s: State, family: string, planRef: Option<string>, journal: bool, now: int) {
    journal && SealOf(g, s, planRef, now).Some? && SealOf(g, s, planRef, now).value.family == family
  }

  /** A call that was answered at once: refused, or run unchecked because it is only advised. */
  predicate Fresh(call: Call, began: nat) {
    && call.began == began && call.contents == map[] && call.probed == map[] && (call.mode.Enforce? ==> call.ran.None?)
    && (call.phase.Refused? || (call.phase.InTool? && !call.phase.mayBeSealed))
  }

  /** An apply that begins to check the rules of its seal. */
  predicate Checking(g: Settings, s: State, call: Call, now: int) {
    && call.began == s.steps && call.contents == map[] && call.probed == map[] && call.ran.None? && call.role.Apply?
    && UsesSeal(g, s, call.role.family, call.role.planRef, true, now)
    && var seal := SealOf(g, s, call.role.planRef, now); call.phase == Evaluating(seal.value.targets, true, seal)
  }

  lemma UnsealedCall(g: Settings, s: State, family: string, planRef: Option<string>, reader: string, mode: Mode, journal: bool, now: int)
    requires !UsesSeal(g, s, family, planRef, journal, now)
    ensures var s' := DoStartApply(g, s, family, planRef, reader, mode, journal, now); |s'.calls| == |s.calls| + 1 && Fresh(s'.calls[|s.calls|], s.steps)
  {
  }

  lemma SealedCall(g: Settings, s: State, family: string, planRef: Option<string>, reader: string, mode: Mode, journal: bool, now: int)
    requires UsesSeal(g, s, family, planRef, journal, now)
    ensures var s' := DoStartApply(g, s, family, planRef, reader, mode, journal, now); |s'.calls| == |s.calls| + 1 && Checking(g, s, s'.calls[|s.calls|], now)
    ensures DoStartApply(g, s, family, planRef, reader, mode, journal, now).sealLog == s.sealLog && DoStartApply(g, s, family, planRef, reader, mode, journal, now).inherited == s.inherited
  {
  }

  lemma FreshOk(g: Settings, es: seq<Event>, v0: map<string, string>, s: State, call: Call)
    requires 0 < s.steps <= |es| && Fresh(call, s.steps - 1)
    ensures CallOk(g, es, v0, s, call)
  {
  }

  lemma SealedOk(g: Settings, es: seq<Event>, v0: map<string, string>, s: State, s': State, call: Call, now: int)
    requires s.steps < |es| && s'.steps == s.steps + 1 && SealsOk(g, s) && Checking(g, s, call, now)
    requires es[s.steps].StartApply? && es[s.steps].now == now
    requires s'.sealLog == s.sealLog && s'.inherited == s.inherited
    ensures CallOk(g, es, v0, s', call)
  {
    SealFound(g, s, call.role.planRef, now);
    SealStays(s.inherited, s.sealLog, s.sealLog, call.role.planRef, call.phase.seal.value, s.steps, s.steps + 1);
  }

  lemma StartReadKeeps(g: Settings, es: seq<Event>, v0: map<string, string>, s: State, path: string, reader: string, mode: Mode)
    requires Now(g, es, v0, s, StartRead(path, reader, mode))
    ensures Inv(g, es, v0, Step(g, s, StartRead(path, reader, mode)))
  {
    PlainStep(g, es, v0, s, Step(g, s, StartRead(path, reader, mode)), -1);
  }

  lemma ProbeKeeps(g: Settings, es: seq<Event>, v0: map<string, string>, s: State, c: nat, path: string)
    requires Now(g, es, v0, s, Probe(c, path))
    ensures Inv(g, es, v0, Step(g, s, Probe(c, path)))
  {
    var s' := Step(g, s, Probe(c, path));
    assert CallAt(g, es, v0, s, c);
    CallStays(g, es, v0, s, s', s.calls[c]);
    PlainStep(g, es, v0, s, s', c);
  }

  lemma UnverifiedKeeps(g: Settings, es: seq<Event>, v0: map<string, string>, s: State, c: nat)
    requires Inv(g, es, v0, s) && s.steps < |es| && !es[s.steps].VaultChanges? && c < |s.calls| && !s.calls[c].phase.Done?
    ensures Inv(g, es, v0, Unverified(s, c).(steps := s.steps + 1))
  {
    if s.calls[c].mode.Enforce? {
      EndKeeps(g, es, v0, s, s.ledger, c, Refused(Unavailable));
    } else {
      var s' := Unverified(s, c).(steps := s.steps + 1);
      assert CallAt(g, es, v0, s, c);
      CallStays(g, es, v0, s, s', s.calls[c]);
      PlainStep(g, es, v0, s, s', c);
    }
  }

  lemma ProbeFailsKeeps(g: Settings, es: seq<Event>, v0: map<string, string>, s: State, c: nat)
    requires Now(g, es, v0, s, ProbeFails(c))
    ensures Inv(g, es, v0, Step(g, s, ProbeFails(c)))
  {
    match s.calls[c].phase
    case Proving(_, _) => EndKeeps(g, es, v0, s, s.ledger, c, Done);
    case Reevaluating(_, _) => EndKeeps(g, es, v0, s, s.ledger, c, if s.calls[c].mode.Enforce? then Refused(Unavailable) else Done);
    case Evaluating(_, _, _) => UnverifiedKeeps(g, es, v0, s, c);
  }

  /** A file the ledger calls read was served before. */
  lemma ReadIsLogged(f: Forms, l: Ledger, served: seq<Served>, steps: nat, reader: string, file: RuleFile)
    requires LedgerOk(l, served, steps) && ReadBy(f, l, reader, file)
    ensures ReadLogged(f, served, reader, file, steps)
  {
    var i :| 0 <= i < |Aliases(f, file.path)| && ProofOf(l, reader, Aliases(f, file.path)[i]) == Some(file.digest);
    var path := Aliases(f, file.path)[i];
    HeldBy(l, Find(l.readers, reader).value, reader, path, file.digest);
    assert HeldIsServed(l, served, steps, reader, path, file.digest);
  }

  lemma AllReadIsLogged(f: Forms, l: Ledger, served: seq<Served>, steps: nat, reader: string, rules: seq<RuleFile>)
    requires LedgerOk(l, served, steps) && AllRead(f, l, reader, rules)
    ensures AllLogged(f, served, reader, rules, steps)
  {
    forall i | 0 <= i < |rules| ensures ReadLogged(f, served, reader, rules[i], steps) { ReadIsLogged(f, l, served, steps, reader, rules[i]); }
  }

  lemma ChainsDistinct(f: Forms, names: seq<string>, targets: seq<Target>)
    ensures Distinct(Chains(f, names, targets))
  {
    UniqueItems(FlatMap(targets, target => Chain(f, names, target)));
  }

  lemma RulesNowInOrder(g: Settings, call: Call)
    requires call.phase.Evaluating? || call.phase.Reevaluating?
    ensures InOrder(g.forms, g.names, RulesNow(g, call))
  {
    ChainsDistinct(g.forms, g.names, call.phase.targets);
    RulesInOrder(g.forms, g.names, call.contents, Chains(g.forms, g.names, call.phase.targets));
  }

  /** The call of a decision reaches its tool with what it has evaluated. */
  lemma RunKeeps(g: Settings, es: seq<Event>, v0: map<string, string>, s: State, l: Ledger, c: nat, mayBeSealed: bool)
    requires ReadyToDecide(g, es, v0, s, c) && LedgerOk(l, s.served, s.steps)
    requires s.calls[c].mode.Enforce? ==>
               && AllRead(g.forms, l, s.calls[c].reader, RulesNow(g, s.calls[c]))
               && (s.calls[c].phase.seal.Some? ==> DigestNow(g, s.calls[c]) == s.calls[c].phase.seal.value.rules)
    ensures var call := s.calls[c];
            Inv(g, es, v0, Run(s.(ledger := l), c, call.phase.targets, RulesNow(g, call), mayBeSealed, call.phase.seal).(steps := s.steps + 1))
  {
    var call := s.calls[c];
    var s' := Run(s.(ledger := l), c, call.phase.targets, RulesNow(g, call), mayBeSealed, call.phase.seal).(steps := s.steps + 1);
    RunCallOk(g, es, v0, s, s', l, c, mayBeSealed);
    PlainStep(g, es, v0, s, s', c);
  }

  lemma RunCallOk(g: Settings, es: seq<Event>, v0: map<string, string>, s: State, s': State, l: Ledger, c: nat, mayBeSealed: bool)
    requires ReadyToDecide(g, es, v0, s, c) && LedgerOk(l, s.served, s.steps)
    requires s.calls[c].mode.Enforce? ==>
               && AllRead(g.forms, l, s.calls[c].reader, RulesNow(g, s.calls[c]))
               && (s.calls[c].phase.seal.Some? ==> DigestNow(g, s.calls[c]) == s.calls[c].phase.seal.value.rules)
    requires var call := s.calls[c];
             s' == Run(s.(ledger := l), c, call.phase.targets, RulesNow(g, call), mayBeSealed, call.phase.seal).(steps := s.steps + 1)
    ensures CallAt(g, es, v0, s', c)
  {
    var call := s.calls[c];
    assert CallAt(g, es, v0, s, c);
    RulesNowInOrder(g, call);
    if call.mode.Enforce? {
      AllReadIsLogged(g.forms, l, s.served, s.steps, call.reader, RulesNow(g, call));
      RanNow(g, es, v0, s, s', c);
    }
  }

  ghost predicate ReadyToDecide(g: Settings, es: seq<Event>, v0: map<string, string>, s: State, c: nat) {
    && Inv(g, es, v0, s) && s.steps < |es| && !es[s.steps].VaultChanges?
    && c < |s.calls| && s.calls[c].phase.Evaluating? && AllProbed(g, s.calls[c].phase.targets, s.calls[c].contents)
  }

  lemma RanNow(g: Settings, es: seq<Event>, v0: map<string, string>, s: State, s': State, c: nat)
    requires s.steps < |es| && Grows(s, s') && c < |s.calls| && CallOk(g, es, v0, s, s.calls[c]) && s.calls[c].phase.Evaluating?
    requires s'.calls[c].role == s.calls[c].role && s'.calls[c].reader == s.calls[c].reader && s'.calls[c].began == s.calls[c].began
    requires s'.served == s.served && s'.sealLog == s.sealLog
    requires AllProbed(g, s.calls[c].phase.targets, s.calls[c].contents) && AllLogged(g.forms, s.served, s.calls[c].reader, RulesNow(g, s.calls[c]), s.steps)
    requires s.calls[c].phase.seal.Some? ==> DigestNow(g, s.calls[c]) == s.calls[c].phase.seal.value.rules
    ensures var call := s.calls[c];
            RanOk(g, es, v0, s', s'.calls[c], Ran(s.steps, call.phase.targets, RulesNow(g, call), call.contents, call.probed, call.phase.seal))
  {
  }

  lemma DecideReadKeeps(g: Settings, es: seq<Event>, v0: map<string, string>, s: State, l: Ledger, c: nat)
    requires ReadyToDecide(g, es, v0, s, c) && LedgerOk(l, s.served, s.steps)
    requires s.calls[c].phase.seal.Some? ==> DigestNow(g, s.calls[c]) == s.calls[c].phase.seal.value.rules
    ensures Inv(g, es, v0, DecideRead(g, s.(ledger := l), c).(steps := s.steps + 1))
  {
    var call := s.calls[c];
    if call.mode.Enforce? && !AllRead(g.forms, l, call.reader, RulesNow(g, call)) {
      EndKeeps(g, es, v0, s, l, c, Refused(Unread));
    } else {
      RunKeeps(g, es, v0, s, l, c, call.role.Plan? && call.phase.resolved);
    }
  }

  lemma DecideChangedKeeps(g: Settings, es: seq<Event>, v0: map<string, string>, s: State, c: nat)
    requires ReadyToDecide(g, es, v0, s, c)
    ensures Inv(g, es, v0, DecideChanged(g, s, c).(steps := s.steps + 1))
  {
    if s.calls[c].mode.Enforce? {
      EndKeeps(g, es, v0, s, s.ledger, c, Refused(ChangedSincePlan));
    } else {
      RunKeeps(g, es, v0, s, s.ledger, c, false);
    }
  }

  lemma DecideKeeps(g: Settings, es: seq<Event>, v0: map<string, string>, s: State, c: nat, now: int)
    requires ReadyToDecide(g, es, v0, s, c)
    ensures Inv(g, es, v0, Decide(g, s, c, now).(steps := s.steps + 1))
  {
    var call := s.calls[c];
    if call.phase.seal.Some? && DigestNow(g, call) != call.phase.seal.value.rules {
      DecideChangedKeeps(g, es, v0, s, c);
    } else {
      VisitedIs(s, call.reader, RulesNow(g, call), now);
      DecideReadKeeps(g, es, v0, s, Visited(s, call.reader, RulesNow(g, call), now).ledger, c);
    }
  }

  /** What may be sealed: rules as evaluated, and under enforcement all read. */
  predicate SealsRead(g: Settings, s: State, c: nat, targets: seq<Target>, rules: seq<RuleFile>)
    requires c < |s.calls|
  {
    Evaluated(g, s.calls[c], targets, rules) && (s.calls[c].mode.Enforce? ==> AllLogged(g.forms, s.served, s.calls[c].reader, rules, s.steps))
  }

  /** One call writes a seal and ends. */
  ghost predicate WritesSeal(g: Settings, s: State, s': State, c: nat, planRef: string, seal: Seal) {
    && Grows(s, s') && c < |s.calls| && !s.calls[c].phase.Done? && |s'.calls| == |s.calls|
    && s'.sealLog == s.sealLog + [SealLog(planRef, seal, c, s.steps)] && s'.seals == s.seals[planRef := seal] && s'.served == s.served
    && (forall b :: 0 <= b < |s.calls| && b != c ==> s'.calls[b] == s.calls[b])
    && s'.calls[c].role == Plan(seal.family) && s'.calls[c].phase.Done? && RevealedIn(s'.calls[c].role, s'.calls[c].outcome, seal.targets)
    && s'.calls[c].contents == s.calls[c].contents && s'.calls[c].mode == s.calls[c].mode && s'.calls[c].reader == s.calls[c].reader
    && SealOrdered(g.forms, seal) && seal.rules == RulesDigest(g.vaultId, g.names, seal.rules.files)
    && SealsRead(g, s, c, seal.targets, seal.rules.files)
  }

  /** A seal is written over targets that cover what the plan revealed. */
  lemma WriteSealKeeps(g: Settings, es: seq<Event>, v0: map<string, string>, s: State, l: Ledger, c: nat, outcome: Option<ToolOutcome>,
                       planRef: Option<string>, targets: seq<Target>, rules: seq<RuleFile>, persisted: bool, now: int)
    requires Inv(g, es, v0, s) && s.steps < |es| && !es[s.steps].VaultChanges? && c < |s.calls| && !s.calls[c].phase.Done?
    requires s.calls[c].role.Plan? && RevealedIn(s.calls[c].role, outcome, targets) && InOrder(g.forms, g.names, rules)
    requires LedgerOk(l, s.served, s.steps) && SealsRead(g, s, c, targets, rules)
    ensures Inv(g, es, v0, WriteSeal(g, SetCall(s.(ledger := l), c, s.calls[c].(outcome := outcome)), c, planRef, targets, rules, persisted, now)
                             .(steps := s.steps + 1))
  {
    if planRef.None? || !persisted {
      UnsealedKeeps(g, es, v0, s, l, c, outcome);
    } else {
      NewSealKeeps(g, es, v0, s, l, c, outcome, planRef.value, Seal(s.calls[c].role.family, targets, RulesDigest(g.vaultId, g.names, rules), now));
    }
  }

  lemma UnsealedKeeps(g: Settings, es: seq<Event>, v0: map<string, string>, s: State, l: Ledger, c: nat, outcome: Option<ToolOutcome>)
    requires Inv(g, es, v0, s) && s.steps < |es| && !es[s.steps].VaultChanges? && c < |s.calls| && !s.calls[c].phase.Done?
    requires LedgerOk(l, s.served, s.steps)
    ensures Inv(g, es, v0, Goto(SetCall(s.(ledger := l), c, s.calls[c].(outcome := outcome)), c, Done).(steps := s.steps + 1))
  {
    var s' := Goto(SetCall(s.(ledger := l), c, s.calls[c].(outcome := outcome)), c, Done).(steps := s.steps + 1);
    assert CallAt(g, es, v0, s, c);
    CallStays(g, es, v0, s, s', s.calls[c]);
    PlainStep(g, es, v0, s, s', c);
  }

  lemma NewSealKeeps(g: Settings, es: seq<Event>, v0: map<string, string>, s: State, l: Ledger, c: nat, outcome: Option<ToolOutcome>, planRef: string, seal: Seal)
    requires Inv(g, es, v0, s) && s.steps < |es| && !es[s.steps].VaultChanges? && c < |s.calls| && !s.calls[c].phase.Done?
    requires s.calls[c].role == Plan(seal.family) && RevealedIn(s.calls[c].role, outcome, seal.targets) && SealOrdered(g.forms, seal)
    requires LedgerOk(l, s.served, s.steps) && SealsRead(g, s, c, seal.targets, seal.rules.files) && seal.rules == RulesDigest(g.vaultId, g.names, seal.rules.files)
    ensures Inv(g, es, v0, Goto(SetCall(s.(ledger := l), c, s.calls[c].(outcome := outcome)), c, Done)
                             .(seals := s.seals[planRef := seal], sealLog := s.sealLog + [SealLog(planRef, seal, c, s.steps)], steps := s.steps + 1))
  {
    var s' := Goto(SetCall(s.(ledger := l), c, s.calls[c].(outcome := outcome)), c, Done)
              .(seals := s.seals[planRef := seal], sealLog := s.sealLog + [SealLog(planRef, seal, c, s.steps)], steps := s.steps + 1);
    SealedCallOk(g, es, v0, s, s', c);
    SealedKeeps(g, es, v0, s, s', c, planRef, seal);
  }

  lemma SealedCallOk(g: Settings, es: seq<Event>, v0: map<string, string>, s: State, s': State, c: nat)
    requires s.steps < |es| && Grows(s, s') && CallsOk(g, es, v0, s) && c < |s.calls| && c < |s'.calls|
    requires s'.calls[c] == s.calls[c].(phase := Done, outcome := s'.calls[c].outcome)
    ensures CallAt(g, es, v0, s', c)
  {
    assert CallAt(g, es, v0, s, c);
    CallStays(g, es, v0, s, s', s.calls[c]);
  }

  lemma SealedKeeps(g: Settings, es: seq<Event>, v0: map<string, string>, s: State, s': State, c: nat, planRef: string, seal: Seal)
    requires Inv(g, es, v0, s) && s.steps < |es| && !es[s.steps].VaultChanges? && s'.vault == s.vault && WritesSeal(g, s, s', c, planRef, seal)
    requires CallAt(g, es, v0, s', c) && LedgerOk(s'.ledger, s.served, s.steps)
    ensures Inv(g, es, v0, s')
  {
    CallsStay(g, es, v0, s, s', c);
    LedgerStays(s'.ledger, s.served, s'.served, s.steps);
    NewSeal(g, s, s', c, planRef, seal);
  }

  lemma CallsStay(g: Settings, es: seq<Event>, v0: map<string, string>, s: State, s': State, c: nat)
    requires s.steps < |es| && Grows(s, s') && CallsOk(g, es, v0, s) && |s'.calls| == |s.calls| && c < |s.calls| && CallAt(g, es, v0, s', c)
    requires forall b :: 0 <= b < |s.calls| && b != c ==> s'.calls[b] == s.calls[b]
    ensures CallsOk(g, es, v0, s')
  {
    OthersStay(g, es, v0, s, s', c);
  }

  lemma NewSeal(g: Settings, s: State, s': State, c: nat, planRef: string, seal: Seal)
    requires SealsOk(g, s) && WritesSeal(g, s, s', c, planRef, seal)
    ensures SealsOk(g, s')
  {
    forall k | 0 <= k < |s'.sealLog| ensures SealLogAt(g, s', k) {
      if k < |s.sealLog| { SealLogStays(g, s, s', k, c); }
    }
    forall ref | ref in s'.seals ensures SealKnown(s'.inherited, s'.sealLog, Some(ref), s'.seals[ref], s'.steps) {
      if ref == planRef { assert s'.sealLog[|s.sealLog|].seal == seal; }
      else { SealStays(s.inherited, s.sealLog, s'.sealLog, Some(ref), s.seals[ref], s.steps, s'.steps); }
    }
  }

  lemma DecideRevealedKeeps(g: Settings, es: seq<Event>, v0: map<string, string>, s: State, l: Ledger, c: nat, persisted: bool, now: int)
    requires Inv(g, es, v0, s) && s.steps < |es| && !es[s.steps].VaultChanges? && LedgerOk(l, s.served, s.steps)
    requires c < |s.calls| && s.calls[c].phase.Reevaluating? && s.calls[c].role.Plan? && AllProbed(g, s.calls[c].phase.targets, s.calls[c].contents)
    ensures Inv(g, es, v0, DecideRevealed(g, s.(ledger := l), c, persisted, now).(steps := s.steps + 1))
  {
    var call := s.calls[c];
    assert CallAt(g, es, v0, s, c);
    if call.mode.Enforce? && !AllRead(g.forms, l, call.reader, RulesNow(g, call)) {
      EndKeeps(g, es, v0, s, l, c, Refused(Unread));
    } else {
      RulesNowInOrder(g, call);
      if call.mode.Enforce? { AllReadIsLogged(g.forms, l, s.served, s.steps, call.reader, RulesNow(g, call)); }
      assert SetCall(s.(ledger := l), c, call.(outcome := call.outcome)) == s.(ledger := l);
      WriteSealKeeps(g, es, v0, s, l, c, call.outcome, call.phase.planRef, call.phase.targets, RulesNow(g, call), persisted, now);
    }
  }

  ghost predicate LogsOk(es: seq<Event>, v0: map<string, string>, s: State) {
    s.steps <= |es| && AllServedOk(es, v0, s) && LedgerOk(s.ledger, s.served, s.steps)
  }

  /** Recorded proofs are of contents the vault held when probed. */
  lemma {:induction false} RecordProofsKeeps(es: seq<Event>, v0: map<string, string>, s: State, call: Call, candidates: seq<string>, served: string, now: int)
    requires s.steps < |es| && LogsOk(es, v0, s) && Probed(es, v0, call.contents, call.probed, call.began, s.steps)
    ensures var r := RecordProofs(s, call, candidates, served, now); s.served <= r.served && LogsOk(es, v0, r.(steps := s.steps + 1))
  {
    if candidates == [] {
      LedgerStays(s.ledger, s.served, s.served, s.steps);
    } else {
      RecordProofsKeeps(es, v0, s, call, candidates[..|candidates| - 1], served, now);
      OneProofKeeps(es, v0, RecordProofs(s, call, candidates[..|candidates| - 1], served, now), call, candidates[|candidates| - 1], served, now);
    }
  }

  lemma OneProofKeeps(es: seq<Event>, v0: map<string, string>, s: State, call: Call, path: string, served: string, now: int)
    requires s.steps < |es| && LogsOk(es, v0, s.(steps := s.steps + 1))
    requires Probed(es, v0, call.contents, call.probed, call.began, s.steps)
    ensures var r := RecordProof(s, call, path, served, now); s.served <= r.served && LogsOk(es, v0, r.(steps := s.steps + 1))
  {
    if path in call.probed && Present(call.contents, path) && DigestOf(call.contents, path) == Normalized(served) {
      var x := Served(call.reader, path, Normalized(served), served, call.probed[path], s.steps);
      ProbedIsServed(es, v0, call, path, served, s.steps);
      OneProofLedger(s.ledger, s.served, x, s.steps + 1, now);
      OneMoreServed(es, v0, s, RecordProof(s, call, path, served, now), x);
    }
  }

  lemma ProbedIsServed(es: seq<Event>, v0: map<string, string>, call: Call, path: string, served: string, at: nat)
    requires at < |es| && Probed(es, v0, call.contents, call.probed, call.began, at)
    requires path in call.probed && Present(call.contents, path) && DigestOf(call.contents, path) == Normalized(served)
    ensures ServedOk(es, v0, Served(call.reader, path, Normalized(served), served, call.probed[path], at), at + 1)
  {
  }

  lemma OneMoreServed(es: seq<Event>, v0: map<string, string>, s: State, r: State, x: Served)
    requires s.steps < |es| && AllServedOk(es, v0, s.(steps := s.steps + 1)) && ServedOk(es, v0, x, s.steps + 1)
    requires r.served == s.served + [x] && r.steps == s.steps
    ensures AllServedOk(es, v0, r.(steps := s.steps + 1))
  {
  }

  lemma OneProofLedger(l: Ledger, served: seq<Served>, x: Served, steps: nat, now: int)
    requires LedgerOk(l, served, steps) && x.at < steps
    ensures LedgerOk(Record(l, x.reader, x.path, x.digest, now), served + [x], steps)
  {
    var r, log := Record(l, x.reader, x.path, x.digest, now), served + [x];
    forall key, p, d ensures HeldIsServed(r, log, steps, key, p, d) {
      if Holds(r, key, p, d) {
        RecordAddsOne(l, x.reader, x.path, x.digest, now, key, p, d);
        if key == x.reader && p == x.path && d == x.digest {
          assert log[|served|] == x;
        } else {
          assert HeldIsServed(l, served, steps, key, p, d);
          LoggedStays(served, log, key, p, d, steps, steps);
        }
      }
    }
  }

  lemma ProvingKeeps(g: Settings, es: seq<Event>, v0: map<string, string>, s: State, c: nat, now: int)
    requires Inv(g, es, v0, s) && s.steps < |es| && !es[s.steps].VaultChanges?
    requires c < |s.calls| && s.calls[c].phase.Proving?
    ensures Inv(g, es, v0, Goto(RecordProofs(s, s.calls[c], s.calls[c].phase.candidates, s.calls[c].phase.served, now), c, Done).(steps := s.steps + 1))
  {
    var call := s.calls[c];
    assert CallAt(g, es, v0, s, c);
    RecordProofsKeeps(es, v0, s, call, call.phase.candidates, call.phase.served, now);
    var r := RecordProofs(s, call, call.phase.candidates, call.phase.served, now);
    var s' := Goto(r, c, Done).(steps := s.steps + 1);
    CallStays(g, es, v0, s, s', call);
    OthersStay(g, es, v0, s, s', c);
    SealsStay(g, s, s', c);
  }

  lemma RevealedConcludeKeeps(g: Settings, es: seq<Event>, v0: map<string, string>, s: State, c: nat, persisted: bool, now: int)
    requires Inv(g, es, v0, s) && s.steps < |es| && !es[s.steps].VaultChanges?
    requires c < |s.calls| && s.calls[c].phase.Reevaluating? && s.calls[c].role.Plan? && AllProbed(g, s.calls[c].phase.targets, s.calls[c].contents)
    ensures Inv(g, es, v0, DecideRevealed(g, Visited(s, s.calls[c].reader, RulesNow(g, s.calls[c]), now), c, persisted, now).(steps := s.steps + 1))
  {
    VisitedIs(s, s.calls[c].reader, RulesNow(g, s.calls[c]), now);
    DecideRevealedKeeps(g, es, v0, s, Visited(s, s.calls[c].reader, RulesNow(g, s.calls[c]), now).ledger, c, persisted, now);
  }

  lemma ConcludeEvaluating(g: Settings, es: seq<Event>, v0: map<string, string>, s: State, c: nat, persisted: bool, now: int)
    requires Now(g, es, v0, s, Conclude(c, persisted, now)) && s.calls[c].phase.Evaluating?
    ensures Inv(g, es, v0, Step(g, s, Conclude(c, persisted, now)))
  {
    assert ReadyToDecide(g, es, v0, s, c);
    DecideKeeps(g, es, v0, s, c, now);
    assert Step(g, s, Conclude(c, persisted, now)) == Decide(g, s, c, now).(steps := s.steps + 1);
  }

  lemma ConcludeProving(g: Settings, es: seq<Event>, v0: map<string, string>, s: State, c: nat, persisted: bool, now: int)
    requires Now(g, es, v0, s, Conclude(c, persisted, now)) && s.calls[c].phase.Proving?
    ensures Inv(g, es, v0, Step(g, s, Conclude(c, persisted, now)))
  {
    ProvingKeeps(g, es, v0, s, c, now);
  }

  lemma ConcludeRevealed(g: Settings, es: seq<Event>, v0: map<string, string>, s: State, c: nat, persisted: bool, now: int)
    requires Now(g, es, v0, s, Conclude(c, persisted, now)) && s.calls[c].phase.Reevaluating?
    ensures Inv(g, es, v0, Step(g, s, Conclude(c, persisted, now)))
  {
    assert CallAt(g, es, v0, s, c);
    RevealedConcludeKeeps(g, es, v0, s, c, persisted, now);
    RevealedStep(g, s, c, persisted, now);
  }

  lemma RevealedStep(g: Settings, s: State, c: nat, persisted: bool, now: int)
    requires Enabled(g, s, Conclude(c, persisted, now)) && s.calls[c].phase.Reevaluating? && s.calls[c].role.Plan?
    ensures Step(g, s, Conclude(c, persisted, now))
         == DecideRevealed(g, Visited(s, s.calls[c].reader, RulesNow(g, s.calls[c]), now), c, persisted, now).(steps := s.steps + 1)
  {
  }

  lemma ConcludeKeeps(g: Settings, es: seq<Event>, v0: map<string, string>, s: State, c: nat, persisted: bool, now: int)
    requires Now(g, es, v0, s, Conclude(c, persisted, now))
    ensures Inv(g, es, v0, Step(g, s, Conclude(c, persisted, now)))
  {
    if s.calls[c].phase.Evaluating? {
      ConcludeEvaluating(g, es, v0, s, c, persisted, now);
    } else if s.calls[c].phase.Reevaluating? {
      ConcludeRevealed(g, es, v0, s, c, persisted, now);
    } else {
      ConcludeProving(g, es, v0, s, c, persisted, now);
    }
  }

  lemma {:induction false} NewTargetsCover(known: seq<Target>, revealed: seq<Target>, i: nat)
    requires i < |revealed|
    ensures KnownPath(known, revealed[i].path) || revealed[i] in NewTargets(known, revealed)
  {
    if i < |revealed| - 1 {
      assert revealed[..|revealed| - 1][i] == revealed[i];
      NewTargetsCover(known, revealed[..|revealed| - 1], i);
    }
  }

  lemma {:induction false} UniqueTargetsCover(targets: seq<Target>, x: Target)
    requires x in targets
    ensures x in UniqueTargets(targets)
  {
    var before, last := targets[..|targets| - 1], targets[|targets| - 1];
    assert targets == before + [last];
    if x in before { UniqueTargetsCover(before, x); }
  }

  /** The targets evaluated again, or known from the start, include every path revealed. */
  lemma AllRevealed(targets: seq<Target>, revealed: seq<Target>, i: nat)
    requires i < |revealed|
    ensures var extra := NewTargets(targets, revealed);
            KnownPath(if extra == [] then targets else UniqueTargets(targets + extra), revealed[i].path)
  {
    var extra := NewTargets(targets, revealed);
    NewTargetsCover(targets, revealed, i);
    if extra != [] {
      var x: Target;
      if KnownPath(targets, revealed[i].path) {
        var k :| 0 <= k < |targets| && targets[k].path == revealed[i].path;
        x := targets[k];
      } else {
        x := revealed[i];
      }
      UniqueTargetsCover(targets + extra, x);
      var j :| 0 <= j < |UniqueTargets(targets + extra)| && UniqueTargets(targets + extra)[j] == x;
    }
  }

  lemma RevealedCovered(role: Role, outcome: ToolOutcome, targets: seq<Target>)
    requires role.Plan? && Revealed(role.family, outcome).Some?
    ensures var extra := NewTargets(targets, Revealed(role.family, outcome).value);
            RevealedIn(role, Some(outcome), if extra == [] then targets else UniqueTargets(targets + extra))
  {
    var revealed := Revealed(role.family, outcome).value;
    var extra := NewTargets(targets, revealed);
    forall i | 0 <= i < |revealed| ensures KnownPath(if extra == [] then targets else UniqueTargets(targets + extra), revealed[i].path) {
      AllRevealed(targets, revealed, i);
    }
  }

  lemma ReturnEnds(g: Settings, es: seq<Event>, v0: map<string, string>, s: State, c: nat, outcome: ToolOutcome, phase: Phase)
    requires Inv(g, es, v0, s) && s.steps < |es| && !es[s.steps].VaultChanges? && c < |s.calls| && s.calls[c].phase.InTool?
    requires phase.Refused? || phase.Done?
    ensures Inv(g, es, v0, Goto(SetCall(s, c, s.calls[c].(outcome := Some(outcome))), c, phase).(steps := s.steps + 1))
  {
    var s' := Goto(SetCall(s, c, s.calls[c].(outcome := Some(outcome))), c, phase).(steps := s.steps + 1);
    assert CallAt(g, es, v0, s, c);
    CallStays(g, es, v0, s, s', s.calls[c]);
    PlainStep(g, es, v0, s, s', c);
  }

  lemma ReturnEvaluatesAgain(g: Settings, es: seq<Event>, v0: map<string, string>, s: State, c: nat, outcome: ToolOutcome, targets: seq<Target>)
    requires Inv(g, es, v0, s) && s.steps < |es| && !es[s.steps].VaultChanges? && c < |s.calls| && s.calls[c].phase.InTool?
    requires RevealedIn(s.calls[c].role, Some(outcome), targets)
    ensures Inv(g, es, v0, SetCall(s, c, s.calls[c].(outcome := Some(outcome), phase := Reevaluating(targets, outcome.planRef),
                                                     contents := map[], probed := map[])).(steps := s.steps + 1))
  {
    var s' := SetCall(s, c, s.calls[c].(outcome := Some(outcome), phase := Reevaluating(targets, outcome.planRef),
                                        contents := map[], probed := map[])).(steps := s.steps + 1);
    assert CallAt(g, es, v0, s, c);
    CallStays(g, es, v0, s, s', s.calls[c]);
    PlainStep(g, es, v0, s, s', c);
  }

  lemma PlanReturnsKeeps(g: Settings, es: seq<Event>, v0: map<string, string>, s: State, c: nat, outcome: ToolOutcome, persisted: bool, now: int)
    requires Inv(g, es, v0, s) && s.steps < |es| && !es[s.steps].VaultChanges?
    requires c < |s.calls| && s.calls[c].phase.InTool? && s.calls[c].role.Plan? && !outcome.isError && s.calls[c].phase.mayBeSealed
    requires Revealed(s.calls[c].role.family, outcome).Some?
    ensures Inv(g, es, v0, DoToolReturns(g, s, c, outcome, persisted, now).(steps := s.steps + 1))
  {
    var call := s.calls[c];
    assert CallAt(g, es, v0, s, c);
    var extra := NewTargets(call.phase.targets, Revealed(call.role.family, outcome).value);
    RevealedCovered(call.role, outcome, call.phase.targets);
    if extra == [] {
      WriteSealKeeps(g, es, v0, s, s.ledger, c, Some(outcome), outcome.planRef, call.phase.targets, call.phase.rules, persisted, now);
      assert SetCall(s.(ledger := s.ledger), c, call.(outcome := Some(outcome))) == SetCall(s, c, call.(outcome := Some(outcome)));
    } else {
      var targets := UniqueTargets(call.phase.targets + extra);
      ReturnEvaluatesAgain(g, es, v0, s, c, outcome, targets);
      assert DoToolReturns(g, s, c, outcome, persisted, now)
          == SetCall(s, c, call.(outcome := Some(outcome), phase := Reevaluating(targets, outcome.planRef), contents := map[], probed := map[]));
    }
  }

  lemma ToolReturnsKeeps(g: Settings, es: seq<Event>, v0: map<string, string>, s: State, c: nat, outcome: ToolOutcome, persisted: bool, now: int)
    requires Now(g, es, v0, s, ToolReturns(c, outcome, persisted, now))
    ensures Inv(g, es, v0, Step(g, s, ToolReturns(c, outcome, persisted, now)))
  {
    var call := s.calls[c];
    if !call.role.Plan? || outcome.isError || !call.phase.mayBeSealed {
      ReturnEnds(g, es, v0, s, c, outcome, Done);
    } else if Revealed(call.role.family, outcome).None? {
      ReturnEnds(g, es, v0, s, c, outcome, if call.mode.Enforce? then Refused(TargetUnresolved) else Done);
    } else {
      PlanReturnsKeeps(g, es, v0, s, c, outcome, persisted, now);
    }
  }

  lemma ReadReturnsKeeps(g: Settings, es: seq<Event>, v0: map<string, string>, s: State, c: nat, content: Option<string>, servedPath: string)
    requires Now(g, es, v0, s, ReadReturns(c, content, servedPath))
    ensures Inv(g, es, v0, Step(g, s, ReadReturns(c, content, servedPath)))
  {
    var s' := Step(g, s, ReadReturns(c, content, servedPath));
    assert CallAt(g, es, v0, s, c);
    assert CallAt(g, es, v0, s, c);
    CallStays(g, es, v0, s, s', s.calls[c]);
    PlainStep(g, es, v0, s, s', c);
  }

  lemma StepKeeps(g: Settings, es: seq<Event>, v0: map<string, string>, s: State, e: Event)
    requires Now(g, es, v0, s, e)
    ensures Inv(g, es, v0, Step(g, s, e))
  {
    match e
    case VaultChanges(path, content) => VaultChangesKeeps(g, es, v0, s, path, content);
    case StartWrite(role, reader, mode, resolution, journal) => StartWriteKeeps(g, es, v0, s, role, reader, mode, resolution, journal);
    case StartApply(family, planRef, reader, mode, journal, now) => StartApplyKeeps(g, es, v0, s, family, planRef, reader, mode, journal, now);
    case StartRead(path, reader, mode) => StartReadKeeps(g, es, v0, s, path, reader, mode);
    case Probe(c, path) => ProbeKeeps(g, es, v0, s, c, path);
    case ProbeFails(c) => ProbeFailsKeeps(g, es, v0, s, c);
    case Conclude(c, persisted, now) => ConcludeKeeps(g, es, v0, s, c, persisted, now);
    case ToolReturns(c, outcome, persisted, now) => ToolReturnsKeeps(g, es, v0, s, c, outcome, persisted, now);
    case ReadReturns(c, content, servedPath) => ReadReturnsKeeps(g, es, v0, s, c, content, servedPath);
  }

  /** A run from an empty ledger, over any vault, with whatever seals earlier processes left in the journal. */
  ghost predicate From(g: Settings, t: Trace, v0: map<string, string>, j0: map<string, Seal>, maxReaders: nat, maxPaths: nat, idle: int) {
    JournalOk(g.forms, j0) && IsRun(g, t, Start(v0, j0, maxReaders, maxPaths, idle))
  }

  lemma StartKeeps(g: Settings, es: seq<Event>, v0: map<string, string>, j0: map<string, Seal>, maxReaders: nat, maxPaths: nat, idle: int)
    requires JournalOk(g.forms, j0)
    ensures Inv(g, es, v0, Start(v0, j0, maxReaders, maxPaths, idle))
  {
    var l := Start(v0, j0, maxReaders, maxPaths, idle).ledger;
    forall key, path, digest ensures HeldIsServed(l, [], 0, key, path, digest) {}
  }

  lemma {:induction false} ReachableKeeps(g: Settings, t: Trace, v0: map<string, string>, j0: map<string, Seal>, maxReaders: nat, maxPaths: nat, idle: int, i: nat)
    requires From(g, t, v0, j0, maxReaders, maxPaths, idle) && i < |t.states|
    ensures t.states[i].steps == i && Inv(g, t.events, v0, t.states[i])
  {
    if i == 0 {
      StartKeeps(g, t.events, v0, j0, maxReaders, maxPaths, idle);
    } else {
      ReachableKeeps(g, t, v0, j0, maxReaders, maxPaths, idle, i - 1);
      NextReachable(g, t, Start(v0, j0, maxReaders, maxPaths, idle), v0, i - 1);
    }
  }

  lemma NextReachable(g: Settings, t: Trace, first: State, v0: map<string, string>, i: nat)
    requires IsRun(g, t, first) && i < |t.events| && t.states[i].steps == i && Inv(g, t.events, v0, t.states[i])
    ensures t.states[i + 1].steps == i + 1 && Inv(g, t.events, v0, t.states[i + 1])
  {
    TakenStep(g, t, first, i);
    NextKeeps(g, t.events, v0, t.states[i], t.events[i], t.states[i + 1]);
  }

  lemma TakenStep(g: Settings, t: Trace, first: State, i: nat)
    requires IsRun(g, t, first) && i < |t.events|
    ensures Steps(g, t.states[i], t.events[i], t.states[i + 1])
  {
  }

  lemma NextKeeps(g: Settings, es: seq<Event>, v0: map<string, string>, s: State, e: Event, s': State)
    requires Inv(g, es, v0, s) && s.steps < |es| && es[s.steps] == e && Steps(g, s, e, s')
    ensures Inv(g, es, v0, s') && s'.steps == s.steps + 1
  {
    StepKeeps(g, es, v0, s, e);
  }

  lemma {:induction false} InheritedAlong(g: Settings, t: Trace, first: State, i: nat)
    requires IsRun(g, t, first) && i < |t.states|
    ensures t.states[i].inherited == first.inherited
  {
    if i > 0 {
      InheritedAlong(g, t, first, i - 1);
      TakenStep(g, t, first, i - 1);
      InheritedStays(g, t.states[i - 1], t.events[i - 1]);
    }
  }

  lemma InheritedStays(g: Settings, s: State, e: Event)
    requires Enabled(g, s, e)
    ensures Act(g, s, e).inherited == s.inherited
  {
    match e
    case VaultChanges(_, _) =>
    case StartWrite(_, _, _, _, _) =>
    case StartApply(family, planRef, reader, mode, journal, now) => ApplyAdds(g, s, family, planRef, reader, mode, journal, now);
    case StartRead(_, _, _) =>
    case Probe(_, _) =>
    case ProbeFails(_) =>
    case Conclude(c, persisted, now) => ConcludeInherits(g, s, c, persisted, now);
    case ToolReturns(_, _, _, _) =>
    case ReadReturns(_, _, _) =>
  }

  lemma ConcludeInherits(g: Settings, s: State, c: nat, persisted: bool, now: int)
    requires Enabled(g, s, Conclude(c, persisted, now))
    ensures DoConclude(g, s, c, persisted, now).inherited == s.inherited
  {
    match s.calls[c].phase
    case Evaluating(_, _, _) => DecideInherits(g, s, c, now);
    case Reevaluating(_, _) =>
      if s.calls[c].role.Plan? { RevealedInherits(g, Visited(s, s.calls[c].reader, RulesNow(g, s.calls[c]), now), c, persisted, now); }
    case Proving(candidates, served) =>
  }

  lemma DecideInherits(g: Settings, s: State, c: nat, now: int)
    requires c < |s.calls| && s.calls[c].phase.Evaluating?
    ensures Decide(g, s, c, now).inherited == s.inherited
  {
    var visited := Visited(s, s.calls[c].reader, RulesNow(g, s.calls[c]), now);
    if Decide(g, s, c, now) == DecideRead(g, visited, c) { ReadInherits(g, visited, c); }
  }

  lemma ReadInherits(g: Settings, s: State, c: nat)
    requires c < |s.calls| && s.calls[c].phase.Evaluating?
    ensures DecideRead(g, s, c).inherited == s.inherited
  {
  }

  lemma RevealedInherits(g: Settings, s: State, c: nat, persisted: bool, now: int)
    requires c < |s.calls| && s.calls[c].phase.Reevaluating? && s.calls[c].role.Plan?
    ensures DecideRevealed(g, s, c, persisted, now).inherited == s.inherited
  {
  }

  // -------------------------------------------------------------------------
  // What holds in every run
  // -------------------------------------------------------------------------

  /**
   The reader was earlier served, under some spelling of the path, this very content (up to line endings), and
   the vault then held it under that spelling.
   */
  ghost predicate ServedBefore(g: Settings, es: seq<Event>, v0: map<string, string>, served: seq<Served>, reader: string, path: string, digest: Digest, before: nat) {
    exists j :: 0 <= j < |served| && ServedFor(g, es, v0, served[j], reader, path, digest, before)
  }

  ghost predicate ServedFor(g: Settings, es: seq<Event>, v0: map<string, string>, x: Served, reader: string, path: string, digest: Digest, before: nat) {
    && x.reader == reader && x.digest == digest == Normalized(x.content) && x.probedAt <= x.at < before
    && Spells(g, x.path, path)
    && x.probedAt <= |es| && x.path in VaultAt(es, v0, x.probedAt) && Normalized(VaultAt(es, v0, x.probedAt)[x.path]) == digest
  }

  /** One path is a spelling of a file that is a spelling of the other. */
  ghost predicate Spells(g: Settings, a: string, b: string) {
    exists listed: string :: a in Aliases(g.forms, listed) && g.forms.nfc(listed) == g.forms.nfc(b)
  }

  /** A file probed before a tool ran: whatever stood there had been served to the reader. */
  ghost predicate FileServed(g: Settings, t: Trace, v0: map<string, string>, s: State, call: Call, r: Ran, path: string) {
    && path in r.probed && call.began <= r.probed[path] < r.at && r.probed[path] <= |t.events|
    && (path in VaultAt(t.events, v0, r.probed[path]) ==>
          ServedBefore(g, t.events, v0, s.served, call.reader, path, Normalized(VaultAt(t.events, v0, r.probed[path])[path]), r.at))
  }

  /** The targets the call named when it started; an apply names those of its seal. */
  ghost predicate Asked(es: seq<Event>, call: Call, targets: seq<Target>) {
    call.began < |es| && (es[call.began].StartWrite? ==> es[call.began].resolution == Known(targets))
  }

  /**
   Under enforcement, a tool is reached only after every configured file in a folder above a target the call named, in
   each of its spellings, was probed during the call, and whatever content stood there had earlier been served to that
   same reader.
   */
  lemma EnforcedToolIsInstructed(g: Settings, t: Trace, v0: map<string, string>, j0: map<string, Seal>, maxReaders: nat, maxPaths: nat, idle: int, i: nat, c: nat)
    requires From(g, t, v0, j0, maxReaders, maxPaths, idle) && i < |t.states| && c < |t.states[i].calls|
    requires t.states[i].calls[c].mode.Enforce? && t.states[i].calls[c].ran.Some?
    ensures var s := t.states[i]; var call := s.calls[c]; var r := call.ran.value;
            && call.began <= r.at < i && Asked(t.events, call, r.targets)
            && forall path :: GovernsAny(g.forms, g.names, r.targets, path) ==> FileServed(g, t, v0, s, call, r, path)
  {
    ReachableKeeps(g, t, v0, j0, maxReaders, maxPaths, idle, i);
    InstructionsGateAsked.ReachableAsked(g, t, Start(v0, j0, maxReaders, maxPaths, idle), i);
    var s := t.states[i];
    InstructedNow(g, t, v0, s, c);
    assert InstructionsGateAsked.CallAsked(t.events, s.calls[c]);
  }

  lemma InstructedNow(g: Settings, t: Trace, v0: map<string, string>, s: State, c: nat)
    requires Inv(g, t.events, v0, s) && c < |s.calls| && s.calls[c].mode.Enforce? && s.calls[c].ran.Some?
    ensures s.calls[c].began <= s.calls[c].ran.value.at < s.steps
    ensures forall path :: GovernsAny(g.forms, g.names, s.calls[c].ran.value.targets, path) ==> FileServed(g, t, v0, s, s.calls[c], s.calls[c].ran.value, path)
  {
    assert CallAt(g, t.events, v0, s, c);
    var call, r := s.calls[c], s.calls[c].ran.value;
    forall path | GovernsAny(g.forms, g.names, r.targets, path) ensures FileServed(g, t, v0, s, call, r, path) {
      ProbedIff(g.forms, g.names, r.targets, path);
      ProbedFileServed(g, t.events, v0, s, call, r, path);
    }
  }

  lemma ProbedFileServed(g: Settings, es: seq<Event>, v0: map<string, string>, s: State, call: Call, r: Ran, path: string)
    requires s.steps <= |es| && AllServedOk(es, v0, s) && RanOk(g, es, v0, s, call, r) && path in Chains(g.forms, g.names, r.targets)
    ensures path in r.probed && call.began <= r.probed[path] < r.at && r.probed[path] <= |es|
    ensures path in VaultAt(es, v0, r.probed[path]) ==>
              ServedBefore(g, es, v0, s.served, call.reader, path, Normalized(VaultAt(es, v0, r.probed[path])[path]), r.at)
  {
    assert path in r.contents;
    if path in VaultAt(es, v0, r.probed[path]) {
      RulesMean(g.forms, g.names, r.contents, Chains(g.forms, g.names, r.targets));
      var digest := DigestOf(r.contents, path);
      assert Covered(g.forms, r.rules, path, digest);
      var k :| 0 <= k < |r.rules| && g.forms.nfc(r.rules[k].path) == g.forms.nfc(path) && r.rules[k].digest == digest;
      assert ReadLogged(g.forms, s.served, call.reader, r.rules[k], r.at);
      LoggedIsServed(g, es, v0, s, call.reader, r.rules[k], path, r.at);
    }
  }

  lemma LoggedIsServed(g: Settings, es: seq<Event>, v0: map<string, string>, s: State, reader: string, file: RuleFile, path: string, before: nat)
    requires s.steps <= |es| && AllServedOk(es, v0, s) && ReadLogged(g.forms, s.served, reader, file, before)
    requires g.forms.nfc(file.path) == g.forms.nfc(path)
    ensures ServedBefore(g, es, v0, s.served, reader, path, file.digest, before)
  {
    var aliases := Aliases(g.forms, file.path);
    var a :| 0 <= a < |aliases| && ProofLogged(s.served, reader, aliases[a], file.digest, before);
    var j :| 0 <= j < |s.served| && s.served[j].reader == reader && s.served[j].path == aliases[a] && s.served[j].digest == file.digest && s.served[j].at < before;
    assert ServedOk(es, v0, s.served[j], s.steps);
    assert aliases[a] in aliases;
    assert Spells(g, s.served[j].path, path);
    assert ServedFor(g, es, v0, s.served[j], reader, path, file.digest, before);
  }

  /** The rules are those of the governing files probed: each with its digest, and none left out, up to spelling. */
  ghost predicate RulesOfTargets(g: Settings, contents: map<string, Option<string>>, targets: seq<Target>, rules: seq<RuleFile>) {
    && InOrder(g.forms, g.names, rules)
    && (forall e :: e in rules ==>
          GovernsAny(g.forms, g.names, targets, e.path) && Present(contents, e.path) && e.digest == DigestOf(contents, e.path))
    && (forall path :: GovernsAny(g.forms, g.names, targets, path) ==>
          path in contents && (Present(contents, path) ==> Covered(g.forms, rules, path, DigestOf(contents, path))))
  }

  /**
   An apply ran with a seal of its own family that was still kept when the apply began, over the sealed targets, and
   their rules were the sealed ones. The seal was inherited from an earlier process, or written in this run by a plan.
   */
  ghost predicate RanSealed(g: Settings, es: seq<Event>, v0: map<string, string>, j0: map<string, Seal>, s: State, call: Call, r: Ran) {
    && call.role.Apply? && call.role.planRef.Some? && r.seal.Some?
    && r.seal.value.family == call.role.family && r.seal.value.targets == r.targets && Retained(g, es, call.began, r.seal.value)
    && r.seal.value.rules == RulesDigest(g.vaultId, g.names, r.rules) && RulesOfTargets(g, r.contents, r.targets, r.rules)
    && r.at <= |es| && Probed(es, v0, r.contents, r.probed, call.began, r.at)
    && (|| SealInherited(j0, call.role.planRef.value, r.seal.value)
        || WasSealed(g, es, v0, s, call.role.planRef.value, call.role.family, r.seal.value, r.at))
  }

  lemma EvaluatedMeans(g: Settings, call: Call, targets: seq<Target>, rules: seq<RuleFile>)
    requires Evaluated(g, call, targets, rules)
    ensures RulesOfTargets(g, call.contents, targets, rules)
  {
    RulesGovern(g.forms, g.names, call.contents, targets);
    ChainsDistinct(g.forms, g.names, targets);
    RulesInOrder(g.forms, g.names, call.contents, Chains(g.forms, g.names, targets));
    forall path | GovernsAny(g.forms, g.names, targets, path) ensures path in call.contents { ProbedIff(g.forms, g.names, targets, path); }
  }

  lemma SealedNow(g: Settings, es: seq<Event>, v0: map<string, string>, s: State, c: nat)
    requires Inv(g, es, v0, s) && InstructionsGateAsked.AskedOk(es, s)
    requires c < |s.calls| && s.calls[c].mode.Enforce? && s.calls[c].ran.Some? && s.calls[c].role.Apply?
    ensures RanSealed(g, es, v0, s.inherited, s, s.calls[c], s.calls[c].ran.value)
  {
    assert CallAt(g, es, v0, s, c);
    var planRef, r := s.calls[c].role.planRef.value, s.calls[c].ran.value;
    EvaluatedMeans(g, s.calls[c].(contents := r.contents), r.targets, r.rules);
    if !SealInherited(s.inherited, planRef, r.seal.value) { SealIsLogged(g, es, v0, s, planRef, r.seal.value, r.at); }
  }

  /**
   Under enforcement, an apply reaches its tool only with a seal of its own family that was still kept when the apply
   began: one inherited from an earlier process, or one written in this run by a plan, over targets that include every
   note that plan named or said it rewrites. And it does so only if the rules of those targets are the sealed ones.
   */
  lemma EnforcedApplyIsSealed(g: Settings, t: Trace, v0: map<string, string>, j0: map<string, Seal>, maxReaders: nat, maxPaths: nat, idle: int, i: nat, c: nat)
    requires From(g, t, v0, j0, maxReaders, maxPaths, idle) && i < |t.states| && c < |t.states[i].calls|
    requires t.states[i].calls[c].mode.Enforce? && t.states[i].calls[c].ran.Some? && t.states[i].calls[c].role.Apply?
    ensures RanSealed(g, t.events, v0, j0, t.states[i], t.states[i].calls[c], t.states[i].calls[c].ran.value)
  {
    ReachableKeeps(g, t, v0, j0, maxReaders, maxPaths, idle, i);
    InheritedAlong(g, t, Start(v0, j0, maxReaders, maxPaths, idle), i);
    InstructionsGateAsked.ReachableAsked(g, t, Start(v0, j0, maxReaders, maxPaths, idle), i);
    SealedNow(g, t.events, v0, t.states[i], c);
  }

  lemma SealIsLogged(g: Settings, es: seq<Event>, v0: map<string, string>, s: State, planRef: string, seal: Seal, before: nat)
    requires Inv(g, es, v0, s) && InstructionsGateAsked.AskedOk(es, s) && SealLogged(s.sealLog, planRef, seal, before)
    ensures WasSealed(g, es, v0, s, planRef, seal.family, seal, before)
  {
    var k :| 0 <= k < |s.sealLog| && s.sealLog[k].planRef == planRef && s.sealLog[k].seal == seal && s.sealLog[k].at < before;
    assert SealLogAt(g, s, k) && InstructionsGateAsked.SealAsked(es, s.calls, s.sealLog[k]);
    assert CallAt(g, es, v0, s, s.sealLog[k].call);
    EvaluatedMeans(g, s.calls[s.sealLog[k].call], seal.targets, seal.rules.files);
    assert SealedBy(g, es, v0, s, k, planRef, seal.family, seal, before);
  }

  ghost predicate WasSealed(g: Settings, es: seq<Event>, v0: map<string, string>, s: State, planRef: string, family: string, seal: Seal, before: nat) {
    exists k :: 0 <= k < |s.sealLog| && SealedBy(g, es, v0, s, k, planRef, family, seal, before)
  }

  /**
   The entry of the seal journal: written before a step, by a plan of that family, over every target that plan named and
   every path it revealed, with the rules the plan found for them; an enforced plan's reader had been served all of these.
   */
  ghost predicate SealedBy(g: Settings, es: seq<Event>, v0: map<string, string>, s: State, k: nat, planRef: string, family: string, seal: Seal, before: nat)
    requires k < |s.sealLog|
  {
    var x := s.sealLog[k];
    && x.planRef == planRef && x.seal == seal && x.at < before && seal.family == family
    && x.call < |s.calls|
    && var plan := s.calls[x.call];
       && plan.role == Plan(family) && RevealedIn(plan.role, plan.outcome, seal.targets)
       && plan.began < |es| && es[plan.began].StartWrite? && InstructionsGateAsked.Includes(seal.targets, es[plan.began].resolution)
       && seal.rules == RulesDigest(g.vaultId, g.names, seal.rules.files) && RulesOfTargets(g, plan.contents, seal.targets, seal.rules.files)
       && s.steps <= |es| && Probed(es, v0, plan.contents, plan.probed, plan.began, s.steps)
       && (plan.mode.Enforce? ==> AllLogged(g.forms, s.served, plan.reader, seal.rules.files, x.at))
  }

  /**
   The digest changes when the difference is not empty, or the vault or the configured names are others. Among
   changes, the difference is empty exactly when the files agree and the vault or the names are others.
   */
  lemma ChangedShowsDifference(g: Settings, t: Trace, v0: map<string, string>, j0: map<string, Seal>, maxReaders: nat, maxPaths: nat, idle: int, i: nat, c: nat)
    requires From(g, t, v0, j0, maxReaders, maxPaths, idle) && i < |t.states| && c < |t.states[i].calls|
    requires t.states[i].calls[c].phase.Evaluating? && t.states[i].calls[c].phase.seal.Some?
    ensures var call := t.states[i].calls[c];
            var sealed, difference := call.phase.seal.value.rules, SealDiff(call.phase.seal.value.rules.files, RulesNow(g, call));
            var elsewhere := sealed.vaultId != g.vaultId || sealed.names != g.names;
            && (DigestNow(g, call) != sealed <==> difference != [] || elsewhere)
            && (DigestNow(g, call) != sealed ==>
                  (difference == [] <==> MapOf(sealed.files) == MapOf(RulesNow(g, call)) && elsewhere))
  {
    ReachableKeeps(g, t, v0, j0, maxReaders, maxPaths, idle, i);
    assert CallAt(g, t.events, v0, t.states[i], c);
    var call := t.states[i].calls[c];
    var sealed := call.phase.seal.value.rules;
    RulesNowInOrder(g, call);
    DiffEmptyIffSameMaps(sealed.files, RulesNow(g, call));
    if sealed.names == g.names { SameMapSameRules(g.forms, g.names, sealed.files, RulesNow(g, call)); }
  }

  /** What the ledger says a reader has read was served to it, whatever was forgotten meanwhile. */
  lemma LedgerIsHistory(g: Settings, t: Trace, v0: map<string, string>, j0: map<string, Seal>, maxReaders: nat, maxPaths: nat, idle: int, i: nat, reader: string, path: string)
    requires From(g, t, v0, j0, maxReaders, maxPaths, idle) && i < |t.states|
    requires ProofOf(t.states[i].ledger, reader, path).Some?
    ensures ProofLogged(t.states[i].served, reader, path, ProofOf(t.states[i].ledger, reader, path).value, i)
  {
    ReachableKeeps(g, t, v0, j0, maxReaders, maxPaths, idle, i);
    var l := t.states[i].ledger;
    var digest := ProofOf(l, reader, path).value;
    HeldBy(l, Find(l.readers, reader).value, reader, path, digest);
    assert HeldIsServed(l, t.states[i].served, i, reader, path, digest);
  }
}
