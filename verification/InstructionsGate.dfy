/**
 The vault-instructions gate as a protocol: reads that leave proofs, plans that are sealed with the rules that
 applied, applies that check the seal again. Files are probed one at a time while the vault keeps changing.
 */
module InstructionsGate {
  import opened Options
  import opened InstructionRules
  import opened InstructionTargets
  import opened InstructionLedger

  datatype Settings = Settings(forms: Forms, vaultId: string, names: seq<string>, retention: int)

  datatype Mode = Off | Advise | Enforce

  datatype Role = Plan(family: string) | Direct | Apply(family: string, planRef: Option<string>) | Read(path: string)

  /** What the rules digest covers besides the fixed contract version; it is injective, so this stands for it. */
  datatype RulesDigest = RulesDigest(vaultId: string, names: seq<string>, files: seq<RuleFile>)

  datatype Seal = Seal(family: string, targets: seq<Target>, rules: RulesDigest, sealedAt: int)

  datatype Refusal = Unread | ChangedSincePlan | PlanUnsealed | TargetUnresolved | Unavailable

  /** What a plan tool answers. */
  datatype ToolOutcome = ToolOutcome(isError: bool, planRef: Option<string>, affected: Option<seq<Value>>)

  datatype Phase =
    | Evaluating(targets: seq<Target>, resolved: bool, seal: Option<Seal>)
    | InTool(targets: seq<Target>, rules: seq<RuleFile>, mayBeSealed: bool)
    | Reevaluating(targets: seq<Target>, planRef: Option<string>)
    | Serving
    | Proving(candidates: seq<string>, served: string)
    | Refused(reason: Refusal)
    | Done

  /** What was known when the tool was reached. */
  datatype Ran = Ran(at: nat, targets: seq<Target>, rules: seq<RuleFile>, contents: map<string, Option<string>>, probed: map<string, nat>, seal: Option<Seal>)

  /** `contents` are the answers of the probes of the current evaluation, `probed` the steps at which they were given. */
  datatype Call = Call(
    role: Role, reader: string, mode: Mode, began: nat, phase: Phase,
    contents: map<string, Option<string>>, probed: map<string, nat>, outcome: Option<ToolOutcome>, ran: Option<Ran>)

  /** A proof as it was recorded: what was served, and when the authoritative copy was read. */
  datatype Served = Served(reader: string, path: string, digest: Digest, content: string, probedAt: nat, at: nat)

  datatype SealLog = SealLog(planRef: string, seal: Seal, call: nat, at: nat)

  /** `inherited` are the seals that earlier processes left in the journal. */
  datatype State = State(
    vault: map<string, string>, ledger: Ledger, seals: map<string, Seal>, calls: seq<Call>,
    served: seq<Served>, sealLog: seq<SealLog>, inherited: map<string, Seal>, steps: nat)

  datatype WriteResolution = Known(targets: seq<Target>) | Unknown | Unreadable

  datatype Event =
    | VaultChanges(path: string, content: Option<string>)
    | StartWrite(role: Role, reader: string, mode: Mode, resolution: WriteResolution, journal: bool)
    | StartApply(family: string, planRef: Option<string>, reader: string, mode: Mode, journal: bool, now: int)
    | StartRead(path: string, reader: string, mode: Mode)
    | Probe(call: nat, path: string)
    | ProbeFails(call: nat)
    | Conclude(call: nat, persisted: bool, now: int)
    | ToolReturns(call: nat, outcome: ToolOutcome, persisted: bool, now: int)
    | ReadReturns(call: nat, content: Option<string>, servedPath: string)

  function PathsToProbe(g: Settings, phase: Phase): seq<string> {
    match phase
    case Evaluating(targets, _, _) => Chains(g.forms, g.names, targets)
    case Reevaluating(targets, _) => Chains(g.forms, g.names, targets)
    case Proving(candidates, _) => candidates
    case _ => []
  }

  predicate Probes(phase: Phase) { phase.Evaluating? || phase.Reevaluating? || phase.Proving? }

  function InVault(vault: map<string, string>, path: string): Option<string> {
    if path in vault then Some(vault[path]) else None
  }

  predicate Enabled(g: Settings, s: State, e: Event) {
    match e
    case VaultChanges(_, _) => true
    case StartWrite(role, _, mode, _, _) => (role.Plan? || role.Direct?) && !mode.Off?
    case StartApply(_, _, _, mode, _, _) => !mode.Off?
    case StartRead(_, _, mode) => !mode.Off?
    case Probe(c, path) =>
      && c < |s.calls| && Probes(s.calls[c].phase)
      && path in PathsToProbe(g, s.calls[c].phase) && path !in s.calls[c].contents
    case ProbeFails(c) => c < |s.calls| && Probes(s.calls[c].phase)
    case Conclude(c, _, _) =>
      && c < |s.calls| && Probes(s.calls[c].phase)
      && forall path :: path in PathsToProbe(g, s.calls[c].phase) ==> path in s.calls[c].contents
    case ToolReturns(c, _, _, _) => c < |s.calls| && s.calls[c].phase.InTool?
    case ReadReturns(c, _, _) => c < |s.calls| && s.calls[c].phase.Serving?
  }

  function NewCall(s: State, role: Role, reader: string, mode: Mode, phase: Phase): Call {
    Call(role, reader, mode, s.steps, phase, map[], map[], None, None)
  }

  function Add(s: State, call: Call): State { s.(calls := s.calls + [call]) }

  function SetCall(s: State, c: nat, call: Call): State
    requires c < |s.calls|
  {
    s.(calls := s.calls[c := call])
  }

  function Goto(s: State, c: nat, phase: Phase): State
    requires c < |s.calls|
  {
    SetCall(s, c, s.calls[c].(phase := phase))
  }

  /** The call reaches its tool. */
  function Run(s: State, c: nat, targets: seq<Target>, rules: seq<RuleFile>, mayBeSealed: bool, seal: Option<Seal>): State
    requires c < |s.calls|
  {
    var call := s.calls[c];
    SetCall(s, c, call.(phase := InTool(targets, rules, mayBeSealed),
                        ran := Some(Ran(s.steps, targets, rules, call.contents, call.probed, seal))))
  }

  /** The root folder, whose instructions are listed when the target of a write is not known. */
  const RootFolder: seq<Target> := [Target("", true)]

  /** A call whose files cannot be checked: refused, or run unchecked when only advised. */
  function Unverified(s: State, c: nat): State
    requires c < |s.calls|
  {
    if s.calls[c].mode.Enforce? then Goto(s, c, Refused(Unavailable)) else Run(s, c, [], [], false, None)
  }

  function DoStartWrite(s: State, role: Role, reader: string, mode: Mode, resolution: WriteResolution, journal: bool): State {
    var added := Add(s, NewCall(s, role, reader, mode, Done));
    var c := |s.calls|;
    match resolution
    case Unreadable => Unverified(added, c)
    case Unknown =>
      if mode.Enforce? then Goto(added, c, Refused(TargetUnresolved)) else Goto(added, c, Evaluating(RootFolder, false, None))
    case Known(targets) =>
      if role.Plan? && mode.Enforce? && !journal then Goto(added, c, Refused(Unavailable))
      else Goto(added, c, Evaluating(targets, true, None))
  }

  /** The seal of a plan, while it is kept. */
  function SealOf(g: Settings, s: State, planRef: Option<string>, now: int): Option<Seal> {
    if planRef.Some? && planRef.value in s.seals && !(s.seals[planRef.value].sealedAt < now - g.retention)
    then Some(s.seals[planRef.value]) else None
  }

  function DoStartApply(g: Settings, s: State, family: string, planRef: Option<string>, reader: string, mode: Mode, journal: bool, now: int): State {
    var added := Add(s, NewCall(s, Apply(family, planRef), reader, mode, Done));
    var c := |s.calls|;
    if !journal && mode.Enforce? then Goto(added, c, Refused(Unavailable))
    else
      var seal := if journal then SealOf(g, s, planRef, now) else None;
      if seal.None? || seal.value.family != family then
        if mode.Enforce? then Goto(added, c, Refused(PlanUnsealed)) else Run(added, c, [], [], false, None)
      else Goto(added, c, Evaluating(seal.value.targets, true, seal))
  }

  function DoProbe(g: Settings, s: State, c: nat, path: string): State
    requires Enabled(g, s, Probe(c, path))
  {
    var call := s.calls[c];
    SetCall(s, c, call.(contents := call.contents[path := InVault(s.vault, path)], probed := call.probed[path := s.steps]))
  }

  function DoProbeFails(g: Settings, s: State, c: nat): State
    requires Enabled(g, s, ProbeFails(c))
  {
    match s.calls[c].phase
    case Proving(_, _) => Goto(s, c, Done)
    case Reevaluating(_, _) => Goto(s, c, if s.calls[c].mode.Enforce? then Refused(Unavailable) else Done)
    case _ => Unverified(s, c)
  }

  function RulesNow(g: Settings, call: Call): seq<RuleFile> {
    Rules(g.forms, g.names, call.contents, PathsToProbe(g, call.phase))
  }

  function DigestNow(g: Settings, call: Call): RulesDigest { RulesDigest(g.vaultId, g.names, RulesNow(g, call)) }

  /** Looking the files up visits the reader, unless there is no file. */
  function Visited(s: State, reader: string, rules: seq<RuleFile>, now: int): State {
    if rules == [] then s else s.(ledger := Visit(s.ledger, reader, false, now))
  }

  /** The decision for a call whose seal, if it has one, still holds. */
  function DecideRead(g: Settings, s: State, c: nat): State
    requires c < |s.calls| && s.calls[c].phase.Evaluating?
  {
    var call := s.calls[c];
    var rules := RulesNow(g, call);
    if call.mode.Enforce? && !AllRead(g.forms, s.ledger, call.reader, rules) then Goto(s, c, Refused(Unread))
    else Run(s, c, call.phase.targets, rules, call.role.Plan? && call.phase.resolved, call.phase.seal)
  }

  /** The decision for an apply whose rules changed. */
  function DecideChanged(g: Settings, s: State, c: nat): State
    requires c < |s.calls| && s.calls[c].phase.Evaluating?
  {
    var call := s.calls[c];
    if call.mode.Enforce? then Goto(s, c, Refused(ChangedSincePlan))
    else Run(s, c, call.phase.targets, RulesNow(g, call), false, call.phase.seal)
  }

  /** The decision before a tool runs. */
  function Decide(g: Settings, s: State, c: nat, now: int): State
    requires c < |s.calls| && s.calls[c].phase.Evaluating?
  {
    var call := s.calls[c];
    if call.phase.seal.Some? && DigestNow(g, call) != call.phase.seal.value.rules then DecideChanged(g, s, c)
    else DecideRead(g, Visited(s, call.reader, RulesNow(g, call), now), c)
  }

  /** Writes the seal of a plan; a journal that fails to persist leaves none. */
  function WriteSeal(g: Settings, s: State, c: nat, planRef: Option<string>, targets: seq<Target>, rules: seq<RuleFile>, persisted: bool, now: int): State
    requires c < |s.calls| && s.calls[c].role.Plan?
  {
    if planRef.None? || !persisted then Goto(s, c, Done)
    else
      var seal := Seal(s.calls[c].role.family, targets, RulesDigest(g.vaultId, g.names, rules), now);
      Goto(s, c, Done).(seals := s.seals[planRef.value := seal], sealLog := s.sealLog + [SealLog(planRef.value, seal, c, s.steps)])
  }

  /** The decision once the targets a plan revealed have been evaluated too. */
  function DecideRevealed(g: Settings, s: State, c: nat, persisted: bool, now: int): State
    requires c < |s.calls| && s.calls[c].phase.Reevaluating? && s.calls[c].role.Plan?
  {
    var call := s.calls[c];
    var rules := RulesNow(g, call);
    if call.mode.Enforce? && !AllRead(g.forms, s.ledger, call.reader, rules) then Goto(s, c, Refused(Unread))
    else WriteSeal(g, s, c, call.phase.planRef, call.phase.targets, rules, persisted, now)
  }

  /** A proof, if the authoritative copy under this path is what was served. */
  function RecordProof(s: State, call: Call, path: string, served: string, now: int): (r: State)
    ensures r == s.(ledger := r.ledger, served := r.served)
  {
    if path in call.probed && Present(call.contents, path) && DigestOf(call.contents, path) == Normalized(served) then
      s.(ledger := Record(s.ledger, call.reader, path, Normalized(served), now),
         served := s.served + [Served(call.reader, path, Normalized(served), served, call.probed[path], s.steps)])
    else s
  }

  /** Records a proof for each candidate whose authoritative copy is what was served. */
  function RecordProofs(s: State, call: Call, candidates: seq<string>, served: string, now: int): (r: State)
    ensures r == s.(ledger := r.ledger, served := r.served)
  {
    if candidates == [] then s
    else RecordProof(RecordProofs(s, call, candidates[..|candidates| - 1], served, now), call, candidates[|candidates| - 1], served, now)
  }

  function DoConclude(g: Settings, s: State, c: nat, persisted: bool, now: int): State
    requires Enabled(g, s, Conclude(c, persisted, now))
  {
    match s.calls[c].phase
    case Evaluating(_, _, _) => Decide(g, s, c, now)
    case Reevaluating(_, _) =>
      var call := s.calls[c];
      if call.role.Plan? then DecideRevealed(g, Visited(s, call.reader, RulesNow(g, call), now), c, persisted, now) else s
    case Proving(candidates, served) => Goto(RecordProofs(s, s.calls[c], candidates, served, now), c, Done)
  }

  predicate MoveFamily(family: string) { family == "obsidian_note_move" }

  /** The notes a plan reveals; only a move reveals any. */
  function Revealed(family: string, outcome: ToolOutcome): Option<seq<Target>> {
    if MoveFamily(family) then RevealedBy(outcome.affected) else Some([])
  }

  predicate KnownPath(targets: seq<Target>, path: string) { exists i :: 0 <= i < |targets| && targets[i].path == path }

  function NewTargets(known: seq<Target>, revealed: seq<Target>): seq<Target> {
    if revealed == [] then []
    else
      NewTargets(known, revealed[..|revealed| - 1])
      + (if KnownPath(known, revealed[|revealed| - 1].path) then [] else [revealed[|revealed| - 1]])
  }

  function UniqueTargets(targets: seq<Target>): seq<Target> {
    if targets == [] then []
    else
      var before, last := UniqueTargets(targets[..|targets| - 1]), targets[|targets| - 1];
      if last in targets[..|targets| - 1] then before else before + [last]
  }

  function DoToolReturns(g: Settings, s: State, c: nat, outcome: ToolOutcome, persisted: bool, now: int): State
    requires c < |s.calls| && s.calls[c].phase.InTool?
  {
    var call := s.calls[c];
    var returned := SetCall(s, c, call.(outcome := Some(outcome)));
    if !call.role.Plan? || outcome.isError || !call.phase.mayBeSealed then Goto(returned, c, Done)
    else
      var revealed := Revealed(call.role.family, outcome);
      if revealed.None? then Goto(returned, c, if call.mode.Enforce? then Refused(TargetUnresolved) else Done)
      else
        var extra := NewTargets(call.phase.targets, revealed.value);
        if extra == [] then WriteSeal(g, returned, c, outcome.planRef, call.phase.targets, call.phase.rules, persisted, now)
        else
          SetCall(returned, c, returned.calls[c].(phase := Reevaluating(UniqueTargets(call.phase.targets + extra), outcome.planRef),
                                                  contents := map[], probed := map[]))
  }

  function DoReadReturns(s: State, c: nat, content: Option<string>, servedPath: string): State
    requires c < |s.calls| && s.calls[c].phase.Serving? && s.calls[c].role.Read?
  {
    if content.None? then Goto(s, c, Done)
    else Goto(s, c, Proving(Unique([s.calls[c].role.path, servedPath]), content.value))
  }

  function Act(g: Settings, s: State, e: Event): State
    requires Enabled(g, s, e)
  {
    match e
    case VaultChanges(path, content) =>
      s.(vault := if content.Some? then s.vault[path := content.value] else s.vault - {path})
    case StartWrite(role, reader, mode, resolution, journal) => DoStartWrite(s, role, reader, mode, resolution, journal)
    case StartApply(family, planRef, reader, mode, journal, now) => DoStartApply(g, s, family, planRef, reader, mode, journal, now)
    case StartRead(path, reader, mode) => Add(s, NewCall(s, Read(path), reader, mode, Serving))
    case Probe(c, path) => DoProbe(g, s, c, path)
    case ProbeFails(c) => DoProbeFails(g, s, c)
    case Conclude(c, persisted, now) => DoConclude(g, s, c, persisted, now)
    case ToolReturns(c, outcome, persisted, now) => DoToolReturns(g, s, c, outcome, persisted, now)
    case ReadReturns(c, content, servedPath) => if s.calls[c].role.Read? then DoReadReturns(s, c, content, servedPath) else s
  }

  function Step(g: Settings, s: State, e: Event): State
    requires Enabled(g, s, e)
  {
    Act(g, s, e).(steps := s.steps + 1)
  }

  function Start(vault: map<string, string>, journal: map<string, Seal>, maxReaders: nat, maxPaths: nat, idle: int): State {
    State(vault, Ledger([], maxReaders, maxPaths, idle), journal, [], [], [], journal, 0)
  }

  datatype Trace = Trace(events: seq<Event>, states: seq<State>)

  ghost predicate IsRun(g: Settings, t: Trace, first: State) {
    && |t.states| == |t.events| + 1 && t.states[0] == first
    && forall i, j :: 0 <= i < |t.events| && j == i + 1 ==> Steps(g, t.states[i], t.events[i], t.states[j])
  }

  ghost predicate Steps(g: Settings, s: State, e: Event, s': State) { Enabled(g, s, e) && s' == Step(g, s, e) }
}
