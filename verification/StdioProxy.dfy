/**
 The backend protocol of the stdio proxy: connection generations, leases,
 retirement, tool metadata bound to one generation, and the retry rule that
 decides when a call may be sent again.

 Code between two suspension points is one atomic step (`Apply`); any number
 of calls, connection attempts, timers and failures interleave freely.
 A connection is named by its generation, counted from 0 here.
 */
module StdioProxy {
  import opened Options

  type Tool = string

  datatype Era = Legacy | Modern

  datatype CloseReason = Drained | DrainTimeout | Shutdown

  /** `closes` counts the calls that really close the client and transport. */
  datatype Connection = Connection(
    era: Era,
    inFlight: nat,
    retired: bool,
    timerArmed: bool,
    closedFor: Option<CloseReason>,
    leasesAtClose: nat,
    closes: nat)

  // -------------------------------------------------------------------------
  // One connection: close, drain, retire, lease
  // -------------------------------------------------------------------------

  function NewConnection(era: Era): Connection {
    Connection(era, 0, false, false, None, 0, 0)
  }

  function Close(c: Connection, reason: CloseReason): Connection {
    if c.closedFor.Some? then c
    else c.(timerArmed := false, closedFor := Some(reason), leasesAtClose := c.inFlight, closes := c.closes + 1)
  }

  function CloseRetired(c: Connection): Connection {
    if !c.retired || c.inFlight != 0 then c else Close(c, Drained)
  }

  function Retire(c: Connection): Connection {
    if c.retired then c else CloseRetired(c.(retired := true, timerArmed := true))
  }

  function DrainTimeoutFires(c: Connection): Connection {
    var fired := c.(timerArmed := false);
    if c.closedFor.Some? then fired else Close(fired, DrainTimeout)
  }

  function Lend(c: Connection): Connection {
    c.(inFlight := c.inFlight + 1)
  }

  function Return(c: Connection): Connection
    requires c.inFlight > 0
  {
    CloseRetired(c.(inFlight := c.inFlight - 1))
  }

  /** What every reachable connection satisfies on its own. */
  predicate ConnectionOk(c: Connection) {
    && c.closes == (if c.closedFor.Some? then 1 else 0)
    && (c.closedFor == Some(Drained) ==> c.leasesAtClose == 0)
    && (c.retired && c.closedFor.None? ==> c.inFlight > 0 && c.timerArmed)
    && (c.timerArmed ==> c.retired)
  }

  // -------------------------------------------------------------------------
  // Protocol state
  // -------------------------------------------------------------------------

  datatype AttemptKind = Initial | Reconnect(failed: nat)

  datatype AttemptPhase = Connecting | Created(conn: nat) | Resolved(conn: nat) | Rejected

  datatype Attempt = Attempt(kind: AttemptKind, phase: AttemptPhase)

  datatype FailureKind = SessionInvalid | Network | Application

  datatype Outcome = Pending | Succeeded | Failed(kind: FailureKind)

  /** One real send of the operation to the client of connection `conn`. */
  datatype Dispatch = Dispatch(conn: nat, authorized: bool, outcome: Outcome)

  /** The two ways the retry wrapper is used: a tool call, or tools/list with its remaining stale refreshes. */
  datatype Policy = ToolCall(tool: Tool) | ListTools(refreshesLeft: nat)

  datatype Answer = Returned | ApplicationError | Unreachable | OutcomeUnknown | ReplayNotAuthorized

  /** Local variables of one `execute`: which of the two runs it is, and the current binding attempt. */
  datatype Exec = Exec(second: bool, requireReadOnly: bool, tries: nat)

  datatype Lease = Lease(expected: Option<nat>, authorized: bool)

  datatype Pc =
    | Proving(exec: Exec)
    | AwaitingList(exec: Exec, child: nat)
    | Leasing(exec: Exec, lease: Lease)
    | AwaitingInitial(exec: Exec, lease: Lease, attempt: nat)
    | Bound(exec: Exec, lease: Lease, conn: nat)
    | InFlight(second: bool, conn: nat)
    | FirstFailed(kind: FailureKind, conn: nat)
    | AwaitingReconnect(kind: FailureKind, attempt: nat)
    | Listed(conn: nat, names: set<Tool>)
    | AwaitingRefresh(child: nat)
    | Done(answer: Answer)

  datatype Call = Call(policy: Policy, pc: Pc, sent: seq<Dispatch>)

  datatype State = State(
    conns: seq<Connection>,
    backend: Option<nat>,
    attempts: seq<Attempt>,
    initial: Option<nat>,
    reconnect: Option<nat>,
    readOnly: Option<set<Tool>>,
    metadataGeneration: Option<nat>,
    retiredSet: set<nat>,
    calls: seq<Call>,
    // Every answer ever given to tools/list: generation and its read-only names.
    served: set<(nat, set<Tool>)>)

  const Start: State := State([], None, [], None, None, None, None, {}, [], {})

  const MaxBindingTries: nat := 3

  function FirstExec(): Exec { Exec(false, false, 0) }

  function Begin(policy: Policy, exec: Exec): Pc {
    if policy.ToolCall? then Proving(exec) else Leasing(exec, Lease(None, true))
  }

  function FreshCall(policy: Policy): Call {
    Call(policy, Begin(policy, FirstExec()), [])
  }

  function Goto(s: State, c: nat, pc: Pc): State
    requires c < |s.calls|
  {
    s.(calls := s.calls[c := s.calls[c].(pc := pc)])
  }

  function SetConn(s: State, g: nat, conn: Connection): State
    requires g < |s.conns|
  {
    s.(conns := s.conns[g := conn])
  }

  function RetireIn(s: State, g: nat): State
    requires g < |s.conns|
  {
    if s.conns[g].retired then s
    else SetConn(s, g, Retire(s.conns[g])).(retiredSet := s.retiredSet + {g})
  }

  predicate MetadataReady(s: State) {
    s.readOnly.Some? && s.metadataGeneration == s.backend
  }

  /** The proof is taken: refuse a replay that is not proven, otherwise bind to that generation. */
  function TakeProof(s: State, c: nat, exec: Exec): State
    requires c < |s.calls| && s.calls[c].policy.ToolCall?
  {
    var proven := s.readOnly.Some? && s.calls[c].policy.tool in s.readOnly.value;
    if exec.requireReadOnly && !proven then Goto(s, c, Done(ReplayNotAuthorized))
    else Goto(s, c, Leasing(exec, Lease(s.metadataGeneration, proven)))
  }

  /** Starts or joins the shared initial connection; the pair is the new state and the attempt awaited. */
  function JoinInitial(s: State): (State, nat) {
    match s.initial
    case Some(a) => (s, a)
    case None =>
      (s.(attempts := s.attempts + [Attempt(Initial, Connecting)], initial := Some(|s.attempts|)), |s.attempts|)
  }

  // -------------------------------------------------------------------------
  // Atomic steps
  // -------------------------------------------------------------------------

  datatype Event =
    | NewCall(policy: Policy)
    | ResolveProof(c: nat)
    | ResumeProof(c: nat)
    | EnsureConnected(c: nat)
    | ResumeInitial(c: nat, errorKind: FailureKind)
    | TakeLease(c: nat)
    | Settle(c: nat, outcome: Outcome, names: set<Tool>)
    | StartReconnect(c: nat)
    | ResumeReconnect(c: nat)
    | StoreList(c: nat)
    | ResumeRefresh(c: nat)
    | AttemptCreates(a: nat, era: Era)
    | AttemptFails(a: nat)
    | AttemptFinishes(a: nat)
    | TimerFires(g: nat)
    | CloseSettles(g: nat)
    | ShutDown

  predicate Settled(a: Attempt) { a.phase.Resolved? || a.phase.Rejected? }

  predicate Enabled(s: State, e: Event) {
    match e
    case NewCall(policy) => true
    case ResolveProof(c) => c < |s.calls| && s.calls[c].pc.Proving? && s.calls[c].policy.ToolCall?
    case ResumeProof(c) =>
      && c < |s.calls| && s.calls[c].pc.AwaitingList? && s.calls[c].policy.ToolCall?
      && s.calls[c].pc.child < |s.calls| && s.calls[s.calls[c].pc.child].pc.Done?
    case EnsureConnected(c) => c < |s.calls| && s.calls[c].pc.Leasing?
    case ResumeInitial(c, _) =>
      && c < |s.calls| && s.calls[c].pc.AwaitingInitial?
      && s.calls[c].pc.attempt < |s.attempts| && Settled(s.attempts[s.calls[c].pc.attempt])
    case TakeLease(c) => c < |s.calls| && s.calls[c].pc.Bound? && s.calls[c].pc.conn < |s.conns|
    case Settle(c, outcome, _) =>
      && c < |s.calls| && s.calls[c].pc.InFlight? && s.calls[c].pc.conn < |s.conns|
      && s.conns[s.calls[c].pc.conn].inFlight > 0 && s.calls[c].sent != []
      && !outcome.Pending?
      // A modern backend never reports the legacy invalid-session reply.
      && (outcome == Failed(SessionInvalid) ==> s.conns[s.calls[c].pc.conn].era == Legacy)
    case StartReconnect(c) => c < |s.calls| && s.calls[c].pc.FirstFailed? && s.calls[c].sent != []
    case ResumeReconnect(c) =>
      && c < |s.calls| && s.calls[c].pc.AwaitingReconnect? && s.calls[c].sent != []
      && s.calls[c].pc.attempt < |s.attempts| && Settled(s.attempts[s.calls[c].pc.attempt])
    case StoreList(c) => c < |s.calls| && s.calls[c].pc.Listed? && s.calls[c].policy.ListTools?
    case ResumeRefresh(c) =>
      && c < |s.calls| && s.calls[c].pc.AwaitingRefresh?
      && s.calls[c].pc.child < |s.calls| && s.calls[s.calls[c].pc.child].pc.Done?
    case AttemptCreates(a, _) => a < |s.attempts| && s.attempts[a].phase.Connecting?
    case AttemptFails(a) => a < |s.attempts| && s.attempts[a].phase.Connecting?
    case AttemptFinishes(a) =>
      && a < |s.attempts| && s.attempts[a].phase.Created? && s.attempts[a].phase.conn < |s.conns|
      && (s.attempts[a].kind.Reconnect? ==> s.attempts[a].kind.failed < |s.conns|)
    case TimerFires(g) => g < |s.conns| && s.conns[g].timerArmed
    case CloseSettles(g) => g < |s.conns| && s.conns[g].closedFor.Some?
    case ShutDown => true
  }

  function DoResolveProof(s: State, c: nat): State
    requires Enabled(s, ResolveProof(c))
  {
    var exec := s.calls[c].pc.exec;
    if MetadataReady(s) then TakeProof(s, c, exec)
    else Goto(s.(calls := s.calls + [FreshCall(ListTools(1))]), c, AwaitingList(exec, |s.calls|))
  }

  function DoResumeProof(s: State, c: nat): State
    requires Enabled(s, ResumeProof(c))
  {
    var pc := s.calls[c].pc;
    if s.calls[pc.child].pc.answer != Returned || s.metadataGeneration.None? || s.metadataGeneration != s.backend
    then Goto(s, c, Done(ApplicationError))
    else TakeProof(s, c, pc.exec)
  }

  function DoEnsureConnected(s: State, c: nat): State
    requires Enabled(s, EnsureConnected(c))
  {
    var pc := s.calls[c].pc;
    if s.backend.Some? then Goto(s, c, Bound(pc.exec, pc.lease, s.backend.value))
    else var (joined, a) := JoinInitial(s); Goto(joined, c, AwaitingInitial(pc.exec, pc.lease, a))
  }

  function DoResumeInitial(s: State, c: nat, errorKind: FailureKind): State
    requires Enabled(s, ResumeInitial(c, errorKind))
  {
    var pc := s.calls[c].pc;
    var cleared := s.(initial := None);
    match s.attempts[pc.attempt].phase
    case Resolved(conn) => Goto(cleared, c, Bound(pc.exec, pc.lease, conn))
    case _ => Goto(cleared, c, Done(if errorKind.Application? then ApplicationError else Unreachable))
  }

  function DoTakeLease(s: State, c: nat): State
    requires Enabled(s, TakeLease(c))
  {
    var pc := s.calls[c].pc;
    if pc.lease.expected.Some? && pc.lease.expected.value != pc.conn then
      // The generation changed before execution: bind again, three times at most.
      if pc.exec.tries + 1 < MaxBindingTries then Goto(s, c, Proving(pc.exec.(tries := pc.exec.tries + 1)))
      else Goto(s, c, Done(ApplicationError))
    else
      var call := s.calls[c].(
                  pc := InFlight(pc.exec.second, pc.conn),
                  sent := s.calls[c].sent + [Dispatch(pc.conn, pc.lease.authorized, Pending)]);
      SetConn(s, pc.conn, Lend(s.conns[pc.conn])).(calls := s.calls[c := call])
  }

  /** Where a settled dispatch leads, before any reconnection. */
  function AfterSettle(call: Call, outcome: Outcome, names: set<Tool>): Pc
    requires call.pc.InFlight? && call.sent != [] && !outcome.Pending?
  {
    var authorized := call.sent[|call.sent| - 1].authorized;
    match outcome
    case Succeeded => if call.policy.ToolCall? then Done(Returned) else Listed(call.pc.conn, names)
    case Failed(kind) =>
      if kind.Application? then Done(ApplicationError)
      else if !call.pc.second then FirstFailed(kind, call.pc.conn)
      else if kind.Network? && !authorized then Done(OutcomeUnknown)
      else Done(Unreachable)
  }

  function Record(sent: seq<Dispatch>, outcome: Outcome): seq<Dispatch>
    requires sent != []
  {
    sent[|sent| - 1 := sent[|sent| - 1].(outcome := outcome)]
  }

  function DoSettle(s: State, c: nat, outcome: Outcome, names: set<Tool>): State
    requires Enabled(s, Settle(c, outcome, names))
  {
    var call := s.calls[c];
    var g := call.pc.conn;
    var next := call.(pc := AfterSettle(call, outcome, names), sent := Record(call.sent, outcome));
    SetConn(s, g, Return(s.conns[g])).(
    calls := s.calls[c := next],
    served := if outcome.Succeeded? && call.policy.ListTools? then s.served + {(g, names)} else s.served)
  }

  /** After a successful reconnection the call is sent again only when that is allowed. */
  function SecondRun(call: Call, kind: FailureKind): Pc
    requires call.sent != []
  {
    if kind.Network? && !call.sent[|call.sent| - 1].authorized then Done(OutcomeUnknown)
    else Begin(call.policy, Exec(true, kind.Network?, 0))
  }

  function DoStartReconnect(s: State, c: nat): State
    requires Enabled(s, StartReconnect(c))
  {
    var pc := s.calls[c].pc;
    if s.backend.Some? && s.backend.value != pc.conn then Goto(s, c, SecondRun(s.calls[c], pc.kind))
    else if s.backend.None? then
      var (joined, a) := JoinInitial(s);
      Goto(joined, c, AwaitingReconnect(pc.kind, a))
    else if s.reconnect.Some? then Goto(s, c, AwaitingReconnect(pc.kind, s.reconnect.value))
    else
      Goto(s.(attempts := s.attempts + [Attempt(Reconnect(pc.conn), Connecting)], reconnect := Some(|s.attempts|)),
           c, AwaitingReconnect(pc.kind, |s.attempts|))
  }

  function DoResumeReconnect(s: State, c: nat): State
    requires Enabled(s, ResumeReconnect(c))
  {
    var pc := s.calls[c].pc;
    var attempt := s.attempts[pc.attempt];
    var cleared := if attempt.kind.Initial? then s.(initial := None) else s.(reconnect := None);
    if attempt.phase.Resolved? then Goto(cleared, c, SecondRun(s.calls[c], pc.kind))
    else if pc.kind.Network? && !s.calls[c].sent[|s.calls[c].sent| - 1].authorized then Goto(cleared, c, Done(OutcomeUnknown))
    else Goto(cleared, c, Done(Unreachable))
  }

  function DoStoreList(s: State, c: nat): State
    requires Enabled(s, StoreList(c))
  {
    var pc, left := s.calls[c].pc, s.calls[c].policy.refreshesLeft;
    if s.backend != Some(pc.conn) then
      if left == 0 then Goto(s, c, Done(ApplicationError))
      else Goto(s.(calls := s.calls + [FreshCall(ListTools(left - 1))]), c, AwaitingRefresh(|s.calls|))
    else
      Goto(s, c, Done(Returned)).(readOnly := Some(pc.names), metadataGeneration := Some(pc.conn))
  }

  function DoAttemptCreates(s: State, a: nat, era: Era): State
    requires Enabled(s, AttemptCreates(a, era))
  {
    s.(conns := s.conns + [NewConnection(era)], attempts := s.attempts[a := s.attempts[a].(phase := Created(|s.conns|))])
  }

  function Conclude(s: State, a: nat, phase: AttemptPhase): State
    requires a < |s.attempts|
  {
    s.(attempts := s.attempts[a := s.attempts[a].(phase := phase)])
  }

  /** The continuation of a connection attempt: install it, or retire it when another one was installed meanwhile. */
  function DoAttemptFinishes(s: State, a: nat): State
    requires Enabled(s, AttemptFinishes(a))
  {
    var conn := s.attempts[a].phase.conn;
    match s.attempts[a].kind
    case Initial =>
      if s.backend.None? then Conclude(s, a, Resolved(conn)).(backend := Some(conn))
      else Conclude(RetireIn(s, conn), a, Resolved(s.backend.value))
    case Reconnect(failed) =>
      if s.backend != Some(failed) then
        if s.backend.Some? then Conclude(RetireIn(s, conn), a, Resolved(s.backend.value))
        else Conclude(RetireIn(s, conn), a, Rejected)
      else
        Conclude(RetireIn(s, failed), a, Resolved(conn)).(
        backend := Some(conn), readOnly := None, metadataGeneration := None)
  }

  function DoShutDown(s: State): State {
    s.(conns := seq(|s.conns|, g requires 0 <= g < |s.conns| =>
      if g in s.retiredSet || s.backend == Some(g) then Close(s.conns[g], Shutdown) else s.conns[g]))
  }

  function Apply(s: State, e: Event): State
    requires Enabled(s, e)
  {
    match e
    case NewCall(policy) => s.(calls := s.calls + [FreshCall(policy)])
    case ResolveProof(c) => DoResolveProof(s, c)
    case ResumeProof(c) => DoResumeProof(s, c)
    case EnsureConnected(c) => DoEnsureConnected(s, c)
    case ResumeInitial(c, kind) => DoResumeInitial(s, c, kind)
    case TakeLease(c) => DoTakeLease(s, c)
    case Settle(c, outcome, names) => DoSettle(s, c, outcome, names)
    case StartReconnect(c) => DoStartReconnect(s, c)
    case ResumeReconnect(c) => DoResumeReconnect(s, c)
    case StoreList(c) => DoStoreList(s, c)
    case ResumeRefresh(c) =>
      Goto(s, c, Done(s.calls[s.calls[c].pc.child].pc.answer))
    case AttemptCreates(a, era) => DoAttemptCreates(s, a, era)
    case AttemptFails(a) => Conclude(s, a, Rejected)
    case AttemptFinishes(a) => DoAttemptFinishes(s, a)
    case TimerFires(g) => SetConn(s, g, DrainTimeoutFires(s.conns[g]))
    case CloseSettles(g) => s.(retiredSet := s.retiredSet - {g})
    case ShutDown => DoShutDown(s)
  }

  /** A run: any interleaving of enabled steps from the start of the process. */
  ghost predicate Run(states: seq<State>) {
    && |states| > 0 && states[0] == Start
    && forall i, j :: 0 <= i && j == i + 1 < |states| ==> Next(states[i], states[j])
  }

  ghost predicate Next(s: State, s': State) {
    exists e :: Enabled(s, e) && s' == Apply(s, e)
  }
}
