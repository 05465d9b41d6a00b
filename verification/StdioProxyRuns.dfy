/** What every run of the proxy protocol keeps. */
module StdioProxyRuns {
  import opened Options
  import opened StdioProxy

  // -------------------------------------------------------------------------
  // Leases
  // -------------------------------------------------------------------------

  function Holds(call: Call, g: nat): nat {
    if call.pc.InFlight? && call.pc.conn == g then 1 else 0
  }

  /** Number of calls that hold a lease on connection `g`. */
  function Leases(calls: seq<Call>, g: nat): nat {
    if calls == [] then 0 else Leases(calls[..|calls| - 1], g) + Holds(calls[|calls| - 1], g)
  }

  lemma {:induction false} LeasesUpdate(calls: seq<Call>, c: nat, call: Call, g: nat)
    requires c < |calls|
    ensures Leases(calls[c := call], g) == Leases(calls, g) - Holds(calls[c], g) + Holds(call, g)
  {
    var n := |calls| - 1;
    if c == n {
      assert calls[c := call][..n] == calls[..n];
    } else {
      assert calls[c := call][..n] == calls[..n][c := call];
      LeasesUpdate(calls[..n], c, call, g);
    }
  }

  lemma LeasesAppend(calls: seq<Call>, call: Call, g: nat)
    ensures Leases(calls + [call], g) == Leases(calls, g) + Holds(call, g)
  {
    assert (calls + [call])[..|calls|] == calls;
  }

  lemma {:induction false} LeasesZero(calls: seq<Call>, g: nat)
    requires forall c :: 0 <= c < |calls| ==> Holds(calls[c], g) == 0
    ensures Leases(calls, g) == 0
  {
    if calls != [] { LeasesZero(calls[..|calls| - 1], g); }
  }

  // -------------------------------------------------------------------------
  // The invariant
  // -------------------------------------------------------------------------

  /** Generation `g` itself has advertised `tool` as read-only in an answer to tools/list. */
  ghost predicate ProvenReadOnly(served: set<(nat, set<Tool>)>, g: nat, tool: Tool) {
    exists names :: (g, names) in served && tool in names
  }

  /** When a network loss may be followed by another send of the same operation. */
  ghost predicate Authorized(served: set<(nat, set<Tool>)>, policy: Policy, g: nat) {
    policy.ListTools? || ProvenReadOnly(served, g, policy.tool)
  }

  ghost predicate DispatchOk(served: set<(nat, set<Tool>)>, policy: Policy, d: Dispatch) {
    d.authorized ==> Authorized(served, policy, d.conn)
  }

  /** The first send failed in a way that allows a second one. */
  predicate MayRetry(first: Dispatch) {
    first.outcome == Failed(SessionInvalid) || (first.outcome == Failed(Network) && first.authorized)
  }

  ghost predicate SentOk(served: set<(nat, set<Tool>)>, call: Call) {
    && |call.sent| <= 2
    && (forall d :: d in call.sent ==> DispatchOk(served, call.policy, d))
    && (|call.sent| == 2 ==>
          && MayRetry(call.sent[0])
          && (call.sent[0].outcome == Failed(Network) ==> call.sent[1].authorized))
  }

  predicate ExecOk(call: Call, exec: Exec) {
    if exec.second
    then |call.sent| == 1 && MayRetry(call.sent[0]) && (exec.requireReadOnly <==> call.sent[0].outcome == Failed(Network))
    else call.sent == [] && !exec.requireReadOnly
  }

  ghost predicate LeaseOk(served: set<(nat, set<Tool>)>, call: Call, exec: Exec, lease: Lease) {
    && (exec.requireReadOnly ==> lease.authorized)
    && (lease.expected.Some? ==> call.policy.ToolCall?)
    && (call.policy.ToolCall? && lease.authorized ==>
          lease.expected.Some? && ProvenReadOnly(served, lease.expected.value, call.policy.tool))
  }

  /** What a finished call may answer, from its sends alone; one answer, when the last send says what became of the call. */
  function Answers(sent: seq<Dispatch>): set<Answer> {
    if sent == [] then {ApplicationError, Unreachable}
    else
      var again, last := |sent| > 1, sent[|sent| - 1];
      match last.outcome
      case Pending => {}
      case Succeeded => {Returned}
      case Failed(Application) => {ApplicationError}
      case Failed(SessionInvalid) => if again then {Unreachable} else {ApplicationError, Unreachable}
      case Failed(Network) =>
        if !last.authorized then {OutcomeUnknown}
        else if again then {Unreachable}
        else {ApplicationError, Unreachable, ReplayNotAuthorized}
  }

  predicate LastSucceeded(sent: seq<Dispatch>) { sent != [] && sent[|sent| - 1].outcome == Succeeded }

  /** A listing that succeeded may still have to be refreshed, and then answers what the refresh does. */
  predicate AnswerOk(call: Call)
    requires call.pc.Done?
  {
    (call.policy.ListTools? && LastSucceeded(call.sent)) || call.pc.answer in Answers(call.sent)
  }

  ghost predicate CallOk(s: State, call: Call) {
    && SentOk(s.served, call)
    && match call.pc
       case Proving(exec) => call.policy.ToolCall? && ExecOk(call, exec)
       case AwaitingList(exec, child) => call.policy.ToolCall? && ExecOk(call, exec) && child < |s.calls|
       case Leasing(exec, lease) => ExecOk(call, exec) && LeaseOk(s.served, call, exec, lease)
       case AwaitingInitial(exec, lease, a) =>
         ExecOk(call, exec) && LeaseOk(s.served, call, exec, lease) && a < |s.attempts|
       case Bound(exec, lease, g) =>
         ExecOk(call, exec) && LeaseOk(s.served, call, exec, lease) && g < |s.conns| && s.backend.Some?
       case InFlight(second, g) =>
         && g < |s.conns| && s.backend.Some? && |call.sent| == (if second then 2 else 1)
         && call.sent[|call.sent| - 1].conn == g && call.sent[|call.sent| - 1].outcome == Pending
       case FirstFailed(kind, g) =>
         && |call.sent| == 1 && call.sent[0].conn == g && call.sent[0].outcome == Failed(kind) && !kind.Application?
         && g < |s.conns| && s.backend.Some?
       case AwaitingReconnect(kind, a) =>
         && |call.sent| == 1 && call.sent[0].outcome == Failed(kind) && !kind.Application?
         && a < |s.attempts|
       case Listed(g, names) => call.policy.ListTools? && LastSucceeded(call.sent) && (g, names) in s.served && g < |s.conns|
       case AwaitingRefresh(child) => call.policy.ListTools? && LastSucceeded(call.sent) && child < |s.calls|
       case Done(_) => AnswerOk(call)
  }

  ghost predicate CallsOk(s: State) {
    forall c :: 0 <= c < |s.calls| ==> CallOk(s, s.calls[c])
  }

  ghost predicate LeasesOk(s: State) {
    forall g :: 0 <= g < |s.conns| ==> s.conns[g].inFlight == Leases(s.calls, g)
  }

  predicate ConnectionsOk(s: State) {
    && (forall g :: 0 <= g < |s.conns| ==> ConnectionOk(s.conns[g]))
    && (forall g :: 0 <= g < |s.conns| && s.conns[g].retired && s.conns[g].closedFor.None? ==> g in s.retiredSet)
    && (s.backend.Some? ==> s.backend.value < |s.conns| && !s.conns[s.backend.value].retired)
  }

  predicate AttemptOk(s: State, a: Attempt) {
    && (a.kind.Reconnect? ==> s.backend.Some? && a.kind.failed < |s.conns|)
    && match a.phase
       case Connecting => true
       case Created(g) =>
         && g < |s.conns| && !s.conns[g].retired && s.backend != Some(g)
         && (a.kind.Reconnect? ==> a.kind.failed < g)
       case Resolved(g) => g < |s.conns| && s.backend.Some?
       case Rejected => true
  }

  /** Connections created by two attempts are two connections. */
  predicate Distinct(a: Attempt, b: Attempt) {
    a.phase.Created? && b.phase.Created? ==> a.phase.conn != b.phase.conn
  }

  predicate AttemptsOk(s: State) {
    && (forall a :: 0 <= a < |s.attempts| ==> AttemptOk(s, s.attempts[a]))
    && (forall a, b :: 0 <= a < b < |s.attempts| ==> Distinct(s.attempts[a], s.attempts[b]))
    && (s.initial.Some? ==> s.initial.value < |s.attempts|)
    && (s.reconnect.Some? ==> s.reconnect.value < |s.attempts|)
  }

  /** Stored metadata is an answer of the active generation, or there is none. */
  predicate MetadataOk(s: State) {
    && (s.readOnly.Some? <==> s.metadataGeneration.Some?)
    && (s.readOnly.Some? ==> s.backend == s.metadataGeneration && (s.metadataGeneration.value, s.readOnly.value) in s.served)
  }

  ghost predicate Inv(s: State) {
    ConnectionsOk(s) && AttemptsOk(s) && MetadataOk(s) && LeasesOk(s) && CallsOk(s)
  }

  // -------------------------------------------------------------------------
  // Frames
  // -------------------------------------------------------------------------

  /** Everything a call's invariant looks at only grows from `s` to `s'`. */
  predicate Grows(s: State, s': State) {
    && |s.conns| <= |s'.conns| && |s.attempts| <= |s'.attempts| && |s.calls| <= |s'.calls|
    && s.served <= s'.served && (s.backend.Some? ==> s'.backend.Some?)
  }

  lemma CallOkGrows(s: State, s': State, call: Call)
    requires CallOk(s, call) && Grows(s, s')
    ensures CallOk(s', call)
  {
    forall d | d in call.sent ensures DispatchOk(s'.served, call.policy, d) {
      assert DispatchOk(s.served, call.policy, d);
    }
  }

  /** One call moves to a new record that is itself fine, and at most one connection changes its leases with it. */
  lemma CallsAfter(s: State, s': State, c: nat)
    requires CallsOk(s) && Grows(s, s') && c < |s.calls|
    requires forall i :: 0 <= i < |s.calls| && i != c ==> s'.calls[i] == s.calls[i]
    requires CallOk(s', s'.calls[c])
    requires forall i :: |s.calls| <= i < |s'.calls| ==> CallOk(s', s'.calls[i])
    ensures CallsOk(s')
  {
    forall i | 0 <= i < |s'.calls| ensures CallOk(s', s'.calls[i]) {
      if i < |s.calls| && i != c { CallOkGrows(s, s', s.calls[i]); }
    }
  }

  lemma LeasesAfter(s: State, s': State, c: nat, call: Call)
    requires LeasesOk(s) && c < |s.calls| && |s'.conns| == |s.conns|
    requires s'.calls == s.calls[c := call]
    requires forall g :: 0 <= g < |s.conns| ==> s'.conns[g].inFlight == s.conns[g].inFlight - Holds(s.calls[c], g) + Holds(call, g)
    ensures LeasesOk(s')
  {
    forall g | 0 <= g < |s'.conns| ensures s'.conns[g].inFlight == Leases(s'.calls, g) {
      LeasesUpdate(s.calls, c, call, g);
    }
  }

  /** A step that moves one call without touching leases, connections, attempts or metadata. */
  lemma GotoKeeps(s: State, c: nat, pc: Pc)
    requires Inv(s) && c < |s.calls| && !s.calls[c].pc.InFlight? && !pc.InFlight?
    requires CallOk(Goto(s, c, pc), s.calls[c].(pc := pc))
    ensures Inv(Goto(s, c, pc))
  {
    var s' := Goto(s, c, pc);
    CallsAfter(s, s', c);
    LeasesAfter(s, s', c, s'.calls[c]);
  }

  lemma SpawnKeeps(s: State, policy: Policy)
    requires Inv(s)
    ensures Inv(s.(calls := s.calls + [FreshCall(policy)]))
  {
    var s' := s.(calls := s.calls + [FreshCall(policy)]);
    forall i | 0 <= i < |s'.calls| ensures CallOk(s', s'.calls[i]) {
      if i < |s.calls| { CallOkGrows(s, s', s.calls[i]); }
    }
    forall g | 0 <= g < |s'.conns| ensures s'.conns[g].inFlight == Leases(s'.calls, g) {
      LeasesAppend(s.calls, FreshCall(policy), g);
    }
  }

  /** Same calls, same lease counts, everything else grown. */
  lemma SameCalls(s: State, s': State)
    requires CallsOk(s) && LeasesOk(s) && Grows(s, s') && s'.calls == s.calls && |s'.conns| == |s.conns|
    requires forall g :: 0 <= g < |s.conns| ==> s'.conns[g].inFlight == s.conns[g].inFlight
    ensures CallsOk(s') && LeasesOk(s')
  {
    forall i | 0 <= i < |s'.calls| ensures CallOk(s', s'.calls[i]) { CallOkGrows(s, s', s.calls[i]); }
  }

  // -------------------------------------------------------------------------
  // Every step keeps the invariant
  // -------------------------------------------------------------------------

  lemma TakeProofKeeps(s: State, c: nat, exec: Exec)
    requires Inv(s) && c < |s.calls| && s.calls[c].policy.ToolCall? && !s.calls[c].pc.InFlight? && !s.calls[c].pc.Done?
    requires ExecOk(s.calls[c], exec) && SentOk(s.served, s.calls[c])
    ensures Inv(TakeProof(s, c, exec))
  {
    var proven := s.readOnly.Some? && s.calls[c].policy.tool in s.readOnly.value;
    if proven {
      assert ProvenReadOnly(s.served, s.metadataGeneration.value, s.calls[c].policy.tool);
    }
    GotoKeeps(s, c, if exec.requireReadOnly && !proven then Done(ReplayNotAuthorized)
              else Leasing(exec, Lease(s.metadataGeneration, proven)));
  }

  lemma ResolveProofKeeps(s: State, c: nat)
    requires Inv(s) && Enabled(s, ResolveProof(c))
    ensures Inv(DoResolveProof(s, c))
  {
    assert CallOk(s, s.calls[c]);
    if MetadataReady(s) {
      TakeProofKeeps(s, c, s.calls[c].pc.exec);
    } else {
      SpawnKeeps(s, ListTools(1));
      var spawned := s.(calls := s.calls + [FreshCall(ListTools(1))]);
      GotoKeeps(spawned, c, AwaitingList(s.calls[c].pc.exec, |s.calls|));
    }
  }

  lemma ResumeProofKeeps(s: State, c: nat)
    requires Inv(s) && Enabled(s, ResumeProof(c))
    ensures Inv(DoResumeProof(s, c))
  {
    assert CallOk(s, s.calls[c]);
    var pc := s.calls[c].pc;
    if s.calls[pc.child].pc.answer != Returned || s.metadataGeneration.None? || s.metadataGeneration != s.backend {
      GotoKeeps(s, c, Done(ApplicationError));
    } else {
      TakeProofKeeps(s, c, pc.exec);
    }
  }

  lemma JoinInitialKeeps(s: State)
    requires Inv(s)
    ensures var (joined, a) := JoinInitial(s);
            Inv(joined) && a < |joined.attempts| && joined.calls == s.calls && Grows(s, joined)
  {
    var (joined, _) := JoinInitial(s);
    SameCalls(s, joined);
  }

  lemma EnsureConnectedKeeps(s: State, c: nat)
    requires Inv(s) && Enabled(s, EnsureConnected(c))
    ensures Inv(DoEnsureConnected(s, c))
  {
    assert CallOk(s, s.calls[c]);
    var pc := s.calls[c].pc;
    if s.backend.Some? {
      GotoKeeps(s, c, Bound(pc.exec, pc.lease, s.backend.value));
    } else {
      JoinInitialKeeps(s);
      var (joined, a) := JoinInitial(s);
      GotoKeeps(joined, c, AwaitingInitial(pc.exec, pc.lease, a));
    }
  }

  lemma ResumeInitialKeeps(s: State, c: nat, kind: FailureKind)
    requires Inv(s) && Enabled(s, ResumeInitial(c, kind))
    ensures Inv(DoResumeInitial(s, c, kind))
  {
    assert CallOk(s, s.calls[c]);
    var pc := s.calls[c].pc;
    var cleared := s.(initial := None);
    SameCalls(s, cleared);
    assert AttemptOk(s, s.attempts[pc.attempt]);
    match s.attempts[pc.attempt].phase
    case Resolved(conn) => GotoKeeps(cleared, c, Bound(pc.exec, pc.lease, conn));
    case _ => GotoKeeps(cleared, c, Done(if kind.Application? then ApplicationError else Unreachable));
  }

  predicate BindingMoved(pc: Pc)
    requires pc.Bound?
  {
    pc.lease.expected.Some? && pc.lease.expected.value != pc.conn
  }

  lemma DispatchedCallOk(s: State, c: nat)
    requires Inv(s) && Enabled(s, TakeLease(c)) && !BindingMoved(s.calls[c].pc)
    ensures CallOk(DoTakeLease(s, c), DoTakeLease(s, c).calls[c])
  {
    var call := s.calls[c];
    assert CallOk(s, call);
    var d := Dispatch(call.pc.conn, call.pc.lease.authorized, Pending);
    assert DispatchOk(s.served, call.policy, d);
    assert forall x :: x in call.sent + [d] ==> x in call.sent || x == d;
  }

  lemma DispatchKeeps(s: State, c: nat)
    requires Inv(s) && Enabled(s, TakeLease(c)) && !BindingMoved(s.calls[c].pc)
    ensures Inv(DoTakeLease(s, c))
  {
    var s' := DoTakeLease(s, c);
    DispatchedCallOk(s, c);
    CallsAfter(s, s', c);
    LeasesAfter(s, s', c, s'.calls[c]);
    assert ConnectionOk(s.conns[s.calls[c].pc.conn]);
    forall a | 0 <= a < |s'.attempts| ensures AttemptOk(s', s'.attempts[a]) { assert AttemptOk(s, s.attempts[a]); }
  }

  lemma TakeLeaseKeeps(s: State, c: nat)
    requires Inv(s) && Enabled(s, TakeLease(c))
    ensures Inv(DoTakeLease(s, c))
  {
    var pc := s.calls[c].pc;
    if BindingMoved(pc) {
      assert CallOk(s, s.calls[c]);
      GotoKeeps(s, c, if pc.exec.tries + 1 < MaxBindingTries then Proving(pc.exec.(tries := pc.exec.tries + 1)) else Done(ApplicationError));
    } else {
      DispatchKeeps(s, c);
    }
  }

  lemma SettleKeeps(s: State, c: nat, outcome: Outcome, names: set<Tool>)
    requires Inv(s) && Enabled(s, Settle(c, outcome, names))
    ensures Inv(DoSettle(s, c, outcome, names))
  {
    var s' := DoSettle(s, c, outcome, names);
    SettledCalls(s, c, outcome, names);
    assert ConnectionOk(s.conns[s.calls[c].pc.conn]);
    forall a | 0 <= a < |s'.attempts| ensures AttemptOk(s', s'.attempts[a]) { assert AttemptOk(s, s.attempts[a]); }
  }

  lemma SettledCalls(s: State, c: nat, outcome: Outcome, names: set<Tool>)
    requires Inv(s) && Enabled(s, Settle(c, outcome, names))
    ensures CallsOk(DoSettle(s, c, outcome, names)) && LeasesOk(DoSettle(s, c, outcome, names))
  {
    assert CallOk(s, s.calls[c]);
    var s' := DoSettle(s, c, outcome, names);
    SettledCallOk(s, c, outcome, names);
    CallsAfter(s, s', c);
    LeasesAfter(s, s', c, s'.calls[c]);
  }

  lemma SettledCallOk(s: State, c: nat, outcome: Outcome, names: set<Tool>)
    requires Inv(s) && Enabled(s, Settle(c, outcome, names))
    ensures CallOk(DoSettle(s, c, outcome, names), DoSettle(s, c, outcome, names).calls[c])
  {
    var call := s.calls[c];
    assert CallOk(s, call);
    var s' := DoSettle(s, c, outcome, names);
    var next := s'.calls[c];
    var last := |call.sent| - 1;
    forall d | d in next.sent ensures DispatchOk(s'.served, next.policy, d) {
      var i :| 0 <= i < |next.sent| && next.sent[i] == d;
      assert DispatchOk(s.served, call.policy, call.sent[i]);
    }
  }

  lemma SecondRunKeeps(s: State, c: nat, kind: FailureKind)
    requires Inv(s) && c < |s.calls| && !s.calls[c].pc.InFlight?
    requires |s.calls[c].sent| == 1 && s.calls[c].sent[0].outcome == Failed(kind) && !kind.Application?
    requires SentOk(s.served, s.calls[c])
    ensures Inv(Goto(s, c, SecondRun(s.calls[c], kind)))
  {
    GotoKeeps(s, c, SecondRun(s.calls[c], kind));
  }

  lemma StartReconnectKeeps(s: State, c: nat)
    requires Inv(s) && Enabled(s, StartReconnect(c))
    ensures Inv(DoStartReconnect(s, c))
  {
    var call := s.calls[c];
    assert CallOk(s, call);
    var pc := call.pc;
    if s.backend.value != pc.conn {
      SecondRunKeeps(s, c, pc.kind);
    } else if s.reconnect.Some? {
      GotoKeeps(s, c, AwaitingReconnect(pc.kind, s.reconnect.value));
    } else {
      var started := s.(attempts := s.attempts + [Attempt(Reconnect(pc.conn), Connecting)], reconnect := Some(|s.attempts|));
      SameCalls(s, started);
      GotoKeeps(started, c, AwaitingReconnect(pc.kind, |s.attempts|));
    }
  }

  lemma ClearedKeeps(s: State, kind: AttemptKind)
    requires Inv(s)
    ensures Inv(if kind.Initial? then s.(initial := None) else s.(reconnect := None))
  {
    SameCalls(s, if kind.Initial? then s.(initial := None) else s.(reconnect := None));
  }

  lemma ResumeReconnectKeeps(s: State, c: nat)
    requires Inv(s) && Enabled(s, ResumeReconnect(c))
    ensures Inv(DoResumeReconnect(s, c))
  {
    var call := s.calls[c];
    assert CallOk(s, call);
    var pc := call.pc;
    var attempt := s.attempts[pc.attempt];
    var cleared := if attempt.kind.Initial? then s.(initial := None) else s.(reconnect := None);
    ClearedKeeps(s, attempt.kind);
    CallOkGrows(s, cleared, call);
    if attempt.phase.Resolved? {
      SecondRunKeeps(cleared, c, pc.kind);
    } else {
      GotoKeeps(cleared, c, if pc.kind.Network? && !call.sent[0].authorized then Done(OutcomeUnknown) else Done(Unreachable));
    }
  }

  lemma InstallMetadataKeeps(s: State, g: nat, names: set<Tool>)
    requires Inv(s) && s.backend == Some(g) && (g, names) in s.served
    ensures Inv(s.(readOnly := Some(names), metadataGeneration := Some(g)))
  {
    SameCalls(s, s.(readOnly := Some(names), metadataGeneration := Some(g)));
  }

  lemma StaleListKeeps(s: State, c: nat)
    requires Inv(s) && Enabled(s, StoreList(c)) && s.calls[c].policy.refreshesLeft > 0
    ensures var left := s.calls[c].policy.refreshesLeft;
            Inv(Goto(s.(calls := s.calls + [FreshCall(ListTools(left - 1))]), c, AwaitingRefresh(|s.calls|)))
  {
    var left := s.calls[c].policy.refreshesLeft;
    assert CallOk(s, s.calls[c]);
    SpawnKeeps(s, ListTools(left - 1));
    var spawned := s.(calls := s.calls + [FreshCall(ListTools(left - 1))]);
    CallOkGrows(s, spawned, s.calls[c]);
    GotoKeeps(spawned, c, AwaitingRefresh(|s.calls|));
  }

  lemma StoreListKeeps(s: State, c: nat)
    requires Inv(s) && Enabled(s, StoreList(c))
    ensures Inv(DoStoreList(s, c))
  {
    var pc := s.calls[c].pc;
    assert CallOk(s, s.calls[c]);
    if s.backend == Some(pc.conn) {
      GotoKeeps(s, c, Done(Returned));
      InstallMetadataKeeps(Goto(s, c, Done(Returned)), pc.conn, pc.names);
    } else if s.calls[c].policy.refreshesLeft == 0 {
      GotoKeeps(s, c, Done(ApplicationError));
    } else {
      StaleListKeeps(s, c);
    }
  }

  lemma AttemptCreatesKeeps(s: State, a: nat, era: Era)
    requires Inv(s) && Enabled(s, AttemptCreates(a, era))
    ensures Inv(DoAttemptCreates(s, a, era))
  {
    var s' := DoAttemptCreates(s, a, era);
    var newest := |s.conns|;
    forall i | 0 <= i < |s'.calls| ensures CallOk(s', s'.calls[i]) { CallOkGrows(s, s', s.calls[i]); }
    forall i | 0 <= i < |s.calls| ensures Holds(s.calls[i], newest) == 0 { assert CallOk(s, s.calls[i]); }
    LeasesZero(s.calls, newest);
    assert AttemptOk(s, s.attempts[a]);
    forall i | 0 <= i < |s'.attempts| ensures AttemptOk(s', s'.attempts[i]) { assert AttemptOk(s, s.attempts[i]); }
  }

  lemma AttemptFailsKeeps(s: State, a: nat)
    requires Inv(s) && Enabled(s, AttemptFails(a))
    ensures Inv(Conclude(s, a, Rejected))
  {
    SameCalls(s, Conclude(s, a, Rejected));
  }

  /** Retiring a connection that is not the active one. */
  lemma RetireKeeps(s: State, g: nat)
    requires Inv(s) && g < |s.conns| && s.backend != Some(g)
    requires forall a :: 0 <= a < |s.attempts| ==> s.attempts[a].phase != Created(g)
    ensures Inv(RetireIn(s, g))
  {
    var s' := RetireIn(s, g);
    SameCalls(s, s');
    assert ConnectionOk(s.conns[g]);
    forall a | 0 <= a < |s'.attempts| ensures AttemptOk(s', s'.attempts[a]) { assert AttemptOk(s, s.attempts[a]); }
  }

  lemma ConcludeKeeps(s: State, a: nat, phase: AttemptPhase)
    requires Inv(s) && a < |s.attempts| && !phase.Created? && AttemptOk(s, s.attempts[a].(phase := phase))
    ensures Inv(Conclude(s, a, phase))
  {
    var s' := Conclude(s, a, phase);
    SameCalls(s, s');
    forall i | 0 <= i < |s'.attempts| ensures AttemptOk(s', s'.attempts[i]) { assert AttemptOk(s, s.attempts[i]); }
    forall i, j | 0 <= i < j < |s'.attempts| ensures Distinct(s'.attempts[i], s'.attempts[j]) {
      assert Distinct(s.attempts[i], s.attempts[j]);
    }
  }

  /** Making a sound, unclaimed connection the active one; stored metadata goes with the old one. */
  lemma ActivateKeeps(s: State, g: nat)
    requires Inv(s) && g < |s.conns| && !s.conns[g].retired
    requires forall a :: 0 <= a < |s.attempts| ==> s.attempts[a].phase != Created(g)
    ensures Inv(s.(backend := Some(g), readOnly := None, metadataGeneration := None))
  {
    var s' := s.(backend := Some(g), readOnly := None, metadataGeneration := None);
    SameCalls(s, s');
    forall a | 0 <= a < |s'.attempts| ensures AttemptOk(s', s'.attempts[a]) { assert AttemptOk(s, s.attempts[a]); }
  }

  /** The attempt's connection once nothing else refers to it. */
  lemma FreedAttempt(s: State, a: nat)
    requires Inv(s) && Enabled(s, AttemptFinishes(a))
    ensures var freed, conn := Conclude(s, a, Rejected), s.attempts[a].phase.conn;
            && Inv(freed) && !s.conns[conn].retired && s.backend != Some(conn) && AttemptOk(s, s.attempts[a])
            && forall i :: 0 <= i < |freed.attempts| ==> freed.attempts[i].phase != Created(conn)
  {
    assert AttemptOk(s, s.attempts[a]);
    var conn := s.attempts[a].phase.conn;
    ConcludeKeeps(s, a, Rejected);
    var freed := Conclude(s, a, Rejected);
    forall i | 0 <= i < |freed.attempts| ensures freed.attempts[i].phase != Created(conn) {
      if i < a { assert Distinct(s.attempts[i], s.attempts[a]); }
      if a < i { assert Distinct(s.attempts[a], s.attempts[i]); }
    }
  }

  lemma ConcludeTwice(s: State, a: nat, phase: AttemptPhase)
    requires a < |s.attempts|
    ensures Conclude(Conclude(s, a, Rejected), a, phase) == Conclude(s, a, phase)
  {
  }

  /** Another connection is active: the new one is retired at once. */
  lemma DisplacedKeeps(s: State, a: nat)
    requires Inv(s) && Enabled(s, AttemptFinishes(a)) && s.backend.Some?
    ensures Inv(Conclude(RetireIn(s, s.attempts[a].phase.conn), a, Resolved(s.backend.value)))
  {
    FreedAttempt(s, a);
    var freed, conn := Conclude(s, a, Rejected), s.attempts[a].phase.conn;
    RetireKeeps(freed, conn);
    ConcludeKeeps(RetireIn(freed, conn), a, Resolved(s.backend.value));
    ConcludeTwice(RetireIn(s, conn), a, Resolved(s.backend.value));
    assert RetireIn(freed, conn) == Conclude(RetireIn(s, conn), a, Rejected);
  }

  lemma FirstActivationKeeps(s: State, a: nat)
    requires Inv(s) && Enabled(s, AttemptFinishes(a)) && s.backend.None?
    ensures var conn := s.attempts[a].phase.conn; Inv(Conclude(s, a, Resolved(conn)).(backend := Some(conn)))
  {
    FreedAttempt(s, a);
    var freed, conn := Conclude(s, a, Rejected), s.attempts[a].phase.conn;
    ActivateKeeps(freed, conn);
    ConcludeKeeps(freed.(backend := Some(conn), readOnly := None, metadataGeneration := None), a, Resolved(conn));
    ConcludeTwice(s.(backend := Some(conn)), a, Resolved(conn));
  }

  lemma ReplacementKeeps(s: State, a: nat)
    requires Inv(s) && Enabled(s, AttemptFinishes(a)) && s.backend.Some?
    ensures var conn := s.attempts[a].phase.conn;
            Inv(Conclude(RetireIn(s, s.backend.value), a, Resolved(conn)).(
                backend := Some(conn), readOnly := None, metadataGeneration := None))
  {
    FreedAttempt(s, a);
    NeverCreated(s, s.backend.value);
    var freed, conn := Conclude(s, a, Rejected), s.attempts[a].phase.conn;
    ActivateKeeps(freed, conn);
    var active := freed.(backend := Some(conn), readOnly := None, metadataGeneration := None);
    RetireKeeps(active, s.backend.value);
    var replaced := RetireIn(active, s.backend.value);
    ConcludeKeeps(replaced, a, Resolved(conn));
    ConcludeTwice(RetireIn(s, s.backend.value).(backend := Some(conn), readOnly := None, metadataGeneration := None), a, Resolved(conn));
  }

  lemma AttemptFinishesKeeps(s: State, a: nat)
    requires Inv(s) && Enabled(s, AttemptFinishes(a))
    ensures Inv(DoAttemptFinishes(s, a))
  {
    assert AttemptOk(s, s.attempts[a]);
    if s.backend.None? {
      FirstActivationKeeps(s, a);
    } else if s.attempts[a].kind == Reconnect(s.backend.value) {
      ReplacementKeeps(s, a);
    } else {
      DisplacedKeeps(s, a);
    }
  }

  lemma NeverCreated(s: State, g: nat)
    requires Inv(s) && s.backend == Some(g)
    ensures forall a :: 0 <= a < |s.attempts| ==> s.attempts[a].phase != Created(g)
  {
    forall a | 0 <= a < |s.attempts| ensures s.attempts[a].phase != Created(g) { assert AttemptOk(s, s.attempts[a]); }
  }

  lemma TimerFiresKeeps(s: State, g: nat)
    requires Inv(s) && Enabled(s, TimerFires(g))
    ensures Inv(Apply(s, TimerFires(g)))
  {
    var s' := Apply(s, TimerFires(g));
    SameCalls(s, s');
    assert ConnectionOk(s.conns[g]);
    forall a | 0 <= a < |s'.attempts| ensures AttemptOk(s', s'.attempts[a]) { assert AttemptOk(s, s.attempts[a]); }
  }

  lemma CloseSettlesKeeps(s: State, g: nat)
    requires Inv(s) && Enabled(s, CloseSettles(g))
    ensures Inv(Apply(s, CloseSettles(g)))
  {
    SameCalls(s, Apply(s, CloseSettles(g)));
  }

  lemma ShutDownKeeps(s: State)
    requires Inv(s)
    ensures Inv(DoShutDown(s))
  {
    var s' := DoShutDown(s);
    SameCalls(s, s');
    forall g | 0 <= g < |s'.conns| ensures ConnectionOk(s'.conns[g]) { assert ConnectionOk(s.conns[g]); }
    forall a | 0 <= a < |s'.attempts| ensures AttemptOk(s', s'.attempts[a]) { assert AttemptOk(s, s.attempts[a]); }
  }

  lemma StepKeeps(s: State, e: Event)
    requires Inv(s) && Enabled(s, e)
    ensures Inv(Apply(s, e))
  {
    match e
    case NewCall(policy) => SpawnKeeps(s, policy);
    case ResolveProof(c) => ResolveProofKeeps(s, c);
    case ResumeProof(c) => ResumeProofKeeps(s, c);
    case EnsureConnected(c) => EnsureConnectedKeeps(s, c);
    case ResumeInitial(c, kind) => ResumeInitialKeeps(s, c, kind);
    case TakeLease(c) => TakeLeaseKeeps(s, c);
    case Settle(c, outcome, names) => SettleKeeps(s, c, outcome, names);
    case StartReconnect(c) => StartReconnectKeeps(s, c);
    case ResumeReconnect(c) => ResumeReconnectKeeps(s, c);
    case StoreList(c) => StoreListKeeps(s, c);
    case ResumeRefresh(c) =>
      assert CallOk(s, s.calls[c]);
      GotoKeeps(s, c, Done(s.calls[s.calls[c].pc.child].pc.answer));
    case AttemptCreates(a, era) => AttemptCreatesKeeps(s, a, era);
    case AttemptFails(a) => AttemptFailsKeeps(s, a);
    case AttemptFinishes(a) => AttemptFinishesKeeps(s, a);
    case TimerFires(g) => TimerFiresKeeps(s, g);
    case CloseSettles(g) => CloseSettlesKeeps(s, g);
    case ShutDown => ShutDownKeeps(s);
  }

  // -------------------------------------------------------------------------
  // Results over whole runs
  // -------------------------------------------------------------------------

  lemma {:induction false} ReachableKeeps(states: seq<State>, i: nat)
    requires Run(states) && i < |states|
    ensures Inv(states[i])
  {
    if i > 0 {
      ReachableKeeps(states, i - 1);
      var e := StepTaken(states, i - 1);
      StepKeeps(states[i - 1], e);
    }
  }

  /** A tool call lost on the network without a read-only proof is never sent again, in any continuation of the run. */
  lemma MutationNeverReplayed(states: seq<State>, i: nat, j: nat, c: nat)
    requires Run(states) && i <= j < |states| && c < |states[i].calls| && states[i].calls[c].policy.ToolCall?
    requires var sent := states[i].calls[c].sent;
             sent != [] && sent[|sent| - 1].outcome == Failed(Network) && !sent[|sent| - 1].authorized
    ensures c < |states[j].calls| && |states[j].calls[c].sent| == |states[i].calls[c].sent|
  {
    RunEvolves(states);
    LogGrowsInRun(states, i, j, c);
    ReachableCall(states, i, c);
    ReachableCall(states, j, c);
  }

  /** `later` continues the log `earlier`: no send disappears, and only a pending outcome changes. */
  predicate Continues(earlier: seq<Dispatch>, later: seq<Dispatch>) {
    && |earlier| <= |later|
    && forall k :: 0 <= k < |earlier| ==>
         && later[k].conn == earlier[k].conn && later[k].authorized == earlier[k].authorized
         && (earlier[k].outcome.Pending? || later[k] == earlier[k])
  }

  predicate LogKept(s: State, s': State, c: nat)
    requires c < |s.calls|
  {
    c < |s'.calls| && s'.calls[c].policy == s.calls[c].policy && Continues(s.calls[c].sent, s'.calls[c].sent)
  }

  predicate ActiveMovesUp(s: State, s': State) {
    s.backend.Some? ==>
      && s'.backend.Some? && s.backend.value <= s'.backend.value
      && (s'.backend != s.backend ==> s.backend.value < |s'.conns| && s'.conns[s.backend.value].retired)
  }

  /** Connection `g` is the active one, or it was and has been retired since. */
  predicate WasActive(s: State, g: nat) {
    s.backend.Some? && g < |s.conns| && (s.backend == Some(g) || s.conns[g].retired)
  }

  predicate RetirementIsFinal(s: State, s': State) {
    && |s.conns| <= |s'.conns|
    && forall g :: 0 <= g < |s.conns| && s.conns[g].retired ==> s'.conns[g].retired
  }

  /** What a step may do to the logs of all calls, to the active generation and to retired connections. */
  predicate Evolves(s: State, s': State) {
    ActiveMovesUp(s, s') && RetirementIsFinal(s, s') && forall c :: 0 <= c < |s.calls| ==> LogKept(s, s', c)
  }

  lemma GotoEvolves(s: State, base: State, c: nat, pc: Pc)
    requires base.backend == s.backend && c < |s.calls| && s.calls <= base.calls && base.conns == s.conns
    ensures Evolves(s, Goto(base, c, pc))
  {
  }

  lemma SameCallsEvolves(s: State, s': State)
    requires s'.calls == s.calls && ActiveMovesUp(s, s') && RetirementIsFinal(s, s')
    ensures Evolves(s, s')
  {
  }

  lemma ProofEvolves(s: State, c: nat)
    requires Enabled(s, ResolveProof(c)) || Enabled(s, ResumeProof(c))
    ensures Enabled(s, ResolveProof(c)) ==> Evolves(s, DoResolveProof(s, c))
    ensures Enabled(s, ResumeProof(c)) ==> Evolves(s, DoResumeProof(s, c))
  {
    var exec := s.calls[c].pc.exec;
    GotoEvolves(s, s, c, Done(ReplayNotAuthorized));
    GotoEvolves(s, s, c, Done(ApplicationError));
    GotoEvolves(s, s, c, Leasing(exec, Lease(s.metadataGeneration, s.readOnly.Some? && s.calls[c].policy.tool in s.readOnly.value)));
    GotoEvolves(s, s.(calls := s.calls + [FreshCall(ListTools(1))]), c, AwaitingList(exec, |s.calls|));
  }

  lemma ConnectEvolves(s: State, c: nat)
    requires Enabled(s, EnsureConnected(c))
    ensures Evolves(s, DoEnsureConnected(s, c))
  {
    var pc := s.calls[c].pc;
    var (joined, a) := JoinInitial(s);
    GotoEvolves(s, joined, c, AwaitingInitial(pc.exec, pc.lease, a));
    if s.backend.Some? { GotoEvolves(s, s, c, Bound(pc.exec, pc.lease, s.backend.value)); }
  }

  lemma ResumeInitialEvolves(s: State, c: nat, kind: FailureKind)
    requires Enabled(s, ResumeInitial(c, kind))
    ensures Evolves(s, DoResumeInitial(s, c, kind))
  {
    var s' := DoResumeInitial(s, c, kind);
    GotoEvolves(s, s.(initial := None), c, s'.calls[c].pc);
  }

  lemma SendEvolves(s: State, c: nat)
    requires Enabled(s, TakeLease(c))
    ensures Evolves(s, DoTakeLease(s, c))
  {
  }

  lemma SettleEvolves(s: State, c: nat, outcome: Outcome, names: set<Tool>)
    requires Enabled(s, Settle(c, outcome, names)) && CallOk(s, s.calls[c])
    ensures Evolves(s, DoSettle(s, c, outcome, names))
  {
  }

  lemma StartReconnectEvolves(s: State, c: nat)
    requires Enabled(s, StartReconnect(c))
    ensures Evolves(s, DoStartReconnect(s, c))
  {
  }

  lemma ResumeReconnectEvolves(s: State, c: nat)
    requires Enabled(s, ResumeReconnect(c))
    ensures Evolves(s, DoResumeReconnect(s, c))
  {
  }

  lemma StoreListEvolves(s: State, c: nat)
    requires Enabled(s, StoreList(c))
    ensures Evolves(s, DoStoreList(s, c))
  {
  }

  lemma FinishEvolves(s: State, a: nat)
    requires ConnectionsOk(s) && AttemptsOk(s) && Enabled(s, AttemptFinishes(a))
    ensures Evolves(s, DoAttemptFinishes(s, a))
  {
    assert AttemptOk(s, s.attempts[a]);
    SameCallsEvolves(s, DoAttemptFinishes(s, a));
  }

  lemma StepEvolves(s: State, e: Event)
    requires Inv(s) && Enabled(s, e)
    ensures Evolves(s, Apply(s, e))
  {
    match e
    case NewCall(_) =>
    case ResolveProof(c) => ProofEvolves(s, c);
    case ResumeProof(c) => ProofEvolves(s, c);
    case EnsureConnected(c) => ConnectEvolves(s, c);
    case ResumeInitial(c, kind) => ResumeInitialEvolves(s, c, kind);
    case TakeLease(c) => SendEvolves(s, c);
    case Settle(c, outcome, names) => SettleEvolves(s, c, outcome, names);
    case StartReconnect(c) => StartReconnectEvolves(s, c);
    case ResumeReconnect(c) => ResumeReconnectEvolves(s, c);
    case StoreList(c) => StoreListEvolves(s, c);
    case ResumeRefresh(c) => GotoEvolves(s, s, c, Done(s.calls[s.calls[c].pc.child].pc.answer));
    case AttemptCreates(a, era) => SameCallsEvolves(s, DoAttemptCreates(s, a, era));
    case AttemptFails(a) => SameCallsEvolves(s, Conclude(s, a, Rejected));
    case AttemptFinishes(a) => FinishEvolves(s, a);
    case TimerFires(g) => SameCallsEvolves(s, Apply(s, e));
    case CloseSettles(g) => SameCallsEvolves(s, Apply(s, e));
    case ShutDown => SameCallsEvolves(s, DoShutDown(s));
  }

  lemma EvolvesAt(states: seq<State>, i: nat)
    requires Run(states) && i + 1 < |states|
    ensures Evolves(states[i], states[i + 1])
  {
    ReachableKeeps(states, i);
    var e := StepTaken(states, i);
    StepEvolves(states[i], e);
  }

  predicate AlwaysEvolves(states: seq<State>) {
    forall i, j :: 0 <= i && j == i + 1 < |states| ==> Evolves(states[i], states[j])
  }

  lemma RunEvolves(states: seq<State>)
    requires Run(states)
    ensures AlwaysEvolves(states)
  {
    forall i, j | 0 <= i && j == i + 1 < |states| ensures Evolves(states[i], states[j]) { EvolvesAt(states, i); }
  }

  lemma {:induction false} LogGrowsInRun(states: seq<State>, i: nat, j: nat, c: nat)
    requires AlwaysEvolves(states) && i <= j < |states| && c < |states[i].calls|
    ensures LogKept(states[i], states[j], c)
  {
    if i < j {
      LogGrowsInRun(states, i, j - 1, c);
      LogKeptTwice(states[i], states[j - 1], states[j], c);
    }
  }

  lemma LogKeptTwice(s0: State, s1: State, s2: State, c: nat)
    requires c < |s0.calls| && LogKept(s0, s1, c) && LogKept(s1, s2, c)
    ensures LogKept(s0, s2, c)
  {
  }

  lemma ReachableCall(states: seq<State>, i: nat, c: nat)
    requires Run(states) && i < |states| && c < |states[i].calls|
    ensures CallOk(states[i], states[i].calls[c])
  {
    ReachableKeeps(states, i);
  }

  lemma StepTaken(states: seq<State>, i: nat) returns (e: Event)
    requires Run(states) && i + 1 < |states|
    ensures Enabled(states[i], e) && states[i + 1] == Apply(states[i], e)
  {
    assert Next(states[i], states[i + 1]);
    e :| Enabled(states[i], e) && states[i + 1] == Apply(states[i], e);
  }

  /** At this step the call is sent for the second time. */
  predicate SentAgain(s: State, s': State, c: nat) {
    && c < |s.calls| && c < |s'.calls| && |s.calls[c].sent| == 1 && |s'.calls[c].sent| == 2
    && s'.calls[c].policy == s.calls[c].policy && s'.served == s.served
  }

  /** No call is sent: new calls have sent nothing, and the others nothing more. */
  predicate NothingSent(s: State, s': State) {
    && |s.calls| <= |s'.calls|
    && forall c :: 0 <= c < |s'.calls| ==> if c < |s.calls| then |s'.calls[c].sent| == |s.calls[c].sent| else s'.calls[c].sent == []
  }

  lemma BindingSendsNothing(s: State, e: Event)
    requires Enabled(s, e) && (e.ResolveProof? || e.ResumeProof? || e.EnsureConnected? || e.ResumeInitial?)
    ensures NothingSent(s, Apply(s, e))
  {
  }

  lemma LossSendsNothing(s: State, e: Event)
    requires Enabled(s, e) && (e.Settle? || e.StartReconnect? || e.ResumeReconnect?)
    ensures NothingSent(s, Apply(s, e))
  {
  }

  lemma AnswerSendsNothing(s: State, e: Event)
    requires Enabled(s, e) && (e.NewCall? || e.StoreList? || e.ResumeRefresh?)
    ensures NothingSent(s, Apply(s, e))
  {
  }

  lemma BackendSendsNothing(s: State, e: Event)
    requires Enabled(s, e)
    requires e.AttemptCreates? || e.AttemptFails? || e.AttemptFinishes? || e.TimerFires? || e.CloseSettles? || e.ShutDown?
    ensures Apply(s, e).calls == s.calls
  {
  }

  lemma LeaseSends(s: State, x: nat, c: nat)
    requires Enabled(s, TakeLease(x)) && c < |s.calls| && |DoTakeLease(s, x).calls[c].sent| == 2
    ensures |s.calls[c].sent| == 2 || SentAgain(s, DoTakeLease(s, x), c)
  {
  }

  lemma SendsOneByOne(s: State, e: Event, c: nat)
    requires Enabled(s, e) && c < |Apply(s, e).calls| && |Apply(s, e).calls[c].sent| == 2
    ensures c < |s.calls| && (|s.calls[c].sent| == 2 || SentAgain(s, Apply(s, e), c))
  {
    if e.TakeLease? {
      LeaseSends(s, e.c, c);
    } else if e.ResolveProof? || e.ResumeProof? || e.EnsureConnected? || e.ResumeInitial? {
      BindingSendsNothing(s, e);
    } else if e.Settle? || e.StartReconnect? || e.ResumeReconnect? {
      LossSendsNothing(s, e);
    } else if e.NewCall? || e.StoreList? || e.ResumeRefresh? {
      AnswerSendsNothing(s, e);
    } else {
      BackendSendsNothing(s, e);
    }
  }

  /** The step at which a call that was sent twice was sent again. */
  lemma {:induction false} SecondSend(states: seq<State>, i: nat, c: nat) returns (j: nat)
    requires Run(states) && i < |states| && c < |states[i].calls| && |states[i].calls[c].sent| == 2
    ensures j < i && SentAgain(states[j], states[j + 1], c)
  {
    assert i > 0;
    var e := StepTaken(states, i - 1);
    SendsOneByOne(states[i - 1], e, c);
    if SentAgain(states[i - 1], states[i], c) {
      j := i - 1;
    } else {
      j := SecondSend(states, i - 1, c);
    }
  }

  /** When the call was sent again, both connections had listed its tool as read-only, or its session had been rejected before. */
  ghost predicate ReplayAllowedAt(s: State, s': State, c: nat, call: Call) {
    && SentAgain(s, s', c) && |call.sent| == 2
    && (|| call.sent[0].outcome == Failed(SessionInvalid)
        || (call.sent[0].outcome == Failed(Network)
            && (call.policy.ToolCall? ==>
                  && ProvenReadOnly(s.served, call.sent[0].conn, call.policy.tool)
                  && ProvenReadOnly(s.served, call.sent[1].conn, call.policy.tool))))
  }

  /**
   At most two sends, and a second one only after a rejection before entry, or after a loss of a call that was
   proven read-only in both generations by the time it was sent again.
   */
  lemma AtMostOneReplay(states: seq<State>, i: nat, c: nat)
    requires Run(states) && i < |states| && c < |states[i].calls|
    ensures var call := states[i].calls[c];
            && |call.sent| <= 2
            && (|call.sent| == 2 ==> exists j, k :: 0 <= j < i && k == j + 1 && ReplayAllowedAt(states[j], states[k], c, call))
  {
    ReachableCall(states, i, c);
    var call := states[i].calls[c];
    if |call.sent| == 2 {
      var j := SecondSend(states, i, c);
      var k := j + 1;
      ReachableCall(states, k, c);
      RunEvolves(states);
      LogGrowsInRun(states, k, i, c);
      var atSend := states[k].calls[c];
      assert DispatchOk(states[k].served, atSend.policy, atSend.sent[0]);
      assert DispatchOk(states[k].served, atSend.policy, atSend.sent[1]);
      assert ReplayAllowedAt(states[j], states[k], c, call);
    }
  }

  /** A finished tool call answers what became of its last send; where that leaves it open, as its sends allow. */
  lemma AnswerTellsOutcome(states: seq<State>, i: nat, c: nat)
    requires Run(states) && i < |states| && c < |states[i].calls|
    requires states[i].calls[c].pc.Done? && states[i].calls[c].policy.ToolCall?
    ensures var sent, answer := states[i].calls[c].sent, states[i].calls[c].pc.answer;
            && answer in Answers(sent)
            && (answer == Returned <==> sent != [] && sent[|sent| - 1].outcome == Succeeded)
            && (sent != [] && sent[|sent| - 1].outcome == Failed(Application) ==> answer == ApplicationError)
            && (answer == ReplayNotAuthorized ==> |sent| == 1 && sent[0].outcome == Failed(Network) && sent[0].authorized)
  {
    ReachableCall(states, i, c);
  }

  /** The caller is told that the outcome is unknown exactly when the last send may have taken effect unproven. */
  lemma UnknownOutcomeReported(states: seq<State>, i: nat, c: nat)
    requires Run(states) && i < |states| && c < |states[i].calls|
    requires states[i].calls[c].pc.Done? && states[i].calls[c].policy.ToolCall?
    ensures var call := states[i].calls[c];
            call.pc.answer == OutcomeUnknown <==>
            exists d :: d in call.sent && d.outcome == Failed(Network) && !d.authorized
  {
    ReachableCall(states, i, c);
  }

  /** Closing, draining and leases, in every reachable state and for every connection. */
  lemma ConnectionsAreDrained(states: seq<State>, i: nat, g: nat)
    requires Run(states) && i < |states| && g < |states[i].conns|
    ensures var s, conn := states[i], states[i].conns[g];
            && conn.inFlight == Leases(s.calls, g)
            && conn.closes <= 1 && (conn.closes == 1 <==> conn.closedFor.Some?)
            && (conn.closedFor == Some(Drained) ==> conn.leasesAtClose == 0)
            && (conn.retired && conn.closedFor.None? ==> conn.inFlight > 0 && conn.timerArmed && g in s.retiredSet)
            && (s.backend == Some(g) ==> !conn.retired)
  {
    ReachableKeeps(states, i);
    assert ConnectionOk(states[i].conns[g]);
  }

  /** Stored read-only names are an answer to tools/list of the generation that is active now. */
  lemma MetadataIsCurrent(states: seq<State>, i: nat)
    requires Run(states) && i < |states| && states[i].readOnly.Some?
    ensures var s := states[i];
            s.backend.Some? && s.metadataGeneration == s.backend && (s.backend.value, s.readOnly.value) in s.served
  {
    ReachableKeeps(states, i);
  }

  /** The active generation never goes back, so a generation that was replaced never becomes active again. */
  lemma ActiveGenerationIncreases(states: seq<State>, i: nat, j: nat)
    requires Run(states) && i <= j < |states| && states[i].backend.Some?
    ensures states[j].backend.Some? && states[i].backend.value <= states[j].backend.value
  {
    RunEvolves(states);
    ActiveIncreasesAlong(states, i, j);
  }

  lemma {:induction false} ActiveIncreasesAlong(states: seq<State>, i: nat, j: nat)
    requires AlwaysEvolves(states) && i <= j < |states| && states[i].backend.Some?
    ensures states[j].backend.Some? && states[i].backend.value <= states[j].backend.value
  {
    if i < j {
      ActiveIncreasesAlong(states, i, j - 1);
      assert Evolves(states[j - 1], states[j]);
    }
  }

  /** What calls and attempts refer to has been active. */
  predicate BindingsOk(s: State) {
    && (forall c :: 0 <= c < |s.calls| && s.calls[c].pc.Bound? ==> WasActive(s, s.calls[c].pc.conn))
    && (forall a :: 0 <= a < |s.attempts| && s.attempts[a].phase.Resolved? ==> WasActive(s, s.attempts[a].phase.conn))
  }

  /** Every binding of the new state is an old one, the active connection, or the result of an old attempt. */
  predicate BindingsFrom(s: State, s': State) {
    && (forall c :: 0 <= c < |s'.calls| && s'.calls[c].pc.Bound? ==>
          || WasActive(s', s'.calls[c].pc.conn)
          || (c < |s.calls| && s.calls[c].pc == s'.calls[c].pc))
    && (forall a :: 0 <= a < |s'.attempts| && s'.attempts[a].phase.Resolved? ==>
          || WasActive(s', s'.attempts[a].phase.conn)
          || (a < |s.attempts| && s.attempts[a] == s'.attempts[a]))
  }

  lemma BindingsStep(s: State, s': State)
    requires BindingsOk(s) && Evolves(s, s') && BindingsFrom(s, s')
    ensures BindingsOk(s')
  {
  }

  lemma ConnectStepBindings(s: State, e: Event)
    requires BindingsOk(s) && AttemptsOk(s) && ConnectionsOk(s) && Enabled(s, e)
    requires e.EnsureConnected? || e.ResumeInitial?
    ensures BindingsFrom(s, Apply(s, e))
  {
  }

  lemma CallStepBindings(s: State, e: Event)
    requires BindingsOk(s) && Enabled(s, e)
    requires e.ResolveProof? || e.ResumeProof? || e.TakeLease? || e.StoreList?
    ensures BindingsFrom(s, Apply(s, e))
  {
  }

  lemma LossStepBindings(s: State, e: Event)
    requires BindingsOk(s) && Enabled(s, e)
    requires e.StartReconnect? || e.ResumeReconnect?
    ensures BindingsFrom(s, Apply(s, e))
  {
  }

  lemma AnswerStepBindings(s: State, e: Event)
    requires BindingsOk(s) && Enabled(s, e)
    requires e.NewCall? || e.Settle? || e.ResumeRefresh?
    ensures BindingsFrom(s, Apply(s, e))
  {
  }

  lemma BackendStepBindings(s: State, e: Event)
    requires BindingsOk(s) && AttemptsOk(s) && ConnectionsOk(s) && Enabled(s, e)
    requires e.AttemptCreates? || e.AttemptFails? || e.TimerFires? || e.CloseSettles? || e.ShutDown?
    ensures BindingsFrom(s, Apply(s, e))
  {
  }

  lemma FinishStepBindings(s: State, e: Event)
    requires BindingsOk(s) && AttemptsOk(s) && ConnectionsOk(s) && Enabled(s, e) && e.AttemptFinishes?
    ensures BindingsFrom(s, Apply(s, e))
  {
    assert AttemptOk(s, s.attempts[e.a]);
  }

  lemma {:induction false} ReachableBindings(states: seq<State>, i: nat)
    requires Run(states) && i < |states|
    ensures BindingsOk(states[i])
  {
    if i > 0 {
      var before := i - 1;
      ReachableBindings(states, before);
      BindingsAt(states, before);
    }
  }

  lemma BindingsAt(states: seq<State>, i: nat)
    requires Run(states) && i + 1 < |states| && BindingsOk(states[i])
    ensures BindingsOk(states[i + 1])
  {
    ReachableKeeps(states, i);
    var e := StepTaken(states, i);
    StepEvolves(states[i], e);
    if e.NewCall? || e.Settle? || e.ResumeRefresh? {
      AnswerStepBindings(states[i], e);
    } else if e.StartReconnect? || e.ResumeReconnect? {
      LossStepBindings(states[i], e);
    } else if e.EnsureConnected? || e.ResumeInitial? {
      ConnectStepBindings(states[i], e);
    } else if e.ResolveProof? || e.ResumeProof? || e.TakeLease? || e.StoreList? {
      CallStepBindings(states[i], e);
    } else if e.AttemptFinishes? {
      FinishStepBindings(states[i], e);
    } else {
      BackendStepBindings(states[i], e);
    }
    BindingsStep(states[i], states[i + 1]);
  }

  /** A lease about to be taken lands on a retired connection exactly when another generation is active by now. */
  lemma LeaseLandsOnRetired(states: seq<State>, i: nat, c: nat)
    requires Run(states) && i < |states| && c < |states[i].calls| && states[i].calls[c].pc.Bound?
    ensures var s, g := states[i], states[i].calls[c].pc.conn;
            g < |s.conns| && (s.conns[g].retired <==> s.backend != Some(g))
  {
    ReachableBindings(states, i);
    ReachableKeeps(states, i);
  }

  // -------------------------------------------------------------------------
  // A claim that is false
  // -------------------------------------------------------------------------

  /**
   "A lease is only ever taken on an active connection" is false: the second call resolves its connection,
   a network loss of the first one replaces that connection, and then the second takes its lease.
   */
  lemma LeaseOnRetiredConnection() returns (states: seq<State>)
    ensures Run(states)
    ensures var end := states[|states| - 1];
            && |end.conns| == 2 && end.conns[0].retired && end.conns[0].closedFor == Some(Drained)
            && end.conns[0].inFlight == 1 && end.backend == Some(1)
  {
    states := FirstCallLost();
    states := Extend(states, AttemptCreates(1, Modern));
    states := Extend(states, AttemptFinishes(1));
    states := Extend(states, TakeLease(1));
  }

  lemma FirstCallLost() returns (states: seq<State>)
    ensures Run(states)
    ensures states[|states| - 1] == Start.(
              conns := [NewConnection(Modern)], backend := Some(0), reconnect := Some(1),
              attempts := [Attempt(Initial, Resolved(0)), Attempt(Reconnect(0), Connecting)],
              calls := [BoundCall.(pc := AwaitingReconnect(Network, 1), sent := [Dispatch(0, true, Failed(Network))]), BoundCall])
  {
    states := TwoBoundCalls();
    states := Extend(states, TakeLease(0));
    states := Extend(states, Settle(0, Failed(Network), {}));
    states := Extend(states, StartReconnect(0));
    var end := states[|states| - 1];
    assert end.conns == [NewConnection(Modern)];
    assert end.attempts == [Attempt(Initial, Resolved(0)), Attempt(Reconnect(0), Connecting)];
    assert end.calls[0].sent == [Dispatch(0, true, Failed(Network))];
    assert end.calls == [BoundCall.(pc := AwaitingReconnect(Network, 1), sent := [Dispatch(0, true, Failed(Network))]), BoundCall];
  }

  const BoundCall: Call := Call(ListTools(1), Bound(FirstExec(), Lease(None, true), 0), [])

  lemma TwoBoundCalls() returns (states: seq<State>)
    ensures Run(states)
    ensures states[|states| - 1] == Start.(
              conns := [NewConnection(Modern)], backend := Some(0), attempts := [Attempt(Initial, Resolved(0))],
              calls := [BoundCall, BoundCall])
  {
    states := [Start];
    states := Extend(states, NewCall(ListTools(1)));
    states := Extend(states, EnsureConnected(0));
    states := Extend(states, AttemptCreates(0, Modern));
    states := Extend(states, AttemptFinishes(0));
    states := Extend(states, ResumeInitial(0, Network));
    states := Extend(states, NewCall(ListTools(1)));
    states := Extend(states, EnsureConnected(1));
  }

  lemma Extend(states: seq<State>, e: Event) returns (longer: seq<State>)
    requires Run(states) && Enabled(states[|states| - 1], e)
    ensures Run(longer) && longer == states + [Apply(states[|states| - 1], e)]
  {
    longer := states + [Apply(states[|states| - 1], e)];
    forall i, j | 0 <= i && j == i + 1 < |longer| ensures Next(longer[i], longer[j]) {
      if j < |states| { assert Next(states[i], states[j]); }
      else { assert Enabled(longer[i], e) && longer[j] == Apply(longer[i], e); }
    }
  }
}
