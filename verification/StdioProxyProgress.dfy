/**
 Every call of the proxy ends, provided that sends are answered and connection attempts settle: what it still has to
 do, together with the calls and the attempt it waits for, is a number that its own steps lower and that no step of
 anything else raises.
 */
module StdioProxyProgress {
  import opened Options
  import opened StdioProxy
  import opened StdioProxyRuns

  // -------------------------------------------------------------------------
  // What is left to do
  // -------------------------------------------------------------------------

  function AttemptLeft(phase: AttemptPhase): nat {
    match phase
    case Connecting => 2
    case Created(_) => 1
    case Resolved(_) => 0
    case Rejected => 0
  }

  function Awaited(s: State, a: nat): nat { if a < |s.attempts| then AttemptLeft(s.attempts[a].phase) else 0 }

  /** After a successful send: a listing may have to be refreshed as often as it still may be. */
  function AnswerLeft(policy: Policy): nat {
    match policy
    case ToolCall(_) => 0
    case ListTools(left) => 1 + 18 * left
  }

  /** A binding may fail three times, and each time the metadata may have to be listed again. */
  function TriesLeft(policy: Policy, tries: nat): nat {
    if policy.ToolCall? && tries < 2 then 42 * (2 - tries) else 0
  }

  /** From the beginning of one of the two runs to its send. */
  function BeginLeft(policy: Policy): nat { if policy.ToolCall? then 126 else 5 }

  function SecondLeft(policy: Policy): nat { BeginLeft(policy) + 1 + AnswerLeft(policy) }

  /** From a send on; the first one may be followed by a reconnection and a second run. */
  function SentLeft(policy: Policy, second: bool): nat {
    if second then 1 + AnswerLeft(policy) else SecondLeft(policy) + 5
  }

  function BoundLeft(policy: Policy, exec: Exec): nat { SentLeft(policy, exec.second) + 1 + TriesLeft(policy, exec.tries) }

  /** What a call has left to do itself, and its connection attempt. */
  function OwnLeft(s: State, policy: Policy, pc: Pc): nat {
    match pc
    case Proving(exec) => BoundLeft(policy, exec) + 41
    case AwaitingList(exec, _) => BoundLeft(policy, exec) + 5
    case Leasing(exec, _) => BoundLeft(policy, exec) + 4
    case AwaitingInitial(exec, _, a) => BoundLeft(policy, exec) + 1 + Awaited(s, a)
    case Bound(exec, _, _) => BoundLeft(policy, exec)
    case InFlight(second, _) => SentLeft(policy, second)
    case FirstFailed(_, _) => SecondLeft(policy) + 4
    case AwaitingReconnect(_, a) => SecondLeft(policy) + 1 + Awaited(s, a)
    case Listed(_, _) => AnswerLeft(policy)
    case AwaitingRefresh(_) => 1
    case Done(_) => 0
  }

  /** The call this one waits for. */
  function Child(pc: Pc): Option<nat> {
    match pc
    case AwaitingList(_, child) => Some(child)
    case AwaitingRefresh(child) => Some(child)
    case _ => None
  }

  function Remaining(s: State, c: nat): nat
    requires c < |s.calls|
    decreases |s.calls| - c
  {
    OwnLeft(s, s.calls[c].policy, s.calls[c].pc) + ChildLeft(s, c, Child(s.calls[c].pc))
  }

  function ChildLeft(s: State, c: nat, child: Option<nat>): nat
    requires c < |s.calls|
    decreases |s.calls| - c, 0
  {
    if child.Some? && c < child.value < |s.calls| then Remaining(s, child.value) else 0
  }

  /** A fresh tool call has 258 left, a fresh listing 17, and 18 more for each refresh. */
  lemma FreshRemaining(s: State, c: nat, policy: Policy)
    requires c < |s.calls| && s.calls[c] == FreshCall(policy)
    ensures Remaining(s, c) == (match policy case ToolCall(_) => 258 case ListTools(left) => 17 + 18 * left)
  {
  }

  // -------------------------------------------------------------------------
  // Calls wait for younger calls only
  // -------------------------------------------------------------------------

  predicate WaitsOk(s: State) {
    forall c :: 0 <= c < |s.calls| ==> WaitOk(s, c, s.calls[c].pc)
  }

  predicate WaitOk(s: State, c: nat, pc: Pc) { Child(pc).Some? ==> c < Child(pc).value < |s.calls| }

  /** The call an event moves. */
  function Mover(e: Event): Option<nat> {
    match e
    case ResolveProof(c) => Some(c)
    case ResumeProof(c) => Some(c)
    case EnsureConnected(c) => Some(c)
    case ResumeInitial(c, _) => Some(c)
    case TakeLease(c) => Some(c)
    case Settle(c, _, _) => Some(c)
    case StartReconnect(c) => Some(c)
    case ResumeReconnect(c) => Some(c)
    case StoreList(c) => Some(c)
    case ResumeRefresh(c) => Some(c)
    case _ => None
  }

  /** An attempt never goes back. */
  predicate AttemptsAdvance(s: State, s': State) {
    |s.attempts| <= |s'.attempts| && forall a :: 0 <= a < |s.attempts| ==> AttemptLeft(s'.attempts[a].phase) <= AttemptLeft(s.attempts[a].phase)
  }

  predicate OthersStay(s: State, s': State, mover: Option<nat>) {
    |s.calls| <= |s'.calls| && forall c :: 0 <= c < |s.calls| && mover != Some(c) ==> s'.calls[c] == s.calls[c]
  }

  ghost predicate Kept(s: State, e: Event)
    requires Enabled(s, e)
  {
    AttemptsAdvance(s, Apply(s, e)) && OthersStay(s, Apply(s, e), Mover(e))
  }

  lemma BindingKeeps(s: State, e: Event)
    requires Enabled(s, e) && (e.ResolveProof? || e.ResumeProof? || e.EnsureConnected? || e.ResumeInitial? || e.TakeLease?)
    ensures Kept(s, e)
  {
  }

  lemma LossKeeps(s: State, e: Event)
    requires Enabled(s, e) && (e.Settle? || e.StartReconnect? || e.ResumeReconnect?)
    ensures Kept(s, e)
  {
  }

  lemma AnswerKeeps(s: State, e: Event)
    requires Enabled(s, e) && (e.NewCall? || e.StoreList? || e.ResumeRefresh?)
    ensures Kept(s, e)
  {
  }

  lemma BackendKeeps(s: State, e: Event)
    requires Enabled(s, e)
    requires e.AttemptCreates? || e.AttemptFails? || e.AttemptFinishes? || e.TimerFires? || e.CloseSettles? || e.ShutDown?
    ensures Kept(s, e)
  {
  }

  lemma OthersAreKept(s: State, e: Event)
    requires Enabled(s, e)
    ensures AttemptsAdvance(s, Apply(s, e)) && OthersStay(s, Apply(s, e), Mover(e))
  {
    if e.ResolveProof? || e.ResumeProof? || e.EnsureConnected? || e.ResumeInitial? || e.TakeLease? {
      BindingKeeps(s, e);
    } else if e.Settle? || e.StartReconnect? || e.ResumeReconnect? {
      LossKeeps(s, e);
    } else if e.NewCall? || e.StoreList? || e.ResumeRefresh? {
      AnswerKeeps(s, e);
    } else {
      BackendKeeps(s, e);
    }
  }

  // -------------------------------------------------------------------------
  // The step of a call lowers what it has left
  // -------------------------------------------------------------------------

  /** A call moves on, and spawns at most the youngest call. */
  predicate MovesOn(s: State, s': State, c: nat)
    requires c < |s.calls|
  {
    c < |s'.calls| && WaitOk(s', c, s'.calls[c].pc) && Remaining(s', c) < Remaining(s, c)
  }

  lemma ProofMovesOn(s: State, c: nat)
    requires Enabled(s, ResolveProof(c))
    ensures MovesOn(s, DoResolveProof(s, c), c)
  {
    if !MetadataReady(s) { FreshRemaining(DoResolveProof(s, c), |s.calls|, ListTools(1)); }
  }

  lemma ResumedProofMovesOn(s: State, c: nat)
    requires Enabled(s, ResumeProof(c))
    ensures MovesOn(s, DoResumeProof(s, c), c)
  {
  }

  lemma ConnectMovesOn(s: State, c: nat)
    requires Enabled(s, EnsureConnected(c))
    ensures MovesOn(s, DoEnsureConnected(s, c), c)
  {
  }

  lemma InitialMovesOn(s: State, c: nat, kind: FailureKind)
    requires Enabled(s, ResumeInitial(c, kind))
    ensures MovesOn(s, DoResumeInitial(s, c, kind), c)
  {
  }

  lemma LeaseMovesOn(s: State, c: nat)
    requires Enabled(s, TakeLease(c)) && CallOk(s, s.calls[c])
    ensures MovesOn(s, DoTakeLease(s, c), c)
  {
  }

  lemma SettleMovesOn(s: State, c: nat, outcome: Outcome, names: set<Tool>)
    requires Enabled(s, Settle(c, outcome, names))
    ensures MovesOn(s, DoSettle(s, c, outcome, names), c)
  {
  }

  lemma LossMovesOn(s: State, c: nat)
    requires Enabled(s, StartReconnect(c))
    ensures MovesOn(s, DoStartReconnect(s, c), c)
  {
  }

  lemma ReconnectMovesOn(s: State, c: nat)
    requires Enabled(s, ResumeReconnect(c))
    ensures MovesOn(s, DoResumeReconnect(s, c), c)
  {
  }

  lemma ListMovesOn(s: State, c: nat)
    requires Enabled(s, StoreList(c))
    ensures MovesOn(s, DoStoreList(s, c), c)
  {
    var pc, left := s.calls[c].pc, s.calls[c].policy.refreshesLeft;
    if s.backend != Some(pc.conn) && left > 0 { FreshRemaining(DoStoreList(s, c), |s.calls|, ListTools(left - 1)); }
  }

  lemma MoverMovesOn(s: State, e: Event)
    requires Inv(s) && Enabled(s, e) && Mover(e).Some?
    ensures Mover(e).value < |s.calls| && MovesOn(s, Apply(s, e), Mover(e).value)
  {
    match e
    case ResolveProof(c) => ProofMovesOn(s, c);
    case ResumeProof(c) => ResumedProofMovesOn(s, c);
    case EnsureConnected(c) => ConnectMovesOn(s, c);
    case ResumeInitial(c, kind) => InitialMovesOn(s, c, kind);
    case TakeLease(c) => LeaseMovesOn(s, c);
    case Settle(c, outcome, names) => SettleMovesOn(s, c, outcome, names);
    case StartReconnect(c) => LossMovesOn(s, c);
    case ResumeReconnect(c) => ReconnectMovesOn(s, c);
    case StoreList(c) => ListMovesOn(s, c);
    case ResumeRefresh(c) =>
  }

  lemma WaitsKept(s: State, e: Event)
    requires Inv(s) && WaitsOk(s) && Enabled(s, e)
    ensures WaitsOk(Apply(s, e))
  {
    OthersAreKept(s, e);
    if Mover(e).Some? { MoverMovesOn(s, e); }
    var s' := Apply(s, e);
    forall c | 0 <= c < |s'.calls| ensures WaitOk(s', c, s'.calls[c].pc) {
      if c < |s.calls| {
        assert WaitOk(s, c, s.calls[c].pc);
      } else {
        NewIsFresh(s, e, c);
      }
    }
  }

  lemma NewIsFresh(s: State, e: Event, c: nat)
    requires Enabled(s, e) && |s.calls| <= c < |Apply(s, e).calls|
    ensures Child(Apply(s, e).calls[c].pc).None?
  {
  }

  // -------------------------------------------------------------------------
  // No step raises what a call has left
  // -------------------------------------------------------------------------

  /** What a call has left falls with what it waits for. */
  lemma {:induction false} NothingIsRaised(s: State, s': State, mover: Option<nat>, c: nat)
    requires CallsOk(s) && WaitsOk(s) && AttemptsAdvance(s, s') && OthersStay(s, s', mover) && c < |s.calls|
    requires mover.Some? ==> mover.value < |s.calls| && MovesOn(s, s', mover.value)
    ensures Remaining(s', c) <= Remaining(s, c)
    decreases |s.calls| - c
  {
    if mover != Some(c) {
      var pc := s.calls[c].pc;
      assert WaitOk(s, c, pc) && CallOk(s, s.calls[c]);
      if Child(pc).Some? { NothingIsRaised(s, s', mover, Child(pc).value); }
    }
  }

  // -------------------------------------------------------------------------
  // Some step lowers it
  // -------------------------------------------------------------------------

  /** The step an attempt takes next. */
  function AttemptStep(a: nat, phase: AttemptPhase): Event { if phase.Connecting? then AttemptFails(a) else AttemptFinishes(a) }

  /** What a call does next once nothing it waits for is left to do. */
  function OwnStep(c: nat, pc: Pc): Event
    requires !pc.Done?
  {
    match pc
    case Proving(_) => ResolveProof(c)
    case AwaitingList(_, _) => ResumeProof(c)
    case Leasing(_, _) => EnsureConnected(c)
    case AwaitingInitial(_, _, _) => ResumeInitial(c, Network)
    case Bound(_, _, _) => TakeLease(c)
    case InFlight(_, _) => Settle(c, Succeeded, {})
    case FirstFailed(_, _) => StartReconnect(c)
    case AwaitingReconnect(_, _) => ResumeReconnect(c)
    case Listed(_, _) => StoreList(c)
    case AwaitingRefresh(_) => ResumeRefresh(c)
  }

  function AttemptOf(pc: Pc): Option<nat> {
    match pc
    case AwaitingInitial(_, _, a) => Some(a)
    case AwaitingReconnect(_, a) => Some(a)
    case _ => None
  }

  /** The step that brings a call on: its own, that of its attempt, or that of the call it waits for. */
  function NextStep(s: State, c: nat): (e: Event)
    requires WaitsOk(s) && c < |s.calls| && !s.calls[c].pc.Done?
    ensures Mover(e).Some? ==> c <= Mover(e).value
    decreases |s.calls| - c
  {
    var pc := s.calls[c].pc;
    assert WaitOk(s, c, pc);
    if Child(pc).Some? && !s.calls[Child(pc).value].pc.Done? then NextStep(s, Child(pc).value)
    else if AttemptOf(pc).Some? && Awaited(s, AttemptOf(pc).value) > 0 then AttemptStep(AttemptOf(pc).value, s.attempts[AttemptOf(pc).value].phase)
    else OwnStep(c, pc)
  }

  lemma OwnStepEnabled(s: State, c: nat)
    requires Inv(s) && c < |s.calls| && !s.calls[c].pc.Done?
    requires WaitOk(s, c, s.calls[c].pc) && (Child(s.calls[c].pc).Some? ==> s.calls[Child(s.calls[c].pc).value].pc.Done?)
    requires AttemptOf(s.calls[c].pc).Some? ==> Awaited(s, AttemptOf(s.calls[c].pc).value) == 0
    ensures Enabled(s, OwnStep(c, s.calls[c].pc))
  {
    assert CallOk(s, s.calls[c]);
    if s.calls[c].pc.InFlight? {
      LeasesUpdate(s.calls, c, s.calls[c].(pc := Done(Returned)), s.calls[c].pc.conn);
    }
  }

  /** An attempt that has not settled has a next step, which brings it on. */
  lemma AttemptStepLowers(s: State, a: nat)
    requires Inv(s) && Awaited(s, a) > 0
    ensures var e := AttemptStep(a, s.attempts[a].phase);
            Enabled(s, e) && Mover(e).None? && a < |Apply(s, e).attempts| && Awaited(Apply(s, e), a) < Awaited(s, a)
  {
    assert AttemptOk(s, s.attempts[a]);
  }

  lemma ChildLowers(s: State, s': State, mover: Option<nat>, c: nat, child: nat)
    requires c < child < |s.calls| && Child(s.calls[c].pc) == Some(child) && OthersStay(s, s', mover) && mover != Some(c)
    requires Remaining(s', child) < Remaining(s, child)
    ensures Remaining(s', c) < Remaining(s, c)
  {
  }

  lemma AttemptLowers(s: State, s': State, c: nat, a: nat)
    requires c < |s.calls| && AttemptOf(s.calls[c].pc) == Some(a) && OthersStay(s, s', None) && Awaited(s', a) < Awaited(s, a)
    ensures Remaining(s', c) < Remaining(s, c)
  {
  }

  lemma {:induction false} NextStepLowers(s: State, c: nat)
    requires Inv(s) && WaitsOk(s) && c < |s.calls| && !s.calls[c].pc.Done?
    ensures var e := NextStep(s, c);
            Enabled(s, e) && c < |Apply(s, e).calls| && Remaining(Apply(s, e), c) < Remaining(s, c)
    decreases |s.calls| - c
  {
    var pc, e := s.calls[c].pc, NextStep(s, c);
    assert WaitOk(s, c, pc);
    if Child(pc).Some? && !s.calls[Child(pc).value].pc.Done? {
      NextStepLowers(s, Child(pc).value);
      OthersAreKept(s, e);
      ChildLowers(s, Apply(s, e), Mover(e), c, Child(pc).value);
    } else if AttemptOf(pc).Some? && Awaited(s, AttemptOf(pc).value) > 0 {
      AttemptStepLowers(s, AttemptOf(pc).value);
      OthersAreKept(s, e);
      AttemptLowers(s, Apply(s, e), c, AttemptOf(pc).value);
    } else {
      OwnStepEnabled(s, c);
      MoverMovesOn(s, e);
    }
  }

  // -------------------------------------------------------------------------
  // Over whole runs
  // -------------------------------------------------------------------------

  lemma {:induction false} ReachableWaits(states: seq<State>, i: nat)
    requires Run(states) && i < |states|
    ensures WaitsOk(states[i])
  {
    if i > 0 {
      ReachableWaits(states, i - 1);
      ReachableKeeps(states, i - 1);
      var e := StepTaken(states, i - 1);
      WaitsKept(states[i - 1], e);
    }
  }

  /** Whatever else happens, an unfinished call has a step to take, of its own or of what it waits for, that brings it closer to its end. */
  lemma NeverStuck(states: seq<State>, i: nat, c: nat)
    requires Run(states) && i < |states| && c < |states[i].calls| && !states[i].calls[c].pc.Done?
    ensures var s := states[i];
            exists e :: Enabled(s, e) && c < |Apply(s, e).calls| && Remaining(Apply(s, e), c) < Remaining(s, c)
  {
    ReachableKeeps(states, i);
    ReachableWaits(states, i);
    NextStepLowers(states[i], c);
  }

  /** A step of a call brings it closer to its end, and no step of the run takes any call further away. */
  lemma StepsLower(states: seq<State>, i: nat, e: Event, c: nat)
    requires Run(states) && i + 1 < |states| && Enabled(states[i], e) && states[i + 1] == Apply(states[i], e) && c < |states[i].calls|
    ensures c < |states[i + 1].calls| && Remaining(states[i + 1], c) <= Remaining(states[i], c)
    ensures Mover(e) == Some(c) ==> Remaining(states[i + 1], c) < Remaining(states[i], c)
  {
    ReachableKeeps(states, i);
    ReachableWaits(states, i);
    OthersAreKept(states[i], e);
    if Mover(e).Some? { MoverMovesOn(states[i], e); }
    NothingIsRaised(states[i], states[i + 1], Mover(e), c);
  }

  /** How many of the steps from `i` to `j` were steps of a call. */
  ghost function OwnSteps(states: seq<State>, i: nat, j: nat, c: nat): nat
    requires i <= j < |states|
  {
    if i == j then 0 else OwnSteps(states, i, j - 1, c) + (if MovedAt(states, j - 1, c) then 1 else 0)
  }

  /** The step from `k` on was one of the call. */
  ghost predicate MovedAt(states: seq<State>, k: nat, c: nat)
    requires k + 1 < |states|
  {
    exists e :: Enabled(states[k], e) && states[k + 1] == Apply(states[k], e) && Mover(e) == Some(c)
  }

  /** The step from `k` on brings the call closer if it was its own, and never takes it further away. */
  ghost predicate Lowers(states: seq<State>, k: nat, c: nat)
    requires k + 1 < |states|
  {
    c < |states[k].calls| ==>
      && c < |states[k + 1].calls|
      && Remaining(states[k + 1], c) + (if MovedAt(states, k, c) then 1 else 0) <= Remaining(states[k], c)
  }

  lemma StepCounts(states: seq<State>, k: nat, c: nat)
    requires Run(states) && k + 1 < |states|
    ensures Lowers(states, k, c)
  {
    if c < |states[k].calls| {
      if MovedAt(states, k, c) {
        var e :| Enabled(states[k], e) && states[k + 1] == Apply(states[k], e) && Mover(e) == Some(c);
        StepsLower(states, k, e, c);
      } else {
        var e := StepTaken(states, k);
        StepsLower(states, k, e, c);
      }
    }
  }

  /** A call takes no more steps than it had left, in any run. */
  lemma CallsEnd(states: seq<State>, i: nat, j: nat, c: nat)
    requires Run(states) && i <= j < |states| && c < |states[i].calls|
    ensures c < |states[j].calls| && OwnSteps(states, i, j, c) + Remaining(states[j], c) <= Remaining(states[i], c)
  {
    forall k: nat | k + 1 < |states| ensures Lowers(states, k, c) { StepCounts(states, k, c); }
    CountAlong(states, i, j, c);
  }

  lemma {:induction false} CountAlong(states: seq<State>, i: nat, j: nat, c: nat)
    requires forall k: nat :: k + 1 < |states| ==> Lowers(states, k, c)
    requires i <= j < |states| && c < |states[i].calls|
    ensures c < |states[j].calls| && OwnSteps(states, i, j, c) + Remaining(states[j], c) <= Remaining(states[i], c)
  {
    if i < j {
      CountAlong(states, i, j - 1, c);
      assert Lowers(states, j - 1, c);
    }
  }
}
