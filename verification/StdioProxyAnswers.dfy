/** When a tool call of the proxy ends, with what answer, and when it goes on to its second run. */
module StdioProxyAnswers {
  import opened Options
  import opened StdioProxy
  import opened StdioProxyRuns
  import StdioProxyProgress

  /** The step from `i` on, by `e`, of a tool call that has not finished. */
  ghost predicate CallStep(states: seq<State>, i: nat, e: Event, c: nat) {
    && Run(states) && i + 1 < |states| && Enabled(states[i], e) && states[i + 1] == Apply(states[i], e)
    && c < |states[i].calls| && states[i].calls[c].policy.ToolCall? && !states[i].calls[c].pc.Done?
  }

  /** The call was sent once, and the network failed while its tool was proven read-only. */
  predicate LostProven(call: Call) { |call.sent| == 1 && call.sent[0].outcome == Failed(Network) && call.sent[0].authorized }

  predicate LostUnproven(call: Call) { |call.sent| == 1 && call.sent[0].outcome == Failed(Network) && !call.sent[0].authorized }

  /** The tools of the active generation are known. */
  predicate MetadataKnown(s: State) { s.metadataGeneration.Some? && s.metadataGeneration == s.backend }

  /** The step decides from known metadata whether the tool is read-only. */
  predicate TakesProof(s: State, e: Event, c: nat)
    requires c < |s.calls| && Enabled(s, e)
  {
    || (e == ResolveProof(c) && MetadataKnown(s))
    || (e == ResumeProof(c) && MetadataKnown(s) && s.calls[s.calls[c].pc.child].pc.answer == Returned)
  }

  predicate ListedReadOnly(s: State, tool: Tool) { s.readOnly.Some? && tool in s.readOnly.value }

  /** The proof a call waited for was not obtained: the listing failed, or the generation changed meanwhile. */
  predicate ProofMissing(s: State, e: Event, c: nat)
    requires c < |s.calls| && Enabled(s, e)
  {
    e == ResumeProof(c) && !(MetadataKnown(s) && s.calls[s.calls[c].pc.child].pc.answer == Returned)
  }

  predicate ConnectionRejected(s: State, e: Event, c: nat)
    requires c < |s.calls| && Enabled(s, e)
  {
    (e.ResumeInitial? || e.ResumeReconnect?) && e.c == c && s.attempts[s.calls[c].pc.attempt].phase.Rejected?
  }

  /** After the reconnection, or once another connection is found active, the call may go on. */
  predicate Reconnected(s: State, e: Event, c: nat)
    requires c < |s.calls| && Enabled(s, e)
  {
    || (e == ResumeReconnect(c) && s.attempts[s.calls[c].pc.attempt].phase.Resolved?)
    || (e == StartReconnect(c) && s.backend.Some? && s.backend.value != s.calls[c].pc.conn)
  }

  /** The lease would be of another generation than the proof, for the third time. */
  predicate BoundTooOften(s: State, e: Event, c: nat)
    requires c < |s.calls| && Enabled(s, e)
  {
    && e == TakeLease(c) && s.calls[c].pc.exec.tries + 1 >= 3
    && s.calls[c].pc.lease.expected.Some? && s.calls[c].pc.lease.expected.value != s.calls[c].pc.conn
  }

  /** A send ends the call when it succeeded, when the tool itself failed, or when it was the second one. */
  predicate SendEnds(s: State, e: Event, c: nat)
    requires c < |s.calls|
  {
    e.Settle? && e.c == c && (e.outcome == Succeeded || e.outcome == Failed(Application) || |s.calls[c].sent| == 2)
  }

  predicate ReplayRefused(s: State, e: Event, c: nat)
    requires c < |s.calls| && Enabled(s, e) && s.calls[c].policy.ToolCall?
  {
    TakesProof(s, e, c) && LostProven(s.calls[c]) && !ListedReadOnly(s, s.calls[c].policy.tool)
  }

  /** Everything that ends a tool call. */
  predicate Ends(s: State, e: Event, c: nat)
    requires c < |s.calls| && Enabled(s, e) && s.calls[c].policy.ToolCall?
  {
    || SendEnds(s, e, c) || ConnectionRejected(s, e, c) || ProofMissing(s, e, c) || BoundTooOften(s, e, c) || ReplayRefused(s, e, c)
    || (Reconnected(s, e, c) && LostUnproven(s.calls[c]))
  }

  /** The call is in its second run. */
  predicate SecondRunOf(pc: Pc) {
    match pc
    case Proving(exec) => exec.second
    case AwaitingList(exec, _) => exec.second
    case Leasing(exec, _) => exec.second
    case AwaitingInitial(exec, _, _) => exec.second
    case Bound(exec, _, _) => exec.second
    case InFlight(second, _) => second
    case _ => false
  }

  /** What a step makes of a tool call: its end and answer, its second run, its sends. */
  ghost predicate Decided(s: State, e: Event, c: nat, s': State)
    requires c < |s.calls| && Enabled(s, e) && s.calls[c].policy.ToolCall?
  {
    && c < |s'.calls|
    && (s'.calls[c].pc.Done? <==> Ends(s, e, c))
    && (s'.calls[c].pc == Done(ReplayNotAuthorized) <==> ReplayRefused(s, e, c))
    && (SecondRunOf(s'.calls[c].pc) && !SecondRunOf(s.calls[c].pc) <==> Reconnected(s, e, c) && !LostUnproven(s.calls[c]))
    && (|s'.calls[c].sent| != |s.calls[c].sent| <==> Sends(s, e, c))
    && (Sends(s, e, c) ==> |s'.calls[c].sent| == |s.calls[c].sent| + 1 && s'.calls[c].sent[|s.calls[c].sent|].conn == s.calls[c].pc.conn)
  }

  /** A bound call is sent, unless its connection is not of the generation of its proof. */
  predicate Sends(s: State, e: Event, c: nat)
    requires c < |s.calls| && Enabled(s, e)
  {
    e == TakeLease(c) && !(s.calls[c].pc.lease.expected.Some? && s.calls[c].pc.lease.expected.value != s.calls[c].pc.conn)
  }

  predicate Unfinished(s: State, c: nat) { c < |s.calls| && s.calls[c].policy.ToolCall? && !s.calls[c].pc.Done? }

  /** Nothing is decided about a call by the steps of others. */
  lemma OthersQuiet(s: State, e: Event, c: nat)
    requires Enabled(s, e) && Unfinished(s, c) && StdioProxyProgress.Mover(e) != Some(c)
    ensures !Ends(s, e, c) && !ReplayRefused(s, e, c) && !Reconnected(s, e, c) && !Sends(s, e, c)
  {
  }

  lemma OthersDecided(s: State, e: Event, c: nat)
    requires Enabled(s, e) && Unfinished(s, c) && StdioProxyProgress.Mover(e) != Some(c)
    ensures Decided(s, e, c, Apply(s, e))
  {
    OthersQuiet(s, e, c);
    StdioProxyProgress.OthersAreKept(s, e);
    var s' := Apply(s, e);
    assert s'.calls[c] == s.calls[c];
  }

  lemma ProofDecided(s: State, e: Event, c: nat)
    requires Inv(s) && Enabled(s, e) && Unfinished(s, c) && (e == ResolveProof(c) || e == ResumeProof(c))
    ensures Decided(s, e, c, Apply(s, e))
  {
    assert CallOk(s, s.calls[c]);
  }

  lemma BindingDecided(s: State, e: Event, c: nat)
    requires Inv(s) && Enabled(s, e) && Unfinished(s, c) && (e == EnsureConnected(c) || (e.ResumeInitial? && e.c == c))
    ensures Decided(s, e, c, Apply(s, e))
  {
    assert CallOk(s, s.calls[c]);
  }

  lemma LeaseDecided(s: State, c: nat)
    requires Inv(s) && Enabled(s, TakeLease(c)) && Unfinished(s, c)
    ensures Decided(s, TakeLease(c), c, DoTakeLease(s, c))
  {
    assert CallOk(s, s.calls[c]);
  }

  lemma SettleDecided(s: State, e: Event, c: nat)
    requires Inv(s) && Enabled(s, e) && Unfinished(s, c) && e.Settle? && e.c == c
    ensures Decided(s, e, c, Apply(s, e))
  {
    assert CallOk(s, s.calls[c]);
  }

  lemma LossDecided(s: State, c: nat)
    requires Inv(s) && Enabled(s, StartReconnect(c)) && Unfinished(s, c)
    ensures Decided(s, StartReconnect(c), c, DoStartReconnect(s, c))
  {
    assert CallOk(s, s.calls[c]);
  }

  lemma ReconnectionDecided(s: State, c: nat)
    requires Inv(s) && Enabled(s, ResumeReconnect(c)) && Unfinished(s, c)
    ensures Decided(s, ResumeReconnect(c), c, DoResumeReconnect(s, c))
  {
    assert CallOk(s, s.calls[c]);
    if s.attempts[s.calls[c].pc.attempt].phase.Resolved? { ResolvedDecided(s, c); } else { RejectedDecided(s, c); }
  }

  predicate Awaits(s: State, c: nat) {
    && Enabled(s, ResumeReconnect(c)) && Unfinished(s, c)
    && |s.calls[c].sent| == 1 && s.calls[c].sent[0].outcome == Failed(s.calls[c].pc.kind)
  }

  lemma ResolvedDecided(s: State, c: nat)
    requires Awaits(s, c) && s.attempts[s.calls[c].pc.attempt].phase.Resolved?
    ensures Decided(s, ResumeReconnect(c), c, DoResumeReconnect(s, c))
  {
  }

  lemma RejectedDecided(s: State, c: nat)
    requires Awaits(s, c) && s.attempts[s.calls[c].pc.attempt].phase.Rejected?
    ensures Decided(s, ResumeReconnect(c), c, DoResumeReconnect(s, c))
  {
  }

  lemma StepDecided(s: State, e: Event, c: nat)
    requires Inv(s) && Enabled(s, e) && Unfinished(s, c)
    ensures Decided(s, e, c, Apply(s, e))
  {
    assert CallOk(s, s.calls[c]);
    if StdioProxyProgress.Mover(e) != Some(c) {
      OthersDecided(s, e, c);
    } else if e.ResolveProof? || e.ResumeProof? {
      ProofDecided(s, e, c);
    } else if e.EnsureConnected? || e.ResumeInitial? {
      BindingDecided(s, e, c);
    } else if e.TakeLease? {
      LeaseDecided(s, c);
    } else if e.Settle? {
      SettleDecided(s, e, c);
    } else if e.StartReconnect? {
      LossDecided(s, c);
    } else if e.ResumeReconnect? {
      ReconnectionDecided(s, c);
    } else {
      assert false;
    }
  }

  /** A tool call ends exactly at these steps, and its answer follows from its sends. */
  lemma FinishesIff(states: seq<State>, i: nat, e: Event, c: nat)
    requires CallStep(states, i, e, c)
    ensures c < |states[i + 1].calls| && (states[i + 1].calls[c].pc.Done? <==> Ends(states[i], e, c))
    ensures Ends(states[i], e, c) ==> states[i + 1].calls[c].pc.answer in Answers(states[i + 1].calls[c].sent)
  {
    ReachableKeeps(states, i);
    StepDecided(states[i], e, c);
    ReachableCall(states, i + 1, c);
    RunEvolves(states);
    LogGrowsInRun(states, i, i + 1, c);
  }

  /** A second send is refused exactly when one send of a proven call was lost and the proof of the second run does not list its tool. */
  lemma ReplayRefusedIff(states: seq<State>, i: nat, e: Event, c: nat)
    requires CallStep(states, i, e, c)
    ensures c < |states[i + 1].calls| && (states[i + 1].calls[c].pc == Done(ReplayNotAuthorized) <==> ReplayRefused(states[i], e, c))
  {
    ReachableKeeps(states, i);
    StepDecided(states[i], e, c);
  }

  /** The second run begins exactly when a connection is found again, unless the first send was lost unproven. */
  lemma SecondRunIff(states: seq<State>, i: nat, e: Event, c: nat)
    requires CallStep(states, i, e, c)
    ensures c < |states[i + 1].calls|
    ensures SecondRunOf(states[i + 1].calls[c].pc) && !SecondRunOf(states[i].calls[c].pc)
            <==> Reconnected(states[i], e, c) && !LostUnproven(states[i].calls[c])
  {
    ReachableKeeps(states, i);
    StepDecided(states[i], e, c);
  }

  /** A call is sent exactly when it leases the connection of its proof, and to that connection. */
  lemma SentIff(states: seq<State>, i: nat, e: Event, c: nat)
    requires CallStep(states, i, e, c)
    ensures c < |states[i + 1].calls|
    ensures var sent, sent' := states[i].calls[c].sent, states[i + 1].calls[c].sent;
            && (|sent'| != |sent| <==> Sends(states[i], e, c))
            && (Sends(states[i], e, c) ==> |sent'| == |sent| + 1 && sent'[|sent|].conn == states[i].calls[c].pc.conn)
  {
    ReachableKeeps(states, i);
    StepDecided(states[i], e, c);
  }
}
