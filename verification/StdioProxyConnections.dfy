/** What the steps outside the calls make of connections and attempts, and where metadata comes from. */
module StdioProxyConnections {
  import opened Options
  import opened StdioProxy
  import opened StdioProxyRuns

  /** The step of a run by this event. */
  ghost predicate StepBy(states: seq<State>, i: nat, e: Event) {
    Run(states) && i + 1 < |states| && Enabled(states[i], e) && states[i + 1] == Apply(states[i], e)
  }

  /** The connection of this attempt is installed: nothing is active yet, or what it replaces still is. */
  predicate Installs(s: State, a: Attempt) {
    match a.kind
    case Initial => s.backend.None?
    case Reconnect(failed) => s.backend == Some(failed)
  }

  /**
   A finished attempt resolves to the connection that is active then: its own, if that is installed, and otherwise the
   one that was active, and its own is retired. A connection that is replaced is retired and its metadata dropped.
   */
  lemma FinishedAttemptIs(states: seq<State>, i: nat, a: nat)
    requires StepBy(states, i, AttemptFinishes(a))
    ensures var s, s' := states[i], states[i + 1]; var attempt, own := s.attempts[a], s.attempts[a].phase.conn;
            && |s'.attempts| == |s.attempts| && |s'.conns| == |s.conns|
            && s'.backend.Some? && s'.attempts[a].phase == Resolved(s'.backend.value)
            && s'.backend == (if Installs(s, attempt) then Some(own) else s.backend)
            && (s'.conns[own].retired <==> !Installs(s, attempt))
            && (Installs(s, attempt) && attempt.kind.Reconnect? ==> s'.conns[attempt.kind.failed].retired && s'.readOnly.None? && s'.metadataGeneration.None?)
            && forall g :: 0 <= g < |s.conns| && g != own && !(attempt.kind.Reconnect? && g == attempt.kind.failed) ==> s'.conns[g] == s.conns[g]
  {
    ReachableKeeps(states, i);
    assert AttemptOk(states[i], states[i].attempts[a]);
  }

  /** After a shutdown every connection that is active or was retired is closed, whatever its leases. */
  lemma ShutDownCloses(states: seq<State>, i: nat, g: nat)
    requires StepBy(states, i, ShutDown) && g < |states[i].conns|
    ensures var s, s' := states[i], states[i + 1];
            && |s'.conns| == |s.conns|
            && (s.backend == Some(g) || s.conns[g].retired ==> s'.conns[g].closedFor.Some?)
            && (s.conns[g].closedFor.None? && s'.conns[g].closedFor.Some? ==> s'.conns[g].closedFor == Some(Shutdown))
  {
    ReachableKeeps(states, i);
  }

  /** A drain that takes too long closes the connection; a connection that has closed is forgotten. */
  lemma DrainsEnd(states: seq<State>, i: nat, g: nat, e: Event)
    requires StepBy(states, i, e) && (e == TimerFires(g) || e == CloseSettles(g))
    ensures var s, s' := states[i], states[i + 1];
            && g < |s.conns| == |s'.conns| && s'.conns[g].closedFor.Some? && (e.TimerFires? ==> !s'.conns[g].timerArmed)
            && (s.conns[g].closedFor.None? ==> s'.conns[g].closedFor == Some(DrainTimeout))
            && s'.retiredSet == (if e.CloseSettles? then s.retiredSet - {g} else s.retiredSet)
            && forall h :: 0 <= h < |s.conns| && h != g ==> s'.conns[h] == s.conns[h]
  {
  }

  // -------------------------------------------------------------------------
  // Attempts are shared
  // -------------------------------------------------------------------------

  /** A call needs a first connection, or a replacement of the one it failed on, and none is being made. */
  predicate NeedsAttempt(s: State, e: Event)
    requires Enabled(s, e)
  {
    || (e.EnsureConnected? && s.backend.None? && s.initial.None?)
    || (e.StartReconnect? && s.backend.None? && s.initial.None?)
    || (e.StartReconnect? && s.backend == Some(s.calls[e.c].pc.conn) && s.reconnect.None?)
  }

  /** An attempt begins exactly when a call needs a connection and none is being made; otherwise the call awaits the pending one. */
  lemma AttemptsAreShared(s: State, e: Event)
    requires Enabled(s, e)
    ensures |Apply(s, e).attempts| == |s.attempts| + (if NeedsAttempt(s, e) then 1 else 0)
    ensures e.EnsureConnected? && s.backend.None? && s.initial.Some? ==>
              e.c < |Apply(s, e).calls| && Apply(s, e).calls[e.c].pc.AwaitingInitial? && Apply(s, e).calls[e.c].pc.attempt == s.initial.value
    ensures e.StartReconnect? && s.backend == Some(s.calls[e.c].pc.conn) && s.reconnect.Some? ==>
              e.c < |Apply(s, e).calls| && Apply(s, e).calls[e.c].pc.AwaitingReconnect? && Apply(s, e).calls[e.c].pc.attempt == s.reconnect.value
    ensures NeedsAttempt(s, e) ==>
              Apply(s, e).attempts == s.attempts + [Attempt(if s.backend.None? then Initial else Reconnect(s.backend.value), Connecting)]
  {
    if e.EnsureConnected? || e.StartReconnect? {
      ConnectsOnce(s, e);
    } else if e.AttemptCreates? || e.AttemptFails? || e.AttemptFinishes? || e.TimerFires? || e.CloseSettles? || e.ShutDown? || e.NewCall? {
    } else {
      CallsMakeNone(s, e);
    }
  }

  lemma CallsMakeNone(s: State, e: Event)
    requires Enabled(s, e) && (e.ResolveProof? || e.ResumeProof? || e.ResumeInitial? || e.TakeLease? || e.Settle? || e.ResumeReconnect? || e.StoreList? || e.ResumeRefresh?)
    ensures Apply(s, e).attempts == s.attempts
  {
  }

  lemma ConnectsOnce(s: State, e: Event)
    requires Enabled(s, e) && (e.EnsureConnected? || e.StartReconnect?)
    ensures |Apply(s, e).attempts| == |s.attempts| + (if NeedsAttempt(s, e) then 1 else 0)
    ensures e.EnsureConnected? && s.backend.None? && s.initial.Some? ==>
              e.c < |Apply(s, e).calls| && Apply(s, e).calls[e.c].pc.AwaitingInitial? && Apply(s, e).calls[e.c].pc.attempt == s.initial.value
    ensures e.StartReconnect? && s.backend == Some(s.calls[e.c].pc.conn) && s.reconnect.Some? ==>
              e.c < |Apply(s, e).calls| && Apply(s, e).calls[e.c].pc.AwaitingReconnect? && Apply(s, e).calls[e.c].pc.attempt == s.reconnect.value
    ensures NeedsAttempt(s, e) ==>
              Apply(s, e).attempts == s.attempts + [Attempt(if s.backend.None? then Initial else Reconnect(s.backend.value), Connecting)]
  {
  }

  // -------------------------------------------------------------------------
  // Where proofs come from
  // -------------------------------------------------------------------------

  /** At this step connection `g` answered a listing, and these were the tools it called read-only. */
  ghost predicate AnswersListing(s: State, s': State, c: nat, g: nat, names: set<Tool>) {
    && c < |s.calls| && s.calls[c].policy.ListTools? && s.calls[c].pc.InFlight? && s.calls[c].pc.conn == g
    && Enabled(s, Settle(c, Succeeded, names)) && s' == Apply(s, Settle(c, Succeeded, names))
  }

  lemma ServedGrows(s: State, e: Event)
    requires Enabled(s, e)
    ensures Apply(s, e).served == if e.Settle? && e.outcome.Succeeded? && s.calls[e.c].policy.ListTools? then s.served + {(s.calls[e.c].pc.conn, e.names)} else s.served
  {
    if e.Settle? {
    } else if e.ResolveProof? || e.ResumeProof? || e.EnsureConnected? || e.ResumeInitial? || e.TakeLease? {
      BindingServesNothing(s, e);
    } else {
      OthersServeNothing(s, e);
    }
  }

  lemma BindingServesNothing(s: State, e: Event)
    requires Enabled(s, e) && (e.ResolveProof? || e.ResumeProof? || e.EnsureConnected? || e.ResumeInitial? || e.TakeLease?)
    ensures Apply(s, e).served == s.served
  {
  }

  lemma OthersServeNothing(s: State, e: Event)
    requires Enabled(s, e) && !(e.Settle? || e.ResolveProof? || e.ResumeProof? || e.EnsureConnected? || e.ResumeInitial? || e.TakeLease?)
    ensures Apply(s, e).served == s.served
  {
  }

  /** Whatever a tool is proven by was really answered by that very connection before. */
  lemma {:induction false} ServedWasAnswered(states: seq<State>, i: nat, g: nat, names: set<Tool>)
    requires Run(states) && i < |states| && (g, names) in states[i].served
    ensures exists k, j, c: nat :: 0 <= k < i && j == k + 1 && AnswersListing(states[k], states[j], c, g, names)
  {
    assert i > 0;
    var k := i - 1;
    var e := StepTaken(states, k);
    ServedGrows(states[k], e);
    if (g, names) in states[k].served {
      ServedWasAnswered(states, k, g, names);
    } else {
      assert AnswersListing(states[k], states[i], e.c, g, names);
    }
  }
}
