/** Capacity, exact accounting and single use of the transfer broker, over every run. */
module TransferBrokerRuns {
  import opened TransferBroker

  // -------------------------------------------------------------------------
  // Accounting
  // -------------------------------------------------------------------------

  ghost predicate Accounted(s: State) { Exact(s) && WithinBounds(s) && TicketsOk(s.broker.tickets, s.issued) }

  /** Tickets are distinct, and each of them was issued. */
  ghost predicate TicketsOk(tickets: seq<Entry>, issued: seq<Entry>) {
    DistinctTickets(tickets) && forall e :: e in tickets ==> e in issued
  }

  lemma LiveOk(tickets: seq<Entry>, issued: seq<Entry>, now: int)
    requires TicketsOk(tickets, issued)
    ensures TicketsOk(Live(tickets, now), issued)
  {
    LiveFewer(tickets, now);
    LiveDistinct(tickets, now);
  }

  lemma WithoutOk(tickets: seq<Entry>, issued: seq<Entry>, ticket: string)
    requires TicketsOk(tickets, issued)
    ensures TicketsOk(WithoutTicket(tickets, ticket), issued)
  {
    WithoutItems(tickets, ticket);
  }

  /** A ticket not issued before is not listed. */
  lemma NewTicket(tickets: seq<Entry>, issued: seq<Entry>, ticket: string)
    requires TicketsOk(tickets, issued) && !WasIssued(issued, ticket)
    ensures forall x :: x in tickets ==> x.ticket != ticket
  {
    forall x | x in tickets ensures x.ticket != ticket { var i :| 0 <= i < |issued| && issued[i] == x; }
  }

  lemma StoredOk(tickets: seq<Entry>, issued: seq<Entry>, e: Entry)
    requires TicketsOk(tickets, issued) && !WasIssued(issued, e.ticket)
    ensures TicketsOk(tickets + [e], issued + [e])
  {
    NewTicket(tickets, issued, e.ticket);
    AppendDistinct(tickets, e);
  }

  lemma AppendIssue(issues: seq<Issue>, issue: Issue)
    ensures Holders(issues + [issue]) == Holders(issues) + (if issue.phase.Holding? || issue.phase.Failing? then 1 else 0)
    ensures HeldBytes(issues + [issue]) == HeldBytes(issues) + (if issue.phase.Holding? || issue.phase.Failing? then issue.size else 0)
  {
    assert (issues + [issue])[..|issues|] == issues;
  }

  lemma AppendTransfer(transfers: seq<Transfer>, t: Transfer)
    ensures Flying(transfers + [t]) == Flying(transfers) + (if t.released then 0 else 1)
    ensures FlyingBytes(transfers + [t]) == FlyingBytes(transfers) + (if t.released then 0 else t.entry.size)
  {
    assert (transfers + [t])[..|transfers|] == transfers;
  }

  lemma PrunedKeeps(s: State, now: int)
    requires Accounted(s)
    ensures Accounted(s.(broker := Pruned(s.broker, now)))
  {
    LiveFewer(s.broker.tickets, now);
    LiveOk(s.broker.tickets, s.issued, now);
  }

  lemma ReserveKeeps(s: State, size: nat, owner: Identity, now: int)
    requires Accounted(s)
    ensures Accounted(Step(s, Reserve(size, owner, now)))
  {
    PrunedKeeps(s, now);
    AppendIssue(s.issues, Issue(size, owner, Holding));
    AppendIssue(s.issues, Issue(size, owner, Refused));
  }

  lemma StoreKeeps(s: State, i: nat, ticket: string, buffer: seq<Byte>, now: int)
    requires Accounted(s) && Enabled(s, Store(i, ticket, buffer, now))
    ensures NoClamp(s, Store(i, ticket, buffer, now)) && Accounted(Step(s, Store(i, ticket, buffer, now)))
  {
    var e := Entry(ticket, s.issues[i].owner, buffer, s.issues[i].size, now + s.broker.ttl);
    PrunedKeeps(s, now);
    SetIssueCounts(s.issues, i, Ended);
    BytesSnoc(Live(s.broker.tickets, now), e);
    StoredOk(Live(s.broker.tickets, now), s.issued, e);
  }

  lemma GiveBackKeeps(s: State, i: nat)
    requires Accounted(s) && Enabled(s, GiveBack(i))
    ensures NoClamp(s, GiveBack(i)) && Accounted(Step(s, GiveBack(i)))
  {
    SetIssueCounts(s.issues, i, Ended);
  }

  lemma ClaimKeeps(s: State, e: Entry)
    requires Accounted(s) && e in s.broker.tickets
    ensures Accounted(s.(broker := Claimed(s.broker, e), transfers := s.transfers + [Transfer(e, false, false)]))
  {
    TakenOut(s.broker.tickets, e);
    WithoutOk(s.broker.tickets, s.issued, e.ticket);
    AppendTransfer(s.transfers, Transfer(e, false, false));
  }

  lemma ConsumeKeeps(s: State, ticket: string, caller: Identity, now: int)
    requires Accounted(s)
    ensures Accounted(Step(s, Consume(ticket, caller, now)))
  {
    PrunedKeeps(s, now);
    var claim := Claim(s.broker, ticket, caller, now);
    if claim.Some? { ClaimKeeps(s.(broker := Pruned(s.broker, now)), claim.value); }
  }

  lemma ReleaseKeeps(s: State, t: nat)
    requires Accounted(s) && Enabled(s, Release(t))
    ensures NoClamp(s, Release(t)) && Accounted(Step(s, Release(t)))
  {
    SetTransferCounts(s.transfers, t, s.transfers[t].(released := true));
  }

  /** Every step but a disposal keeps the counters exact and the bounds respected, and clamps nothing. */
  lemma StepKeeps(s: State, e: Event)
    requires Accounted(s) && Enabled(s, e) && !e.Dispose?
    ensures NoClamp(s, e) && Accounted(Step(s, e))
  {
    match e
    case Reserve(size, owner, now) => ReserveKeeps(s, size, owner, now);
    case CopyFails(i) => SetIssueCounts(s.issues, i, Failing);
    case Store(i, ticket, buffer, now) => StoreKeeps(s, i, ticket, buffer, now);
    case GiveBack(i) => GiveBackKeeps(s, i);
    case Consume(ticket, caller, now) => ConsumeKeeps(s, ticket, caller, now);
    case CallRelease(t) => SetTransferCounts(s.transfers, t, s.transfers[t].(releaseCalled := true));
    case Release(t) => ReleaseKeeps(s, t);
    case Sweep(now) => PrunedKeeps(s, now);
  }

  ghost predicate DisposesOnlyIdle(states: seq<State>, events: seq<Event>)
    requires |states| == |events| + 1
  {
    forall i :: 0 <= i < |events| && events[i].Dispose? ==> Idle(states[i])
  }

  /** No reservation and no transfer is outstanding. */
  predicate Idle(s: State) { Holders(s.issues) == 0 && Flying(s.transfers) == 0 }

  lemma {:induction false} NoHoldersNoBytes(issues: seq<Issue>)
    requires Holders(issues) == 0
    ensures HeldBytes(issues) == 0
  {
    if issues != [] { NoHoldersNoBytes(issues[..|issues| - 1]); }
  }

  lemma {:induction false} NoneFlyingNoBytes(transfers: seq<Transfer>)
    requires Flying(transfers) == 0
    ensures FlyingBytes(transfers) == 0
  {
    if transfers != [] { NoneFlyingNoBytes(transfers[..|transfers| - 1]); }
  }

  /** A disposal leaves the counters exact exactly when nothing is outstanding. */
  lemma DisposeExactIff(s: State)
    ensures Exact(Step(s, Dispose)) <==> Idle(s)
  {
    if Idle(s) { NoHoldersNoBytes(s.issues); NoneFlyingNoBytes(s.transfers); }
  }

  // -------------------------------------------------------------------------
  // Disposal while something is outstanding
  // -------------------------------------------------------------------------

  /** A run that goes on from a state, and whose further disposals find nothing reserved or in flight. */
  ghost predicate Continues(states: seq<State>, events: seq<Event>, first: State) {
    Run(states, events, first) && DisposesOnlyIdle(states, events)
  }

  /** However the run goes on, what is really held stays within the bounds. */
  ghost predicate StaysWithinBounds(first: State) {
    forall states, events :: Continues(states, events, first) ==> WithinBounds(states[|events|])
  }

  lemma {:induction false} AccountedAlong(states: seq<State>, events: seq<Event>, first: State, i: nat)
    requires Continues(states, events, first) && Accounted(first) && i < |states|
    ensures Accounted(states[i])
  {
    if i > 0 {
      AccountedAlong(states, events, first, i - 1);
      assert Steps(states[i - 1], events[i - 1], states[i]);
      if events[i - 1].Dispose? { DisposeExactIff(states[i - 1]); } else { StepKeeps(states[i - 1], events[i - 1]); }
    }
  }

  /** After a disposal, `n` reservations of nothing are all granted, whatever was outstanding before. */
  lemma {:induction false} ReserveAll(first: State, n: nat) returns (states: seq<State>, events: seq<Event>)
    requires n <= first.broker.maxTickets
    ensures Continues(states, events, Step(first, Dispose))
    ensures var s := states[|events|];
            && s.broker == Disposed(first.broker).(reservedTickets := n) && s.transfers == first.transfers
            && Holders(s.issues) == Holders(first.issues) + n
  {
    if n == 0 {
      states, events := [Step(first, Dispose)], [];
    } else {
      states, events := ReserveAll(first, n - 1);
      var s, e := states[|events|], Reserve(0, Identity("", "", ""), 0);
      states := Extend(states, events, Step(first, Dispose), e);
      events := events + [e];
      AppendIssue(s.issues, Issue(0, Identity("", "", ""), Holding));
    }
  }

  /** After a disposal the limits hold, however the run goes on with further disposals only when idle, exactly when it was idle itself. */
  lemma DisposalIsSafeIff(s: State)
    requires Accounted(s)
    ensures StaysWithinBounds(Step(s, Dispose)) <==> Idle(s)
  {
    if Idle(s) {
      DisposeExactIff(s);
      forall states, events | Continues(states, events, Step(s, Dispose)) ensures WithinBounds(states[|events|]) {
        AccountedAlong(states, events, Step(s, Dispose), |events|);
      }
    } else {
      var states, events := ReserveAll(s, s.broker.maxTickets);
      assert Continues(states, events, Step(s, Dispose)) && !WithinBounds(states[|events|]);
    }
  }

  /**
   While the broker is disposed of only when idle, tickets, reservations and transfers together never exceed the limits,
   the counters say exactly what is outstanding, and no counter is ever clamped.
   */
  lemma {:induction false} CapacityHolds(states: seq<State>, events: seq<Event>, maxTickets: nat, maxTotalBytes: nat, ttl: nat, i: nat)
    requires Run(states, events, Start(maxTickets, maxTotalBytes, ttl)) && DisposesOnlyIdle(states, events) && i < |states|
    ensures Accounted(states[i]) && states[i].broker.maxTickets == maxTickets && states[i].broker.maxTotalBytes == maxTotalBytes
    ensures forall k :: 0 <= k < i ==> Enabled(states[k], events[k]) && NoClamp(states[k], events[k])
    decreases i
  {
    if i > 0 {
      CapacityHolds(states, events, maxTickets, maxTotalBytes, ttl, i - 1);
      var s, e := states[i - 1], events[i - 1];
      assert Steps(s, e, states[i]);
      if e.Dispose? { DisposeExactIff(s); } else { StepKeeps(s, e); }
    }
  }

  /** One more step of a run. */
  lemma Extend(states: seq<State>, events: seq<Event>, first: State, e: Event) returns (longer: seq<State>)
    requires Run(states, events, first) && Enabled(states[|events|], e)
    ensures Run(longer, events + [e], first) && longer == states + [Step(states[|events|], e)]
  {
    longer := states + [Step(states[|events|], e)];
    forall i, j | 0 <= i < |events| + 1 && j == i + 1
      ensures Steps(longer[i], (events + [e])[i], longer[j])
    {
      if i < |events| { assert Steps(states[i], events[i], states[j]); }
    }
  }

  /** Two reservations, though only one is ever counted. */
  lemma TwoReservations() returns (states: seq<State>, events: seq<Event>)
    ensures Run(states, events, Start(1, 10, 5))
    ensures var s, issue := states[|events|], Issue(0, Identity("", "", ""), Holding);
            s == Start(1, 10, 5).(broker := Start(1, 10, 5).broker.(reservedTickets := 1), issues := [issue, issue])
  {
    var first, owner := Start(1, 10, 5), Identity("", "", "");
    events, states := [], [first];
    states := Extend(states, events, first, Reserve(0, owner, 0));
    events := events + [Reserve(0, owner, 0)];
    states := Extend(states, events, first, Dispose);
    events := events + [Dispose];
    states := Extend(states, events, first, Reserve(0, owner, 0));
    events := events + [Reserve(0, owner, 0)];
  }

  /** A disposal between the reservation and the storing of a ticket lets a later ticket exceed the limit. */
  lemma DisposalBreaksCapacity() returns (states: seq<State>, events: seq<Event>)
    ensures Run(states, events, Start(1, 10, 5)) && |states[|events|].broker.tickets| == 2
  {
    var first, owner := Start(1, 10, 5), Identity("", "", "");
    states, events := TwoReservations();
    states := Extend(states, events, first, Store(0, "a", [], 0));
    events := events + [Store(0, "a", [], 0)];
    var a := Entry("a", owner, [], 0, 5);
    assert states[|events|].broker.tickets == [a] && states[|events|].issued == [a];
    assert Live([a], 0) == Live([], 0) + [a] by { assert [a][..0] == []; }
    states := Extend(states, events, first, Store(1, "b", [], 0));
    events := events + [Store(1, "b", [], 0)];
  }

  // -------------------------------------------------------------------------
  // Single use
  // -------------------------------------------------------------------------

  predicate DistinctConsumed(log: seq<Consumption>) { forall i, j :: 0 <= i < j < |log| ==> log[i].entry.ticket != log[j].entry.ticket }

  predicate ConsumedBy(log: seq<Consumption>, ticket: string) { exists i :: 0 <= i < |log| && log[i].entry.ticket == ticket }

  /** A consumption is of an issued ticket, whole, by its own identity, before it expired. */
  predicate ConsumptionOk(issued: seq<Entry>, c: Consumption) {
    c.entry in issued && c.caller == c.entry.owner && c.at < c.entry.expiresAt && |c.entry.buffer| == c.entry.size
  }

  predicate ConsumptionsOk(issued: seq<Entry>, log: seq<Consumption>) {
    DistinctConsumed(log) && forall i :: 0 <= i < |log| ==> ConsumptionOk(issued, log[i])
  }

  ghost predicate Unused(tickets: seq<Entry>, log: seq<Consumption>) { forall e :: e in tickets ==> !ConsumedBy(log, e.ticket) }

  ghost predicate IssuedOk(issued: seq<Entry>) { DistinctTickets(issued) && forall e :: e in issued ==> |e.buffer| == e.size }

  ghost predicate SingleUse(s: State) {
    && TicketsOk(s.broker.tickets, s.issued) && IssuedOk(s.issued)
    && Unused(s.broker.tickets, s.consumptions) && ConsumptionsOk(s.issued, s.consumptions)
  }

  lemma PrunedSingleUse(s: State, now: int)
    requires SingleUse(s)
    ensures SingleUse(s.(broker := Pruned(s.broker, now)))
  {
    LiveOk(s.broker.tickets, s.issued, now);
    LiveFewer(s.broker.tickets, now);
  }

  lemma StoredUnused(tickets: seq<Entry>, issued: seq<Entry>, log: seq<Consumption>, e: Entry)
    requires Unused(tickets, log) && ConsumptionsOk(issued, log) && !WasIssued(issued, e.ticket)
    ensures Unused(tickets + [e], log) && ConsumptionsOk(issued + [e], log)
  {
    forall k | 0 <= k < |log| ensures ConsumptionOk(issued + [e], log[k]) && log[k].entry.ticket != e.ticket {
      assert ConsumptionOk(issued, log[k]);
      var i :| 0 <= i < |issued| && issued[i] == log[k].entry;
    }
  }

  lemma StoreSingleUse(s: State, i: nat, ticket: string, buffer: seq<Byte>, now: int)
    requires SingleUse(s) && Enabled(s, Store(i, ticket, buffer, now))
    ensures SingleUse(Step(s, Store(i, ticket, buffer, now)))
  {
    var e := Entry(ticket, s.issues[i].owner, buffer, s.issues[i].size, now + s.broker.ttl);
    PrunedSingleUse(s, now);
    StoredOk(Live(s.broker.tickets, now), s.issued, e);
    StoredOk(s.issued, s.issued, e);
    StoredUnused(Live(s.broker.tickets, now), s.issued, s.consumptions, e);
  }

  lemma ConsumeSingleUse(s: State, ticket: string, caller: Identity, now: int)
    requires SingleUse(s)
    ensures SingleUse(Step(s, Consume(ticket, caller, now)))
  {
    PrunedSingleUse(s, now);
    ConsumeStep(s, ticket, caller, now);
    var claim := Claim(s.broker, ticket, caller, now);
    if claim.Some? {
      ClaimIs(s.broker, ticket, caller, now);
      ClaimedSingleUse(s.(broker := Pruned(s.broker, now)), claim.value, caller, now);
    }
  }

  function Taken(s: State, e: Entry, caller: Identity, now: int): State {
    s.(broker := Claimed(s.broker, e), transfers := s.transfers + [Transfer(e, false, false)],
       consumptions := s.consumptions + [Consumption(e, caller, now)])
  }

  lemma ConsumeStep(s: State, ticket: string, caller: Identity, now: int)
    ensures var pruned, claim := s.(broker := Pruned(s.broker, now)), Claim(s.broker, ticket, caller, now);
            Step(s, Consume(ticket, caller, now)) == if claim.None? then pruned else Taken(pruned, claim.value, caller, now)
  {
  }

  lemma ClaimIs(b: Broker, ticket: string, caller: Identity, now: int)
    requires Claim(b, ticket, caller, now).Some?
    ensures var e := Claim(b, ticket, caller, now).value;
            e in Live(b.tickets, now) && e.ticket == ticket && e.owner == caller && now < e.expiresAt
  {
    LiveFewer(b.tickets, now);
  }

  lemma ClaimedSingleUse(s: State, e: Entry, caller: Identity, now: int)
    requires SingleUse(s) && e in s.broker.tickets && e.owner == caller && now < e.expiresAt
    ensures SingleUse(Taken(s, e, caller, now))
  {
    WithoutOk(s.broker.tickets, s.issued, e.ticket);
    TakenUnused(s.broker.tickets, s.consumptions, Consumption(e, caller, now));
    TakenOk(s.issued, s.consumptions, Consumption(e, caller, now));
  }

  lemma TakenUnused(tickets: seq<Entry>, log: seq<Consumption>, c: Consumption)
    requires Unused(tickets, log)
    ensures Unused(WithoutTicket(tickets, c.entry.ticket), log + [c])
  {
    WithoutItems(tickets, c.entry.ticket);
    forall x | x in WithoutTicket(tickets, c.entry.ticket) ensures !ConsumedBy(log + [c], x.ticket) {
      assert !ConsumedBy(log, x.ticket);
    }
  }

  lemma TakenOk(issued: seq<Entry>, log: seq<Consumption>, c: Consumption)
    requires ConsumptionsOk(issued, log) && ConsumptionOk(issued, c) && !ConsumedBy(log, c.entry.ticket)
    ensures ConsumptionsOk(issued, log + [c])
  {
  }

  lemma StepSingleUse(s: State, e: Event)
    requires SingleUse(s) && Enabled(s, e)
    ensures SingleUse(Step(s, e))
  {
    match e
    case Reserve(_, _, now) => PrunedSingleUse(s, now);
    case CopyFails(_) =>
    case Store(i, ticket, buffer, now) => StoreSingleUse(s, i, ticket, buffer, now);
    case GiveBack(_) =>
    case Consume(ticket, caller, now) => ConsumeSingleUse(s, ticket, caller, now);
    case CallRelease(_) =>
    case Release(_) =>
    case Sweep(now) => PrunedSingleUse(s, now);
    case Dispose =>
  }

  /** In every run, disposals included: a ticket is consumed at most once, by the identity it was issued to, before it expires. */
  lemma {:induction false} TicketsAreSingleUse(states: seq<State>, events: seq<Event>, maxTickets: nat, maxTotalBytes: nat, ttl: nat, i: nat)
    requires Run(states, events, Start(maxTickets, maxTotalBytes, ttl)) && i < |states|
    ensures SingleUse(states[i])
    decreases i
  {
    if i > 0 {
      TicketsAreSingleUse(states, events, maxTickets, maxTotalBytes, ttl, i - 1);
      assert Steps(states[i - 1], events[i - 1], states[i]);
      StepSingleUse(states[i - 1], events[i - 1]);
    }
  }
}
