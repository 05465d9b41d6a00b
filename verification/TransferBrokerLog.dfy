/** What the broker's tickets are, read off the log of events alone: who stored them, and until when they stand. */
module TransferBrokerLog {
  import opened Options
  import opened TransferBroker
  import opened TransferBrokerRuns

  // -------------------------------------------------------------------------
  // The log
  // -------------------------------------------------------------------------

  /** How many issues began before event `i`. */
  function ReservesBefore(es: seq<Event>, i: nat): nat
    requires i <= |es|
  {
    if i == 0 then 0 else ReservesBefore(es, i - 1) + (if es[i - 1].Reserve? then 1 else 0)
  }

  /** Event `r` began issue `n`. */
  predicate Begins(es: seq<Event>, r: nat, n: nat) { r < |es| && es[r].Reserve? && ReservesBefore(es, r) == n }

  /** Event `k` stored this entry: for the caller who reserved it, with the copy itself, and for the time to live from then on. */
  predicate StoredBy(es: seq<Event>, ttl: nat, k: nat, r: nat, e: Entry) {
    && r < k < |es| && es[k].Store? && Begins(es, r, es[k].issue)
    && e == Entry(es[k].ticket, es[r].owner, es[k].buffer, es[r].size, es[k].now + ttl)
  }

  /** Events that look at the clock drop what has expired by then. */
  predicate Sweeps(e: Event) { e.Reserve? || e.Store? || e.Consume? || e.Sweep? }

  /** The event takes the entry away: it disposes of everything, comes after its time, or is its consumption. */
  predicate TakesAway(event: Event, e: Entry) {
    || event.Dispose?
    || (Sweeps(event) && e.expiresAt <= event.now)
    || (event.Consume? && event.ticket == e.ticket && event.caller == e.owner)
  }

  /** Stored by event `k`, and not taken away by any event between it and `i`. */
  predicate StandsSince(es: seq<Event>, ttl: nat, k: nat, r: nat, e: Entry, i: nat) {
    StoredBy(es, ttl, k, r, e) && k < i <= |es| && forall j :: k < j < i ==> !TakesAway(es[j], e)
  }

  predicate Stands(es: seq<Event>, ttl: nat, e: Entry, i: nat) {
    exists k: nat, r: nat :: r < k < |es| && StandsSince(es, ttl, k, r, e, i)
  }

  // -------------------------------------------------------------------------
  // Issues and their reservations
  // -------------------------------------------------------------------------

  lemma {:induction false} ReservesGrow(es: seq<Event>, i: nat, j: nat)
    requires i <= j <= |es|
    ensures ReservesBefore(es, i) <= ReservesBefore(es, j)
    ensures i < j && es[i].Reserve? ==> ReservesBefore(es, i) < ReservesBefore(es, j)
  {
    if i < j { ReservesGrow(es, i, j - 1); }
  }

  lemma BeginsOnce(es: seq<Event>, r: nat, q: nat, n: nat)
    requires Begins(es, r, n) && Begins(es, q, n)
    ensures r == q
  {
    if r < q { ReservesGrow(es, r, q); }
    if q < r { ReservesGrow(es, q, r); }
  }

  /** An issue has the size and the owner of its reservation. */
  predicate IssueFrom(es: seq<Event>, r: nat, n: nat, issue: Issue) {
    Begins(es, r, n) && issue.size == es[r].size && issue.owner == es[r].owner
  }

  predicate IssuesFrom(es: seq<Event>, i: nat, issues: seq<Issue>)
    requires i <= |es|
  {
    |issues| == ReservesBefore(es, i) && forall n :: 0 <= n < |issues| ==> IssueKnown(es, i, n, issues[n])
  }

  predicate IssueKnown(es: seq<Event>, i: nat, n: nat, issue: Issue) { exists r: nat :: r < i && IssueFrom(es, r, n, issue) }

  predicate SameIssues(issues: seq<Issue>, before: seq<Issue>) {
    |before| <= |issues| && forall n :: 0 <= n < |before| ==> issues[n].size == before[n].size && issues[n].owner == before[n].owner
  }

  lemma IssueStep(s: State, e: Event)
    requires Enabled(s, e)
    ensures var issues := Step(s, e).issues;
            && SameIssues(issues, s.issues) && |issues| == |s.issues| + (if e.Reserve? then 1 else 0)
            && (e.Reserve? ==> issues[|s.issues|].size == e.size && issues[|s.issues|].owner == e.owner)
  {
  }

  lemma IssuesStay(es: seq<Event>, i: nat, s: State)
    requires i < |es| && Enabled(s, es[i]) && IssuesFrom(es, i, s.issues)
    ensures IssuesFrom(es, i + 1, Step(s, es[i]).issues)
  {
    IssueStep(s, es[i]);
    var issues := Step(s, es[i]).issues;
    assert ReservesBefore(es, i + 1) == ReservesBefore(es, i) + (if es[i].Reserve? then 1 else 0);
    forall n | 0 <= n < |issues| ensures IssueKnown(es, i + 1, n, issues[n]) {
      if n < |s.issues| {
        assert IssueKnown(es, i, n, s.issues[n]);
        var r: nat :| r < i && IssueFrom(es, r, n, s.issues[n]);
        assert IssueFrom(es, r, n, issues[n]);
      } else {
        assert es[i].Reserve? && IssueFrom(es, i, n, issues[n]);
      }
    }
  }

  // -------------------------------------------------------------------------
  // Tickets
  // -------------------------------------------------------------------------

  function EntryOf(s: State, e: Event): Entry
    requires e.Store? && e.issue < |s.issues|
  {
    Entry(e.ticket, s.issues[e.issue].owner, e.buffer, s.issues[e.issue].size, e.now + s.broker.ttl)
  }

  lemma LiveIff(tickets: seq<Entry>, now: int, e: Entry)
    ensures e in Live(tickets, now) <==> e in tickets && now < e.expiresAt
  {
    LiveFewer(tickets, now);
  }

  lemma WithoutIff(tickets: seq<Entry>, ticket: string, e: Entry)
    ensures e in WithoutTicket(tickets, ticket) <==> e in tickets && e.ticket != ticket
  {
    WithoutItems(tickets, ticket);
  }

  lemma LiveStaysDistinct(tickets: seq<Entry>, now: int)
    requires DistinctTickets(tickets)
    ensures DistinctTickets(Live(tickets, now))
  {
    LiveDistinct(tickets, now);
  }

  lemma ConsumedTickets(b: Broker, ticket: string, caller: Identity, now: int, e: Entry)
    requires DistinctTickets(b.tickets)
    ensures e in Consumed(b, ticket, caller, now).tickets
            <==> e in b.tickets && now < e.expiresAt && !(e.ticket == ticket && e.owner == caller)
  {
    var live := Live(b.tickets, now);
    LiveIff(b.tickets, now, e);
    LiveStaysDistinct(b.tickets, now);
    WithoutIff(live, ticket, e);
    var found := FindTicket(live, ticket);
    if found.Some? && e in live && e.ticket == ticket { OneTicket(live, e, found.value); }
  }

  lemma OneTicket(tickets: seq<Entry>, a: Entry, b: Entry)
    requires DistinctTickets(tickets) && a in tickets && b in tickets && a.ticket == b.ticket
    ensures a == b
  {
    var i :| 0 <= i < |tickets| && tickets[i] == a;
    var j :| 0 <= j < |tickets| && tickets[j] == b;
  }

  lemma StoredTickets(s: State, i: nat, ticket: string, buffer: seq<Byte>, now: int, e: Entry)
    requires Enabled(s, Store(i, ticket, buffer, now))
    ensures e in Step(s, Store(i, ticket, buffer, now)).broker.tickets
            <==> (e in s.broker.tickets && now < e.expiresAt) || e == EntryOf(s, Store(i, ticket, buffer, now))
  {
    LiveIff(s.broker.tickets, now, e);
  }

  predicate TicketAfter(s: State, event: Event, e: Entry)
    requires Enabled(s, event)
  {
    e in Step(s, event).broker.tickets
    <==> (e in s.broker.tickets && !TakesAway(event, e)) || (event.Store? && e == EntryOf(s, event))
  }

  lemma TicketsAfter(s: State, event: Event, e: Entry)
    requires DistinctTickets(s.broker.tickets) && Enabled(s, event)
    ensures TicketAfter(s, event, e)
  {
    match event
    case Reserve(_, _, now) => LiveIff(s.broker.tickets, now, e);
    case CopyFails(_) =>
    case Store(i, ticket, buffer, now) => StoredTickets(s, i, ticket, buffer, now, e);
    case GiveBack(_) =>
    case Consume(ticket, caller, now) => ConsumedTickets(s.broker, ticket, caller, now, e);
    case CallRelease(_) =>
    case Release(_) =>
    case Sweep(now) => LiveIff(s.broker.tickets, now, e);
    case Dispose =>
  }

  lemma StandsStep(es: seq<Event>, ttl: nat, e: Entry, i: nat)
    requires i < |es|
    ensures Stands(es, ttl, e, i + 1)
            <==> (Stands(es, ttl, e, i) && !TakesAway(es[i], e)) || exists r: nat :: StoredBy(es, ttl, i, r, e)
  {
    if Stands(es, ttl, e, i) && !TakesAway(es[i], e) {
      var k: nat, r: nat :| r < k < |es| && StandsSince(es, ttl, k, r, e, i);
      assert StandsSince(es, ttl, k, r, e, i + 1);
    }
    if r: nat :| StoredBy(es, ttl, i, r, e) {
      assert StandsSince(es, ttl, i, r, e, i + 1);
    }
    if Stands(es, ttl, e, i + 1) {
      var k: nat, r: nat :| r < k < |es| && StandsSince(es, ttl, k, r, e, i + 1);
      if k < i { assert StandsSince(es, ttl, k, r, e, i); }
    }
  }

  lemma StoredIff(es: seq<Event>, s: State, i: nat, ttl: nat, e: Entry)
    requires i < |es| && es[i].Store? && es[i].issue < |s.issues| && IssuesFrom(es, i, s.issues) && s.broker.ttl == ttl
    ensures (exists r: nat :: StoredBy(es, ttl, i, r, e)) <==> e == EntryOf(s, es[i])
  {
    var n := es[i].issue;
    assert IssueKnown(es, i, n, s.issues[n]);
    var q: nat :| q < i && IssueFrom(es, q, n, s.issues[n]);
    if r: nat :| StoredBy(es, ttl, i, r, e) { BeginsOnce(es, r, q, n); }
    if e == EntryOf(s, es[i]) { assert StoredBy(es, ttl, i, q, e); }
  }

  predicate Logged(es: seq<Event>, ttl: nat, s: State, i: nat)
    requires i <= |es|
  {
    s.broker.ttl == ttl && IssuesFrom(es, i, s.issues)
  }

  lemma {:induction false} LogHolds(states: seq<State>, events: seq<Event>, maxTickets: nat, maxTotalBytes: nat, ttl: nat, i: nat)
    requires Run(states, events, Start(maxTickets, maxTotalBytes, ttl)) && i < |states|
    ensures Logged(events, ttl, states[i], i)
  {
    if i > 0 {
      LogHolds(states, events, maxTickets, maxTotalBytes, ttl, i - 1);
      assert Steps(states[i - 1], events[i - 1], states[i]);
      LoggedStep(events, ttl, states[i - 1], i - 1);
    }
  }

  lemma LoggedStep(es: seq<Event>, ttl: nat, s: State, i: nat)
    requires i < |es| && Logged(es, ttl, s, i) && Enabled(s, es[i])
    ensures Logged(es, ttl, Step(s, es[i]), i + 1)
  {
    IssuesStay(es, i, s);
    TtlStays(s, es[i]);
  }

  lemma TtlStays(s: State, e: Event)
    requires Enabled(s, e)
    ensures Step(s, e).broker.ttl == s.broker.ttl
  {
  }

  /** In every run the tickets listed are exactly the entries stored and not taken away since. */
  lemma {:induction false} TicketsStand(states: seq<State>, events: seq<Event>, maxTickets: nat, maxTotalBytes: nat, ttl: nat, i: nat, e: Entry)
    requires Run(states, events, Start(maxTickets, maxTotalBytes, ttl)) && i < |states|
    ensures e in states[i].broker.tickets <==> Stands(events, ttl, e, i)
  {
    if i > 0 {
      var k := i - 1;
      TicketsStand(states, events, maxTickets, maxTotalBytes, ttl, k, e);
      LogHolds(states, events, maxTickets, maxTotalBytes, ttl, k);
      TicketsAreSingleUse(states, events, maxTickets, maxTotalBytes, ttl, k);
      assert Steps(states[k], events[k], states[i]);
      TicketsAfter(states[k], events[k], e);
      StandsStep(events, ttl, e, k);
      if events[k].Store? { StoredIff(events, states[k], k, ttl, e); }
    }
  }

  /** Every ticket ever issued stems from a store, for the caller who reserved it. */
  lemma {:induction false} IssuedIsStored(states: seq<State>, events: seq<Event>, maxTickets: nat, maxTotalBytes: nat, ttl: nat, i: nat, e: Entry)
    requires Run(states, events, Start(maxTickets, maxTotalBytes, ttl)) && i < |states| && e in states[i].issued
    ensures exists k: nat, r: nat :: r < k < i && StoredBy(events, ttl, k, r, e)
  {
    assert i > 0;
    var j := i - 1;
    LogHolds(states, events, maxTickets, maxTotalBytes, ttl, j);
    assert Steps(states[j], events[j], states[i]);
    if e in states[j].issued {
      IssuedIsStored(states, events, maxTickets, maxTotalBytes, ttl, j, e);
    } else {
      assert events[j].Store? && e == EntryOf(states[j], events[j]);
      StoredIff(events, states[j], j, ttl, e);
      var r: nat :| StoredBy(events, ttl, j, r, e);
      assert r < j < i;
    }
  }

  /**
   A consumption hands out an entry exactly when it was stored for this very caller, is not over at that time, and was
   not taken away before; any other call gets nothing.
   */
  lemma ConsumeAnswersIff(states: seq<State>, events: seq<Event>, maxTickets: nat, maxTotalBytes: nat, ttl: nat, i: nat, e: Entry)
    requires Run(states, events, Start(maxTickets, maxTotalBytes, ttl)) && i < |events| && events[i].Consume?
    ensures var asked := events[i];
            && |states[i + 1].transfers| <= |states[i].transfers| + 1
            && (states[i + 1].transfers == states[i].transfers + [Transfer(e, false, false)]
                <==> Stands(events, ttl, e, i) && e.ticket == asked.ticket && e.owner == asked.caller && asked.now < e.expiresAt)
  {
    TicketsStand(states, events, maxTickets, maxTotalBytes, ttl, i, e);
    TicketsAreSingleUse(states, events, maxTickets, maxTotalBytes, ttl, i);
    var s, asked := states[i], events[i];
    assert Steps(s, asked, states[i + 1]);
    ClaimIff(s.broker, asked.ticket, asked.caller, asked.now, e);
    ConsumeStep(s, asked.ticket, asked.caller, asked.now);
    if states[i + 1].transfers == s.transfers + [Transfer(e, false, false)] {
      assert states[i + 1].transfers[|s.transfers|].entry == e;
    }
  }

  lemma ClaimIff(b: Broker, ticket: string, caller: Identity, now: int, e: Entry)
    requires DistinctTickets(b.tickets)
    ensures Claim(b, ticket, caller, now) == Some(e) <==> e in b.tickets && e.ticket == ticket && e.owner == caller && now < e.expiresAt
  {
    var live := Live(b.tickets, now);
    LiveIff(b.tickets, now, e);
    LiveStaysDistinct(b.tickets, now);
    var found := FindTicket(live, ticket);
    if e in live && e.ticket == ticket && found.Some? { OneTicket(live, e, found.value); }
  }

  // -------------------------------------------------------------------------
  // Which reservations are granted
  // -------------------------------------------------------------------------

  predicate Holds(issue: Issue) { issue.phase.Holding? || issue.phase.Failing? }

  function Reserving(issues: seq<Issue>): set<nat> { set k: nat | k < |issues| && Holds(issues[k]) }

  function Unreleased(transfers: seq<Transfer>): set<nat> { set k: nat | k < |transfers| && !transfers[k].released }

  function Unexpired(tickets: seq<Entry>, now: int): set<nat> { set k: nat | k < |tickets| && now < tickets[k].expiresAt }

  lemma {:induction false} HoldersAre(issues: seq<Issue>)
    ensures Holders(issues) == |Reserving(issues)|
  {
    if issues != [] {
      var n := |issues| - 1;
      HoldersAre(issues[..n]);
      assert Reserving(issues) == Reserving(issues[..n]) + (if Holds(issues[n]) then {n} else {});
    }
  }

  lemma {:induction false} FlyingAre(transfers: seq<Transfer>)
    ensures Flying(transfers) == |Unreleased(transfers)|
  {
    if transfers != [] {
      var n := |transfers| - 1;
      FlyingAre(transfers[..n]);
      assert Unreleased(transfers) == Unreleased(transfers[..n]) + (if transfers[n].released then {} else {n});
    }
  }

  lemma {:induction false} LiveAre(tickets: seq<Entry>, now: int)
    ensures |Live(tickets, now)| == |Unexpired(tickets, now)|
  {
    if tickets != [] {
      var n := |tickets| - 1;
      LiveAre(tickets[..n], now);
      assert Unexpired(tickets, now) == Unexpired(tickets[..n], now) + (if now < tickets[n].expiresAt then {n} else {});
    }
  }

  /** What is outstanding leaves room for one more of this size. */
  predicate LeavesRoom(s: State, maxTickets: nat, maxTotalBytes: nat, size: nat, now: int) {
    && |Unexpired(s.broker.tickets, now)| + |Reserving(s.issues)| + |Unreleased(s.transfers)| + 1 <= maxTickets
    && Bytes(Live(s.broker.tickets, now)) + HeldBytes(s.issues) + FlyingBytes(s.transfers) + size <= maxTotalBytes
  }

  /**
   While the broker is disposed of only when idle, a reservation is granted exactly when unexpired tickets, open
   reservations and unfinished transfers leave room for it in number and bytes.
   */
  lemma ReserveGrantedIff(states: seq<State>, events: seq<Event>, maxTickets: nat, maxTotalBytes: nat, ttl: nat, i: nat)
    requires Run(states, events, Start(maxTickets, maxTotalBytes, ttl)) && DisposesOnlyIdle(states, events)
    requires i < |events| && events[i].Reserve?
    ensures var s, e, issues := states[i], events[i], states[i + 1].issues;
            && issues == s.issues + [Issue(e.size, e.owner, issues[|s.issues|].phase)]
            && issues[|s.issues|].phase == if LeavesRoom(s, maxTickets, maxTotalBytes, e.size, e.now) then Holding else Refused
  {
    var s, e := states[i], events[i];
    assert Steps(s, e, states[i + 1]);
    CapacityHolds(states, events, maxTickets, maxTotalBytes, ttl, i);
    HoldersAre(s.issues);
    FlyingAre(s.transfers);
    LiveAre(s.broker.tickets, e.now);
  }
}
