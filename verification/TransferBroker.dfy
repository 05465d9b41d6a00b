/** Single-use download tickets: reservations, tickets and transfers in flight share one bounded capacity, under one lock. */
module TransferBroker {
  import opened Options

  type Byte = b: int | 0 <= b < 256

  /** Client, subject and token fingerprint of a caller. */
  datatype Identity = Identity(clientId: string, subject: string, fingerprint: string)

  datatype Entry = Entry(ticket: string, owner: Identity, buffer: seq<Byte>, size: nat, expiresAt: int)

  /** Tickets in the order they were issued, and the counters of what is not a ticket yet or any more. */
  datatype Broker = Broker(
    maxTickets: nat, maxTotalBytes: nat, ttl: nat, tickets: seq<Entry>,
    reservedTickets: nat, reservedBytes: nat, inFlightTransfers: nat, inFlightBytes: nat)

  function Clamped(x: int): nat { if x < 0 then 0 else x }

  function Live(tickets: seq<Entry>, now: int): seq<Entry> {
    if tickets == [] then []
    else Live(tickets[..|tickets| - 1], now) + (if tickets[|tickets| - 1].expiresAt <= now then [] else [tickets[|tickets| - 1]])
  }

  function Bytes(tickets: seq<Entry>): nat {
    if tickets == [] then 0 else Bytes(tickets[..|tickets| - 1]) + tickets[|tickets| - 1].size
  }

  function FindTicket(tickets: seq<Entry>, ticket: string): (e: Option<Entry>)
    ensures e.Some? ==> e.value in tickets && e.value.ticket == ticket
    ensures e.None? ==> forall x :: x in tickets ==> x.ticket != ticket
  {
    if tickets == [] then None else if tickets[0].ticket == ticket then Some(tickets[0]) else FindTicket(tickets[1..], ticket)
  }

  function WithoutTicket(tickets: seq<Entry>, ticket: string): seq<Entry> {
    if tickets == [] then []
    else WithoutTicket(tickets[..|tickets| - 1], ticket) + (if tickets[|tickets| - 1].ticket == ticket then [] else [tickets[|tickets| - 1]])
  }

  // -------------------------------------------------------------------------
  // Operations under the lock
  // -------------------------------------------------------------------------

  function Pruned(b: Broker, now: int): Broker { b.(tickets := Live(b.tickets, now)) }

  predicate HasRoom(b: Broker, size: nat) {
    && |b.tickets| + b.reservedTickets + b.inFlightTransfers < b.maxTickets
    && Bytes(b.tickets) + b.reservedBytes + b.inFlightBytes + size <= b.maxTotalBytes
  }

  function Reserved(b: Broker, size: nat, now: int): Broker {
    var p := Pruned(b, now);
    if HasRoom(p, size) then p.(reservedTickets := p.reservedTickets + 1, reservedBytes := p.reservedBytes + size) else p
  }

  function ReservationReleased(b: Broker, size: nat): Broker {
    b.(reservedTickets := Clamped(b.reservedTickets - 1), reservedBytes := Clamped(b.reservedBytes - size))
  }

  function Stored(b: Broker, ticket: string, owner: Identity, buffer: seq<Byte>, size: nat, now: int): Broker {
    var r := ReservationReleased(Pruned(b, now), size);
    r.(tickets := r.tickets + [Entry(ticket, owner, buffer, size, now + b.ttl)])
  }

  /** The entry a caller may consume: its own, unexpired. */
  function Claim(b: Broker, ticket: string, caller: Identity, now: int): Option<Entry> {
    var e := FindTicket(Live(b.tickets, now), ticket);
    if e.Some? && e.value.owner == caller then e else None
  }

  function Claimed(b: Broker, e: Entry): Broker {
    b.(tickets := WithoutTicket(b.tickets, e.ticket), inFlightTransfers := b.inFlightTransfers + 1, inFlightBytes := b.inFlightBytes + e.size)
  }

  function Consumed(b: Broker, ticket: string, caller: Identity, now: int): Broker {
    var p, e := Pruned(b, now), Claim(b, ticket, caller, now);
    if e.None? then p else Claimed(p, e.value)
  }

  function TransferReleased(b: Broker, size: nat): Broker {
    b.(inFlightTransfers := Clamped(b.inFlightTransfers - 1), inFlightBytes := Clamped(b.inFlightBytes - size))
  }

  function Disposed(b: Broker): Broker {
    b.(tickets := [], reservedTickets := 0, reservedBytes := 0, inFlightTransfers := 0, inFlightBytes := 0)
  }

  // -------------------------------------------------------------------------
  // Issues and transfers over time
  // -------------------------------------------------------------------------

  datatype IssuePhase = Refused | Holding | Failing | Ended

  /** A holding issue reads and verifies its copy; a failing one still has to give its reservation back. */
  datatype Issue = Issue(size: nat, owner: Identity, phase: IssuePhase)

  datatype Transfer = Transfer(entry: Entry, releaseCalled: bool, released: bool)

  datatype Consumption = Consumption(entry: Entry, caller: Identity, at: int)

  datatype State = State(broker: Broker, issues: seq<Issue>, transfers: seq<Transfer>, issued: seq<Entry>, consumptions: seq<Consumption>)

  function Start(maxTickets: nat, maxTotalBytes: nat, ttl: nat): State {
    State(Broker(maxTickets, maxTotalBytes, ttl, [], 0, 0, 0, 0), [], [], [], [])
  }

  datatype Event =
    | Reserve(size: nat, owner: Identity, now: int)
    | CopyFails(issue: nat)
    | Store(issue: nat, ticket: string, buffer: seq<Byte>, now: int)
    | GiveBack(issue: nat)
    | Consume(ticket: string, caller: Identity, now: int)
    | CallRelease(transfer: nat)
    | Release(transfer: nat)
    | Sweep(now: int)
    | Dispose

  predicate WasIssued(issued: seq<Entry>, ticket: string) { exists i :: 0 <= i < |issued| && issued[i].ticket == ticket }

  /** A new ticket is random, hence not one issued before; a stored copy has the announced size. */
  predicate Enabled(s: State, e: Event) {
    match e
    case Reserve(_, _, _) => true
    case CopyFails(i) => i < |s.issues| && s.issues[i].phase.Holding?
    case Store(i, ticket, buffer, _) =>
      i < |s.issues| && s.issues[i].phase.Holding? && !WasIssued(s.issued, ticket) && |buffer| == s.issues[i].size
    case GiveBack(i) => i < |s.issues| && s.issues[i].phase.Failing?
    case Consume(_, _, _) => true
    case CallRelease(t) => t < |s.transfers|
    case Release(t) => t < |s.transfers| && s.transfers[t].releaseCalled && !s.transfers[t].released
    case Sweep(_) => true
    case Dispose => true
  }

  function SetIssue(s: State, i: nat, phase: IssuePhase): State
    requires i < |s.issues|
  {
    s.(issues := s.issues[i := s.issues[i].(phase := phase)])
  }

  function Step(s: State, e: Event): State
    requires Enabled(s, e)
  {
    match e
    case Reserve(size, owner, now) =>
      var room := HasRoom(Pruned(s.broker, now), size);
      s.(broker := Reserved(s.broker, size, now), issues := s.issues + [Issue(size, owner, if room then Holding else Refused)])
    case CopyFails(i) => SetIssue(s, i, Failing)
    case Store(i, ticket, buffer, now) =>
      var b := Stored(s.broker, ticket, s.issues[i].owner, buffer, s.issues[i].size, now);
      SetIssue(s, i, Ended).(broker := b, issued := s.issued + [b.tickets[|b.tickets| - 1]])
    case GiveBack(i) => SetIssue(s, i, Ended).(broker := ReservationReleased(s.broker, s.issues[i].size))
    case Consume(ticket, caller, now) =>
      var claim := Claim(s.broker, ticket, caller, now);
      var next := s.(broker := Consumed(s.broker, ticket, caller, now));
      if claim.None? then next
      else next.(transfers := s.transfers + [Transfer(claim.value, false, false)],
                 consumptions := s.consumptions + [Consumption(claim.value, caller, now)])
    case CallRelease(t) => s.(transfers := s.transfers[t := s.transfers[t].(releaseCalled := true)])
    case Release(t) =>
      s.(transfers := s.transfers[t := s.transfers[t].(released := true)], broker := TransferReleased(s.broker, s.transfers[t].entry.size))
    case Sweep(now) => s.(broker := Pruned(s.broker, now))
    case Dispose => s.(broker := Disposed(s.broker))
  }

  ghost predicate Run(states: seq<State>, events: seq<Event>, first: State) {
    && |states| == |events| + 1 && states[0] == first
    && forall i, j :: 0 <= i < |events| && j == i + 1 ==> Steps(states[i], events[i], states[j])
  }

  ghost predicate Steps(s: State, e: Event, s': State) { Enabled(s, e) && s' == Step(s, e) }

  // -------------------------------------------------------------------------
  // What is outstanding
  // -------------------------------------------------------------------------

  function Holders(issues: seq<Issue>): nat {
    if issues == [] then 0
    else Holders(issues[..|issues| - 1]) + (if issues[|issues| - 1].phase.Holding? || issues[|issues| - 1].phase.Failing? then 1 else 0)
  }

  function HeldBytes(issues: seq<Issue>): nat {
    if issues == [] then 0
    else
      HeldBytes(issues[..|issues| - 1])
      + (if issues[|issues| - 1].phase.Holding? || issues[|issues| - 1].phase.Failing? then issues[|issues| - 1].size else 0)
  }

  function Flying(transfers: seq<Transfer>): nat {
    if transfers == [] then 0 else Flying(transfers[..|transfers| - 1]) + (if transfers[|transfers| - 1].released then 0 else 1)
  }

  function FlyingBytes(transfers: seq<Transfer>): nat {
    if transfers == [] then 0
    else FlyingBytes(transfers[..|transfers| - 1]) + (if transfers[|transfers| - 1].released then 0 else transfers[|transfers| - 1].entry.size)
  }

  /** The counters are what is really outstanding. */
  predicate Exact(s: State) {
    && s.broker.reservedTickets == Holders(s.issues) && s.broker.reservedBytes == HeldBytes(s.issues)
    && s.broker.inFlightTransfers == Flying(s.transfers) && s.broker.inFlightBytes == FlyingBytes(s.transfers)
  }

  /** What is really held stays within the bounds. */
  predicate WithinBounds(s: State) {
    && |s.broker.tickets| + Holders(s.issues) + Flying(s.transfers) <= s.broker.maxTickets
    && Bytes(s.broker.tickets) + HeldBytes(s.issues) + FlyingBytes(s.transfers) <= s.broker.maxTotalBytes
  }

  /** A release that takes away exactly what it should: neither counter is clamped to zero. */
  predicate NoClamp(s: State, e: Event)
    requires Enabled(s, e)
  {
    match e
    case Store(i, _, _, _) => s.broker.reservedTickets >= 1 && s.broker.reservedBytes >= s.issues[i].size
    case GiveBack(i) => s.broker.reservedTickets >= 1 && s.broker.reservedBytes >= s.issues[i].size
    case Release(t) => s.broker.inFlightTransfers >= 1 && s.broker.inFlightBytes >= s.transfers[t].entry.size
    case _ => true
  }

  lemma {:induction false} SetIssueCounts(issues: seq<Issue>, i: nat, phase: IssuePhase)
    requires i < |issues|
    ensures var holds := (x: IssuePhase) => x.Holding? || x.Failing?;
            && Holders(issues[i := issues[i].(phase := phase)])
               == Holders(issues) - (if holds(issues[i].phase) then 1 else 0) + (if holds(phase) then 1 else 0)
            && HeldBytes(issues[i := issues[i].(phase := phase)])
               == HeldBytes(issues) - (if holds(issues[i].phase) then issues[i].size else 0) + (if holds(phase) then issues[i].size else 0)
  {
    var n, changed := |issues| - 1, issues[i := issues[i].(phase := phase)];
    if i == n {
      assert changed[..n] == issues[..n];
    } else {
      assert changed[..n] == issues[..n][i := issues[i].(phase := phase)];
      SetIssueCounts(issues[..n], i, phase);
    }
  }

  lemma {:induction false} SetTransferCounts(transfers: seq<Transfer>, t: nat, next: Transfer)
    requires t < |transfers| && next.entry == transfers[t].entry
    ensures Flying(transfers[t := next]) == Flying(transfers) - (if transfers[t].released then 0 else 1) + (if next.released then 0 else 1)
    ensures FlyingBytes(transfers[t := next])
            == FlyingBytes(transfers) - (if transfers[t].released then 0 else next.entry.size) + (if next.released then 0 else next.entry.size)
  {
    var n := |transfers| - 1;
    if t == n {
      assert transfers[t := next][..n] == transfers[..n];
    } else {
      assert transfers[t := next][..n] == transfers[..n][t := next];
      SetTransferCounts(transfers[..n], t, next);
    }
  }

  lemma {:induction false} LiveFewer(tickets: seq<Entry>, now: int)
    ensures |Live(tickets, now)| <= |tickets| && Bytes(Live(tickets, now)) <= Bytes(tickets)
    ensures forall e :: e in Live(tickets, now) <==> e in tickets && e.expiresAt > now
  {
    if tickets != [] {
      var before, last := tickets[..|tickets| - 1], tickets[|tickets| - 1];
      LiveFewer(before, now);
      assert tickets == before + [last];
      if last.expiresAt <= now { assert Live(tickets, now) == Live(before, now); } else { BytesSnoc(Live(before, now), last); }
    }
  }

  lemma BytesSnoc(tickets: seq<Entry>, last: Entry)
    ensures Bytes(tickets + [last]) == Bytes(tickets) + last.size
  {
    assert (tickets + [last])[..|tickets|] == tickets;
  }

  predicate DistinctTickets(tickets: seq<Entry>) { forall i, j :: 0 <= i < j < |tickets| ==> tickets[i].ticket != tickets[j].ticket }

  lemma DistinctBefore(tickets: seq<Entry>)
    requires DistinctTickets(tickets) && tickets != []
    ensures DistinctTickets(tickets[..|tickets| - 1])
    ensures forall x :: x in tickets[..|tickets| - 1] ==> x.ticket != tickets[|tickets| - 1].ticket
  {
    forall x | x in tickets[..|tickets| - 1] ensures x.ticket != tickets[|tickets| - 1].ticket {
      var i :| 0 <= i < |tickets| - 1 && tickets[i] == x;
    }
  }

  /** Taking a listed ticket out removes that entry and no other. */
  lemma {:induction false} TakenOut(tickets: seq<Entry>, e: Entry)
    requires DistinctTickets(tickets) && e in tickets
    ensures var left := WithoutTicket(tickets, e.ticket); |left| == |tickets| - 1 && Bytes(left) == Bytes(tickets) - e.size
  {
    var before, last := tickets[..|tickets| - 1], tickets[|tickets| - 1];
    assert tickets == before + [last];
    DistinctBefore(tickets);
    if last.ticket == e.ticket {
      assert e == last by { if e in before { assert false; } }
      NotFound(before, e.ticket);
      assert WithoutTicket(tickets, e.ticket) == before;
    } else {
      TakenOut(before, e);
      BytesSnoc(WithoutTicket(before, e.ticket), last);
    }
  }

  lemma {:induction false} WithoutItems(tickets: seq<Entry>, ticket: string)
    ensures forall x :: x in WithoutTicket(tickets, ticket) <==> x in tickets && x.ticket != ticket
    ensures DistinctTickets(tickets) ==> DistinctTickets(WithoutTicket(tickets, ticket))
  {
    if tickets != [] {
      WithoutItems(tickets[..|tickets| - 1], ticket);
      assert tickets == tickets[..|tickets| - 1] + [tickets[|tickets| - 1]];
      if DistinctTickets(tickets) {
        DistinctBefore(tickets);
        AppendDistinct(WithoutTicket(tickets[..|tickets| - 1], ticket), tickets[|tickets| - 1]);
      }
    }
  }

  lemma AppendDistinct(tickets: seq<Entry>, last: Entry)
    requires DistinctTickets(tickets) && forall x :: x in tickets ==> x.ticket != last.ticket
    ensures DistinctTickets(tickets + [last])
  {
  }

  lemma {:induction false} LiveDistinct(tickets: seq<Entry>, now: int)
    requires DistinctTickets(tickets)
    ensures DistinctTickets(Live(tickets, now))
  {
    if tickets != [] {
      DistinctBefore(tickets);
      LiveDistinct(tickets[..|tickets| - 1], now);
      LiveFewer(tickets[..|tickets| - 1], now);
      AppendDistinct(Live(tickets[..|tickets| - 1], now), tickets[|tickets| - 1]);
    }
  }

  lemma {:induction false} NotFound(tickets: seq<Entry>, ticket: string)
    requires forall x :: x in tickets ==> x.ticket != ticket
    ensures WithoutTicket(tickets, ticket) == tickets
  {
    if tickets != [] {
      assert tickets == tickets[..|tickets| - 1] + [tickets[|tickets| - 1]];
      NotFound(tickets[..|tickets| - 1], ticket);
    }
  }
}
