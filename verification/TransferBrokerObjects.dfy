/** The broker and the streamed answer as objects; each broker method is one operation under the lock. */
module TransferBrokerObjects {
  import opened Options
  import opened TransferBroker

  class ExternalTransferBroker {
    const maxTickets: nat
    const maxTotalBytes: nat
    const ttlMs: nat
    var tickets: seq<Entry>
    var reservedTickets: nat
    var reservedBytes: nat
    var inFlightTransfers: nat
    var inFlightBytes: nat

    constructor (maxTickets: nat, maxTotalBytes: nat, ttlMs: nat)
      ensures View() == Start(maxTickets, maxTotalBytes, ttlMs).broker
    {
      this.maxTickets, this.maxTotalBytes, this.ttlMs := maxTickets, maxTotalBytes, ttlMs;
      tickets, reservedTickets, reservedBytes, inFlightTransfers, inFlightBytes := [], 0, 0, 0, 0;
    }

    function View(): Broker
      reads this
    {
      Broker(maxTickets, maxTotalBytes, ttlMs, tickets, reservedTickets, reservedBytes, inFlightTransfers, inFlightBytes)
    }

    method PruneExpired(now: int)
      modifies this`tickets
      ensures View() == Pruned(old(View()), now)
    {
      var listed := tickets;
      tickets := [];
      var i := 0;
      while i < |listed|
        invariant 0 <= i <= |listed| && tickets == Live(listed[..i], now)
      {
        assert listed[..i + 1][..i] == listed[..i];
        if listed[i].expiresAt > now { tickets := tickets + [listed[i]]; }
        i := i + 1;
      }
      assert listed[..i] == listed;
    }

    method TicketBytes() returns (total: nat)
      ensures total == Bytes(tickets)
    {
      total := 0;
      var i := 0;
      while i < |tickets|
        invariant 0 <= i <= |tickets| && total == Bytes(tickets[..i])
      {
        assert tickets[..i + 1][..i] == tickets[..i];
        total := total + tickets[i].size;
        i := i + 1;
      }
      assert tickets[..i] == tickets;
    }

    method ReserveCapacity(size: nat, now: int) returns (granted: bool)
      modifies this
      ensures granted <==> HasRoom(Pruned(old(View()), now), size)
      ensures View() == Reserved(old(View()), size, now)
    {
      PruneExpired(now);
      var ticketBytes := TicketBytes();
      if |tickets| + reservedTickets + inFlightTransfers >= maxTickets || ticketBytes + reservedBytes + inFlightBytes + size > maxTotalBytes {
        return false;
      }
      reservedTickets := reservedTickets + 1;
      reservedBytes := reservedBytes + size;
      granted := true;
    }

    method ReleaseReservation(size: nat)
      modifies this`reservedTickets, this`reservedBytes
      ensures View() == ReservationReleased(old(View()), size)
    {
      reservedTickets := if reservedTickets > 1 then reservedTickets - 1 else 0;
      reservedBytes := if reservedBytes > size then reservedBytes - size else 0;
    }

    /** The last part of an issue, once the copy is verified. */
    method IssueTicket(ticket: string, owner: Identity, buffer: seq<Byte>, size: nat, now: int)
      modifies this
      ensures View() == Stored(old(View()), ticket, owner, buffer, size, now)
    {
      PruneExpired(now);
      ReleaseReservation(size);
      tickets := tickets + [Entry(ticket, owner, buffer, size, now + ttlMs)];
    }

    method Consume(ticket: string, caller: Identity, now: int) returns (entry: Option<Entry>)
      modifies this
      ensures entry == Claim(old(View()), ticket, caller, now)
      ensures View() == Consumed(old(View()), ticket, caller, now)
    {
      PruneExpired(now);
      entry := FindTicket(tickets, ticket);
      if entry.None? || entry.value.owner != caller { return None; }
      tickets := WithoutTicket(tickets, ticket);
      inFlightTransfers := inFlightTransfers + 1;
      inFlightBytes := inFlightBytes + entry.value.size;
    }

    method ReleaseTransfer(size: nat)
      modifies this`inFlightTransfers, this`inFlightBytes
      ensures View() == TransferReleased(old(View()), size)
    {
      inFlightTransfers := if inFlightTransfers > 1 then inFlightTransfers - 1 else 0;
      inFlightBytes := if inFlightBytes > size then inFlightBytes - size else 0;
    }

    method DisposeAll()
      modifies this
      ensures View() == Disposed(old(View()))
    {
      tickets, reservedTickets, reservedBytes, inFlightTransfers, inFlightBytes := [], 0, 0, 0, 0;
    }
  }

  // -------------------------------------------------------------------------
  // The streamed answer
  // -------------------------------------------------------------------------

  const ChunkBytes: nat := 65536

  datatype Ending = Open | Closed | Cancelled | TimedOut

  /** The stream as its reader sees it, and how often the lease was released. */
  datatype Stream = Stream(buffer: seq<Byte>, offset: nat, finished: bool, chunks: seq<seq<Byte>>, ending: Ending, releases: nat)

  function Concat(chunks: seq<seq<Byte>>): seq<Byte> {
    if chunks == [] then [] else Concat(chunks[..|chunks| - 1]) + chunks[|chunks| - 1]
  }

  function Fresh(buffer: seq<Byte>): Stream { Stream(buffer, 0, false, [], Open, 0) }

  function Finish(s: Stream, ending: Ending): Stream {
    if s.finished then s else s.(finished := true, ending := ending, releases := s.releases + 1)
  }

  function ChunkEnd(s: Stream): nat { if s.offset + ChunkBytes < |s.buffer| then s.offset + ChunkBytes else |s.buffer| }

  function Pulled(s: Stream): Stream {
    if s.finished then s
    else if s.offset >= |s.buffer| then Finish(s, Closed)
    else s.(chunks := s.chunks + [s.buffer[s.offset..ChunkEnd(s)]], offset := ChunkEnd(s))
  }

  datatype Call = Pull | Cancel | TimerFires

  function After(s: Stream, call: Call): Stream {
    match call
    case Pull => Pulled(s)
    case Cancel => Finish(s, Cancelled)
    case TimerFires => Finish(s, TimedOut)
  }

  function AfterAll(s: Stream, calls: seq<Call>): Stream {
    if calls == [] then s else After(AfterAll(s, calls[..|calls| - 1]), calls[|calls| - 1])
  }

  predicate StreamOk(s: Stream) {
    && s.offset <= |s.buffer| && Concat(s.chunks) == s.buffer[..s.offset]
    && (forall k :: 0 <= k < |s.chunks| ==> 0 < |s.chunks[k]| <= ChunkBytes)
    && s.releases == (if s.finished then 1 else 0) && (s.finished <==> !s.ending.Open?)
    && (s.ending.Closed? ==> s.offset == |s.buffer|)
  }

  lemma ConcatSnoc(chunks: seq<seq<Byte>>, last: seq<Byte>)
    ensures Concat(chunks + [last]) == Concat(chunks) + last
  {
    assert (chunks + [last])[..|chunks|] == chunks;
  }

  lemma AfterKeeps(s: Stream, call: Call)
    requires StreamOk(s)
    ensures StreamOk(After(s, call)) && After(s, call).buffer == s.buffer
  {
    if call.Pull? && !s.finished && s.offset < |s.buffer| {
      var chunk := s.buffer[s.offset..ChunkEnd(s)];
      ConcatSnoc(s.chunks, chunk);
      assert s.buffer[..ChunkEnd(s)] == s.buffer[..s.offset] + chunk;
    }
  }

  /**
   Whatever calls a stream gets, in whatever order, the lease is released exactly once when it has ended and never
   before, and a stream that closed has delivered the whole buffer in order, in chunks of bounded size.
   */
  lemma {:induction false} StreamDelivers(buffer: seq<Byte>, calls: seq<Call>)
    ensures var s := AfterAll(Fresh(buffer), calls);
            && StreamOk(s) && s.buffer == buffer
            && s.releases == (if s.ending.Open? then 0 else 1)
            && (s.ending.Closed? ==> Concat(s.chunks) == buffer)
  {
    if calls != [] {
      StreamDelivers(buffer, calls[..|calls| - 1]);
      AfterKeeps(AfterAll(Fresh(buffer), calls[..|calls| - 1]), calls[|calls| - 1]);
    }
    var s := AfterAll(Fresh(buffer), calls);
    if s.ending.Closed? { assert s.buffer[..s.offset] == buffer; }
  }

  function Pulls(n: nat): seq<Call> { seq(n, i => Pull) }

  /** A stream that is only pulled closes: after as many pulls as it has chunks, and one more. */
  lemma {:induction false} PullsClose(s: Stream, n: nat)
    requires StreamOk(s) && !s.finished && |s.buffer| - s.offset <= n * ChunkBytes
    ensures AfterAll(s, Pulls(n + 1)).ending.Closed?
    decreases n
  {
    if s.offset == |s.buffer| {
      ClosedFirst(s, n);
    } else {
      AfterKeeps(s, Pull);
      PullsClose(Pulled(s), n - 1);
      PullFirst(s, n);
    }
  }

  lemma {:induction false} PullFirst(s: Stream, n: nat)
    ensures AfterAll(s, Pulls(n + 1)) == AfterAll(Pulled(s), Pulls(n))
  {
    assert Pulls(n + 1)[..n] == Pulls(n);
    if n > 0 {
      assert Pulls(n)[..n - 1] == Pulls(n - 1);
      PullFirst(s, n - 1);
    } else {
      assert AfterAll(s, Pulls(0)) == s && AfterAll(Pulled(s), Pulls(0)) == Pulled(s);
    }
  }

  lemma {:induction false} ClosedFirst(s: Stream, n: nat)
    requires !s.finished && s.offset == |s.buffer|
    ensures AfterAll(s, Pulls(n + 1)).ending.Closed?
  {
    PullFirst(s, n);
    StaysFinished(Pulled(s), n);
  }

  lemma {:induction false} StaysFinished(s: Stream, n: nat)
    requires s.finished
    ensures AfterAll(s, Pulls(n)) == s
  {
    if n > 0 {
      assert Pulls(n)[..n - 1] == Pulls(n - 1);
      StaysFinished(s, n - 1);
    }
  }

  class HandoffStream {
    const buffer: seq<Byte>
    var offset: nat
    var finished: bool
    var timerSet: bool
    var chunks: seq<seq<Byte>>
    var ending: Ending
    var releases: nat

    constructor (buffer: seq<Byte>)
      ensures View() == Fresh(buffer) && timerSet
    {
      this.buffer := buffer;
      offset, finished, timerSet, chunks, ending, releases := 0, false, true, [], Open, 0;
    }

    function View(): Stream
      reads this
    {
      Stream(buffer, offset, finished, chunks, ending, releases)
    }

    /** Ends the stream once: the timer is cleared and the lease released. */
    method ReleaseLease(how: Ending)
      modifies this
      ensures View() == Finish(old(View()), how) && (!old(finished) ==> !timerSet)
    {
      if finished { return; }
      finished, ending := true, how;
      timerSet := false;
      releases := releases + 1;
    }

    method OnPull()
      modifies this
      ensures View() == Pulled(old(View()))
    {
      if finished { return; }
      if offset >= |buffer| {
        ReleaseLease(Closed);
        return;
      }
      var end := if offset + ChunkBytes < |buffer| then offset + ChunkBytes else |buffer|;
      chunks := chunks + [buffer[offset..end]];
      offset := end;
    }

    method OnCancel()
      modifies this
      ensures View() == After(old(View()), Cancel)
    {
      ReleaseLease(Cancelled);
    }

    method OnTimeout()
      modifies this
      ensures View() == After(old(View()), TimerFires)
    {
      if finished { return; }
      ReleaseLease(TimedOut);
    }
  }
}
