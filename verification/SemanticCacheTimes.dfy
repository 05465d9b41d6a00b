/** Until when the semantic cache answers from what it holds, counted from the events that put it there. */
module SemanticCacheTimes {
  import opened Options
  import opened SemanticCache
  import opened SemanticCacheRuns

  /** Events that may put a snapshot into memory or keep a readiness. */
  predicate Timed(e: Event) { e.Scanned? || e.Resumed? }

  function TimeOf(e: Event): int
    requires Timed(e)
  {
    e.now
  }

  // -------------------------------------------------------------------------
  // The snapshot in memory
  // -------------------------------------------------------------------------

  /** What an event makes of the memory: it stays with its age, goes, or was published just now. */
  predicate MemoryAfter(s: State, e: Event, s': State) {
    && s.published <= s'.published && s'.service.directory == s.service.directory && s'.service.ttl == s.service.ttl
    && (|| s'.service.memory.None?
        || (s'.service.memory == s.service.memory && s'.service.memoryLoadedAt == s.service.memoryLoadedAt && s'.memoryFrom == s.memoryFrom)
        || (Timed(e) && |s'.published| == |s.published| + 1 && s'.memoryFrom == |s.published|
            && s'.published[s'.memoryFrom].at == s.steps && s'.service.memoryLoadedAt == TimeOf(e)))
  }

  lemma ScannedMemory(s: State, a: nat, scan: Scan, readable: bool, now: int)
    requires Enabled(s, Scanned(a, scan, readable, now))
    ensures MemoryAfter(s, Scanned(a, scan, readable, now), DoScanned(s, a, scan, readable, now))
  {
  }

  lemma ResumedMemory(s: State, a: nat, fault: Option<nat>, now: int)
    requires Enabled(s, Resumed(a, fault, now))
    ensures MemoryAfter(s, Resumed(a, fault, now), DoResumed(s, a, fault, now))
  {
  }

  lemma MemoryStep(s: State, e: Event)
    requires Enabled(s, e)
    ensures MemoryAfter(s, e, Apply(s, e))
  {
    match e
    case Query(_) =>
    case Probe(_) =>
    case Scanned(a, scan, readable, now) => ScannedMemory(s, a, scan, readable, now);
    case ScanFailed(_) =>
    case ReadEnds(_, _) =>
    case SourceReleased(_) =>
    case Resumed(a, fault, now) => ResumedMemory(s, a, fault, now);
    case Ended(_) =>
    case ForceRefresh =>
  }

  /** The memory is as old as the event that published it. */
  predicate MemoryDated(es: seq<Event>, s: State) {
    s.service.memory.Some? ==>
      && s.memoryFrom < |s.published|
      && var at := s.published[s.memoryFrom].at;
         at < |es| && Timed(es[at]) && s.service.memoryLoadedAt == TimeOf(es[at])
  }

  predicate Dated(es: seq<Event>, directory: string, ttl: nat, s: State, i: nat) {
    s.steps == i && s.service.directory == directory && s.service.ttl == ttl && MemoryDated(es, s)
  }

  lemma {:induction false} MemoryTime(t: Trace, directory: string, ttl: nat, db0: Database, i: nat)
    requires From(t, directory, ttl, db0) && i < |t.states|
    ensures Dated(t.events, directory, ttl, t.states[i], i)
  {
    if i > 0 {
      MemoryTime(t, directory, ttl, db0, i - 1);
      assert Steps(t.states[i - 1], t.events[i - 1], t.states[i]);
      DatedStep(t.events, directory, ttl, t.states[i - 1], t.states[i], i - 1);
    }
  }

  lemma DatedStep(es: seq<Event>, directory: string, ttl: nat, s: State, s': State, i: nat)
    requires i < |es| && Dated(es, directory, ttl, s, i) && Steps(s, es[i], s')
    ensures Dated(es, directory, ttl, s', i + 1)
  {
    MemoryStep(s, es[i]);
    MemoryStaysDated(es, s, es[i], s');
  }

  lemma MemoryStaysDated(es: seq<Event>, s: State, e: Event, s': State)
    requires s.steps < |es| && es[s.steps] == e && MemoryDated(es, s) && MemoryAfter(s, e, s')
    ensures MemoryDated(es, s')
  {
  }

  /** There is a snapshot in memory, and its time is not over. */
  predicate Kept(t: Trace, s: State, ttl: nat, now: int) {
    && s.service.memory.Some? && s.memoryFrom < |s.published|
    && var at := s.published[s.memoryFrom].at;
       at < |t.events| && Timed(t.events[at]) && (ttl == 0 || now - TimeOf(t.events[at]) < ttl)
  }

  /**
   A query is answered at once exactly while a snapshot in memory was published less than the time to live ago, or
   for ever when that is zero. Otherwise it joins the refresh that runs, or starts one when none does.
   */
  lemma QueryIsAnsweredIff(t: Trace, directory: string, ttl: nat, db0: Database, i: nat, now: int)
    requires From(t, directory, ttl, db0) && i < |t.states|
    ensures var s := t.states[i]; var reply := QueryReply(s.service, now);
            && (reply == NotConfigured <==> directory == "")
            && (reply == AtOnce <==> directory != "" && Kept(t, s, ttl, now))
            && (forall a: nat :: reply == Joins(a) <==> directory != "" && !Kept(t, s, ttl, now) && Running(s, a, Refresh))
            && (reply == Starts <==> directory != "" && !Kept(t, s, ttl, now) && forall a: nat :: !Running(s, a, Refresh))
  {
    ReachableKeeps(t, directory, ttl, db0, i);
    MemoryTime(t, directory, ttl, db0, i);
    RunningIsPending(t.states[i]);
  }

  lemma RunningIsPending(s: State)
    requires LoadsOk(s)
    ensures forall a: nat :: Running(s, a, Refresh) <==> s.service.pendingSnapshot == Some(a)
    ensures forall a: nat :: Running(s, a, Validation) <==> s.service.pendingReadiness == Some(a)
  {
  }

  // -------------------------------------------------------------------------
  // The readiness that is kept
  // -------------------------------------------------------------------------

  /** What the validation counted: the stored rows, or what its read gave. */
  function Counted(s: State, e: Event): seq<Item>
    requires Enabled(s, e) && Timed(e)
  {
    if e.Scanned? then s.service.db.rows
    else var result := s.loads[s.attempts[e.attempt].phase.read].result.value; if result.Items? then result.items else []
  }

  function UsableIn(items: seq<Item>): set<nat> { set k: nat | k < |items| && items[k].validVector }

  lemma {:induction false} CountIs(items: seq<Item>)
    ensures CountValid(items) == |UsableIn(items)|
  {
    if items != [] {
      var n := |items| - 1;
      CountIs(items[..n]);
      assert UsableIn(items) == UsableIn(items[..n]) + (if items[n].validVector then {n} else {});
    }
  }

  /** The readiness was kept by this event, with its time, and counts the usable vectors of what was validated. */
  predicate KeptBy(s: State, e: Event, value: Readiness) {
    && Enabled(s, e) && Timed(e) && s.attempts[e.attempt].kind.Validation?
    && value.observedAt == TimeOf(e) && value.vectorCount == |UsableIn(Counted(s, e))|
  }

  lemma ReadinessStep(s: State, e: Event)
    requires Enabled(s, e)
    ensures var s' := Apply(s, e);
            || s'.service.readiness.None? || s'.service.readiness == s.service.readiness
            || KeptBy(s, e, s'.service.readiness.value)
  {
    match e
    case Query(_) =>
    case Probe(_) =>
    case Scanned(a, scan, readable, now) => ScannedReadiness(s, a, scan, readable, now);
    case ScanFailed(_) =>
    case ReadEnds(_, _) =>
    case SourceReleased(_) =>
    case Resumed(a, fault, now) => ResumedReadiness(s, a, fault, now);
    case Ended(_) =>
    case ForceRefresh =>
  }

  lemma ScannedReadiness(s: State, a: nat, scan: Scan, readable: bool, now: int)
    requires Enabled(s, Scanned(a, scan, readable, now))
    ensures var s' := DoScanned(s, a, scan, readable, now);
            s'.service.readiness == s.service.readiness || (s'.service.readiness.Some? && KeptBy(s, Scanned(a, scan, readable, now), s'.service.readiness.value))
  {
    CountIs(s.service.db.rows);
  }

  lemma ResumedReadiness(s: State, a: nat, fault: Option<nat>, now: int)
    requires Enabled(s, Resumed(a, fault, now))
    ensures var s' := DoResumed(s, a, fault, now);
            s'.service.readiness == s.service.readiness || (s'.service.readiness.Some? && KeptBy(s, Resumed(a, fault, now), s'.service.readiness.value))
  {
    var result := s.loads[s.attempts[a].phase.read].result.value;
    if result.Items? { CountIs(result.items); }
  }

  /** The validation that kept the readiness. */
  lemma {:induction false} ReadinessKeptBy(t: Trace, first: State, i: nat) returns (k: nat)
    requires Run(t, first) && first.service.readiness.None? && i < |t.states| && t.states[i].service.readiness.Some?
    ensures k < i && KeptBy(t.states[k], t.events[k], t.states[i].service.readiness.value)
  {
    assert i > 0;
    var s, e := t.states[i - 1], t.events[i - 1];
    assert Steps(s, e, t.states[i]);
    ReadinessStep(s, e);
    if t.states[i].service.readiness == s.service.readiness { k := ReadinessKeptBy(t, first, i - 1); } else { k := i - 1; }
  }

  const LongestReadiness: nat := 60000

  /** How long a readiness is kept: the time to live, a minute at most, and a minute when that is zero. */
  function ReadinessKept(ttl: nat): nat { if 0 < ttl < LongestReadiness then ttl else LongestReadiness }

  /** A probe is answered at once exactly while a query would be, or a readiness was validated less than its time ago. */
  lemma ProbeIsAnsweredIff(t: Trace, directory: string, ttl: nat, db0: Database, i: nat, now: int)
    requires From(t, directory, ttl, db0) && i < |t.states|
    ensures var s := t.states[i]; var reply, kept := ProbeReply(s.service, now), s.service.readiness;
            && (reply == NotConfigured <==> directory == "")
            && (kept.Some? ==>
                  exists k :: 0 <= k < i && KeptBy(t.states[k], t.events[k], kept.value)
                              && (reply == AtOnce <==> directory != "" && (Kept(t, s, ttl, now) || now - TimeOf(t.events[k]) < ReadinessKept(ttl))))
            && (kept.None? ==> (reply == AtOnce <==> directory != "" && Kept(t, s, ttl, now)))
            && (reply != AtOnce && directory != "" ==>
                  if exists a: nat :: Running(s, a, Refresh) then reply.Joins? && Running(s, reply.attempt, Refresh)
                  else if exists a: nat :: Running(s, a, Validation) then reply.Joins? && Running(s, reply.attempt, Validation)
                  else reply == Starts)
  {
    ReachableKeeps(t, directory, ttl, db0, i);
    MemoryTime(t, directory, ttl, db0, i);
    RunningIsPending(t.states[i]);
    if t.states[i].service.readiness.Some? {
      var k := ReadinessKeptBy(t, Start(directory, ttl, db0), i);
      assert KeptBy(t.states[k], t.events[k], t.states[i].service.readiness.value);
    }
  }
}
