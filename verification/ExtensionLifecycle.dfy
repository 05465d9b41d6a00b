/**
 The supervisor of one extension registration: one timer, at most one mount, a cleanup that may have to be
 retried, and bounded exponential backoff. Callbacks are outcomes, and do not call the supervisor back.
 */
module ExtensionLifecycle {
  import opened Options

  datatype Phase = Unavailable | Probing | Mounting | Ready | Degraded

  /** A call to mount: for which provider, whether a cleanup was still held, and the provider that was ready when the probe began. */
  datatype MountCall = MountCall(provider: nat, cleanupHeld: bool, ready: Option<nat>)

  /**
   `alive` are the timers the runtime still holds, `partials` the mounts that failed half-way with a cleanup to run,
   `calls` all calls to mount, whatever became of them.
   */
  datatype Life = Life(
    initialRetryMs: nat, maximumRetryMs: nat, readyProbeMs: nat,
    timer: Option<nat>, provider: Option<nat>, cleanup: bool, cleanupPending: bool, running: bool, phase: Phase,
    mountGeneration: nat, unloadGeneration: nat, consecutiveFailures: nat, nextProbeDelayMs: Option<nat>,
    alive: set<nat>, nextTimer: nat, partials: nat, calls: seq<MountCall>)

  datatype ProbeOutcome = Found(provider: nat) | NotFound | ProbeThrows

  datatype MountOutcome = Mounted | NotMounted | PartialMount | MountThrows

  /** What the callbacks do in one step; a cleanup runs at most once in it. */
  datatype Outcomes = Outcomes(probe: ProbeOutcome, mount: MountOutcome, cleanupWorks: bool)

  function Max(a: int, b: int): int { if a > b then a else b }

  function Min(a: nat, b: nat): nat { if a < b then a else b }

  function Create(initialRetryMs: int, maximumRetryMs: int, readyProbeMs: int): Life {
    var initial := Max(50, initialRetryMs);
    Life(initial, Max(initial, maximumRetryMs), Max(100, readyProbeMs), None, None, false, false, false, Unavailable, 0, 0, 0, None, {}, 0, 0, [])
  }

  function Power(n: nat): nat { if n == 0 then 1 else 2 * Power(n - 1) }

  function RetryDelay(l: Life, failures: nat): nat {
    Min(l.maximumRetryMs, l.initialRetryMs * Power(Min(if failures > 0 then failures - 1 else 0, 20)))
  }

  function ClearTimer(l: Life): Life {
    l.(alive := if l.timer.Some? then l.alive - {l.timer.value} else l.alive, timer := None, nextProbeDelayMs := None)
  }

  function ScheduleNext(l: Life, delay: nat): Life {
    if !l.running then l.(nextProbeDelayMs := None)
    else
      var c := ClearTimer(l);
      c.(nextProbeDelayMs := Some(delay), timer := Some(c.nextTimer), alive := c.alive + {c.nextTimer}, nextTimer := c.nextTimer + 1)
  }

  function ScheduleRetry(l: Life): Life { ScheduleNext(l, RetryDelay(l, l.consecutiveFailures)) }

  predicate Disposes(l: Life, cleanupWorks: bool) { !l.cleanup || cleanupWorks }

  function DisposeMount(l: Life, cleanupWorks: bool): Life {
    if !l.cleanup then l.(provider := None, cleanupPending := false)
    else if cleanupWorks then l.(cleanup := false, provider := None, cleanupPending := false, unloadGeneration := l.unloadGeneration + 1)
    else l.(cleanupPending := true)
  }

  function Failed(l: Life, phase: Phase): Life {
    ScheduleRetry(l.(phase := phase, consecutiveFailures := l.consecutiveFailures + 1))
  }

  function Succeeded(l: Life): Life {
    ScheduleNext(l.(phase := Ready, consecutiveFailures := 0), l.readyProbeMs)
  }

  /** The provider found is the one mounted, and its cleanup is not pending. */
  predicate AlreadyReady(l: Life, provider: nat) { l.provider == Some(provider) && l.cleanup && !l.cleanupPending }

  function ReadyProvider(l: Life): Option<nat> { if l.phase.Ready? then l.provider else None }

  function CallMount(l: Life, provider: nat, ready: Option<nat>): Life {
    l.(phase := Mounting, calls := l.calls + [MountCall(provider, l.cleanup, ready)])
  }

  /** What the end of the call to mount changes before the next timer is set. */
  function MountReturns(m: Life, provider: nat, mount: MountOutcome, cleanupWorks: bool): Life {
    match mount
    case NotMounted => m
    case Mounted =>
      m.(provider := Some(provider), cleanup := true, cleanupPending := false, mountGeneration := m.mountGeneration + 1)
    case PartialMount =>
      m.(provider := Some(provider), cleanup := true, cleanupPending := true, partials := m.partials + 1)
    case MountThrows => DisposeMount(m, cleanupWorks)
  }

  /** What follows the call to mount. */
  function MountEnds(m: Life, provider: nat, mount: MountOutcome, cleanupWorks: bool): Life {
    var l := MountReturns(m, provider, mount, cleanupWorks);
    match mount
    case Mounted => Succeeded(l)
    case NotMounted => Failed(l, Unavailable)
    case _ => Failed(l, Degraded)
  }

  function ProbeNow(l: Life, o: Outcomes): Life {
    if !l.running then l else ProbeEnds(ClearTimer(l).(phase := Probing), ReadyProvider(l), o)
  }

  /** What follows the call to probe; `ready` is the provider that was ready before it. */
  function ProbeEnds(p: Life, ready: Option<nat>, o: Outcomes): Life {
    match o.probe
    case NotFound => Failed(DisposeMount(p, o.cleanupWorks), if Disposes(p, o.cleanupWorks) then Unavailable else Degraded)
    case ProbeThrows => Failed(DisposeMount(p, o.cleanupWorks), Degraded)
    case Found(provider) => if AlreadyReady(p, provider) then Succeeded(p) else Replace(p, provider, ready, o.mount, o.cleanupWorks)
  }

  /** Disposes of what is mounted, if that works, and mounts the provider. */
  function Replace(p: Life, provider: nat, ready: Option<nat>, mount: MountOutcome, cleanupWorks: bool): Life {
    var d := DisposeMount(p, cleanupWorks);
    if !Disposes(p, cleanupWorks) then Failed(d, Degraded)
    else MountEnds(CallMount(d, provider, ready), provider, mount, cleanupWorks)
  }

  function StartUp(l: Life, o: Outcomes): Life { if l.running then l else ProbeNow(l.(running := true), o) }

  function Stop(l: Life, cleanupWorks: bool): Life {
    if !l.running && !l.cleanup then l
    else
      var c := ClearTimer(l.(running := false));
      DisposeMount(c, cleanupWorks).(phase := if Disposes(c, cleanupWorks) then Unavailable else Degraded, nextProbeDelayMs := None)
  }

  datatype Event = Begin(outcomes: Outcomes) | End(cleanupWorks: bool) | Probe(outcomes: Outcomes) | TimerFires(timer: nat, outcomes: Outcomes)

  predicate Enabled(l: Life, e: Event) { e.TimerFires? ==> e.timer in l.alive }

  function Step(l: Life, e: Event): Life
    requires Enabled(l, e)
  {
    match e
    case Begin(o) => StartUp(l, o)
    case End(cleanupWorks) => Stop(l, cleanupWorks)
    case Probe(o) => ProbeNow(l, o)
    case TimerFires(timer, o) => ProbeNow(l.(alive := l.alive - {timer}, timer := None, nextProbeDelayMs := None), o)
  }

  ghost predicate Run(states: seq<Life>, events: seq<Event>, first: Life) {
    && |states| == |events| + 1 && states[0] == first
    && forall i, j :: 0 <= i < |events| && j == i + 1 ==> Steps(states[i], events[i], states[j])
  }

  ghost predicate Steps(l: Life, e: Event, l': Life) { Enabled(l, e) && l' == Step(l, e) }

  // -------------------------------------------------------------------------
  // The invariant
  // -------------------------------------------------------------------------

  /** The runtime holds exactly the timer the supervisor knows of. */
  predicate TimerOk(l: Life) {
    l.alive == (if l.timer.Some? then {l.timer.value} else {}) && (l.timer.Some? ==> l.timer.value < l.nextTimer)
  }

  /** Mounts and partial mounts less unloads: one exactly while a cleanup is held. */
  predicate Balanced(l: Life) {
    l.mountGeneration + l.partials == l.unloadGeneration + (if l.cleanup then 1 else 0)
  }

  predicate DelaysOk(l: Life) { 50 <= l.initialRetryMs <= l.maximumRetryMs && 100 <= l.readyProbeMs }

  /** While running there is one timer, set for the next probe or retry; once stopped there is none. */
  predicate Scheduled(l: Life) {
    && (l.timer.Some? <==> l.running)
    && l.nextProbeDelayMs == (if !l.running then None else if l.phase.Ready? then Some(l.readyProbeMs) else Some(RetryDelay(l, l.consecutiveFailures)))
    && (l.running ==> (l.phase.Ready? <==> l.consecutiveFailures == 0)) && (l.phase.Ready? ==> l.running)
    && (l.running && l.phase.Ready? ==> l.cleanup && !l.cleanupPending && l.provider.Some?)
  }

  /** Mount was called with no cleanup held, and not for the provider that was ready. */
  predicate CallOk(c: MountCall) { !c.cleanupHeld && c.ready != Some(c.provider) }

  predicate CallsOk(l: Life) { forall k :: 0 <= k < |l.calls| ==> CallOk(l.calls[k]) }

  predicate Inv(l: Life) { TimerOk(l) && Balanced(l) && DelaysOk(l) && Scheduled(l) && CallsOk(l) }

  lemma {:induction false} PowerGrows(m: nat, n: nat)
    requires m <= n
    ensures 1 <= Power(m) <= Power(n)
  {
    if m < n { PowerGrows(m, n - 1); } else if m > 0 { PowerGrows(m - 1, m - 1); }
  }

  lemma TimesGrows(k: nat, a: nat, b: nat)
    requires a <= b
    ensures k * a <= k * b
  {
  }

  /** Retry delays are bounded on both sides and never shorter after more failures in a row. */
  lemma RetryDelaysGrow(l: Life, fewer: nat, more: nat)
    requires DelaysOk(l) && fewer <= more
    ensures l.initialRetryMs <= RetryDelay(l, fewer) <= RetryDelay(l, more) <= l.maximumRetryMs
  {
    var m, n := Min(if fewer > 0 then fewer - 1 else 0, 20), Min(if more > 0 then more - 1 else 0, 20);
    PowerGrows(m, n);
    TimesGrows(l.initialRetryMs, Power(m), Power(n));
    TimesGrows(l.initialRetryMs, 1, Power(m));
  }

  /** What a probe finds before it decides: running, balanced, and at most one timer. */
  predicate Going(l: Life) { l.running && TimerOk(l) && Balanced(l) && DelaysOk(l) && CallsOk(l) }

  lemma FailedKeeps(l: Life, phase: Phase)
    requires Going(l) && !phase.Ready?
    ensures Inv(Failed(l, phase))
  {
  }

  lemma SucceededKeeps(l: Life)
    requires Going(l) && l.cleanup && !l.cleanupPending && l.provider.Some?
    ensures Inv(Succeeded(l))
  {
  }

  lemma DisposeKeeps(l: Life, cleanupWorks: bool)
    requires Going(l)
    ensures Going(DisposeMount(l, cleanupWorks)) && (Disposes(l, cleanupWorks) <==> !DisposeMount(l, cleanupWorks).cleanup)
  {
  }

  lemma MountKeeps(l: Life, provider: nat, ready: Option<nat>, mount: MountOutcome, cleanupWorks: bool)
    requires Going(l) && !l.cleanup && ready != Some(provider)
    ensures Inv(MountEnds(CallMount(l, provider, ready), provider, mount, cleanupWorks))
  {
    var m := CallMount(l, provider, ready);
    match mount
    case NotMounted => FailedKeeps(m, Unavailable);
    case Mounted => SucceededKeeps(m.(provider := Some(provider), cleanup := true, cleanupPending := false, mountGeneration := m.mountGeneration + 1));
    case PartialMount =>
      FailedKeeps(m.(provider := Some(provider), cleanup := true, cleanupPending := true, partials := m.partials + 1), Degraded);
    case MountThrows => FailedKeeps(DisposeMount(m, cleanupWorks), Degraded);
  }

  lemma ProbeKeeps(l: Life, o: Outcomes)
    requires TimerOk(l) && Balanced(l) && DelaysOk(l) && CallsOk(l) && (!l.running ==> Scheduled(l))
    requires l.phase.Ready? ==> l.cleanup && !l.cleanupPending && l.provider.Some?
    ensures Inv(ProbeNow(l, o))
  {
    if l.running {
      var p := ClearTimer(l).(phase := Probing);
      DisposeKeeps(p, o.cleanupWorks);
      var d := DisposeMount(p, o.cleanupWorks);
      match o.probe
      case NotFound => FailedKeeps(d, if Disposes(p, o.cleanupWorks) then Unavailable else Degraded);
      case ProbeThrows => FailedKeeps(d, Degraded);
      case Found(provider) =>
        if AlreadyReady(p, provider) { SucceededKeeps(p); }
        else if !Disposes(p, o.cleanupWorks) { FailedKeeps(d, Degraded); }
        else { MountKeeps(d, provider, ReadyProvider(l), o.mount, o.cleanupWorks); }
    }
  }

  lemma StepKeeps(l: Life, e: Event)
    requires Inv(l) && Enabled(l, e)
    ensures Inv(Step(l, e))
  {
    match e
    case Begin(o) => if !l.running { ProbeKeeps(l.(running := true), o); }
    case End(_) =>
    case Probe(o) => ProbeKeeps(l, o);
    case TimerFires(timer, o) => ProbeKeeps(l.(alive := l.alive - {timer}, timer := None, nextProbeDelayMs := None), o);
  }

  /**
   After every step of every run: mounts and partial mounts less unloads is one exactly while a cleanup is held and
   zero otherwise; exactly one timer is outstanding while running, with the right delay, and none after a stop.
   */
  lemma {:induction false} LifecycleHolds(states: seq<Life>, events: seq<Event>, initialRetryMs: int, maximumRetryMs: int, readyProbeMs: int, i: nat)
    requires Run(states, events, Create(initialRetryMs, maximumRetryMs, readyProbeMs)) && i < |states|
    ensures Inv(states[i]) && |states[i].alive| == (if states[i].running then 1 else 0)
  {
    if i > 0 {
      LifecycleHolds(states, events, initialRetryMs, maximumRetryMs, readyProbeMs, i - 1);
      assert Steps(states[i - 1], events[i - 1], states[i]);
      StepKeeps(states[i - 1], events[i - 1]);
    }
  }

  /** In every run, every call to mount found no cleanup held, and its provider was not the one ready before the probe. */
  lemma NoMountOverAnother(states: seq<Life>, events: seq<Event>, initialRetryMs: int, maximumRetryMs: int, readyProbeMs: int, i: nat, k: nat)
    requires Run(states, events, Create(initialRetryMs, maximumRetryMs, readyProbeMs)) && i < |states| && k < |states[i].calls|
    ensures var call := states[i].calls[k]; !call.cleanupHeld && call.ready != Some(call.provider)
  {
    LifecycleHolds(states, events, initialRetryMs, maximumRetryMs, readyProbeMs, i);
  }

  /**
   A step calls mount once at most, no call is forgotten, and only a call raises the number of mounts or partial mounts.
   Where something was mounted before, the call comes after its cleanup has been run with success.
   */
  lemma MountsAreCalled(l: Life, e: Event)
    requires Inv(l) && Enabled(l, e)
    ensures var l' := Step(l, e);
            && l.calls <= l'.calls && |l'.calls| <= |l.calls| + 1
            && l.mountGeneration + l.partials <= l'.mountGeneration + l'.partials
            && l'.mountGeneration + l'.partials - |l'.calls| <= l.mountGeneration + l.partials - |l.calls|
            && (l.cleanup && |l'.calls| > |l.calls| ==> l'.unloadGeneration == l.unloadGeneration + 1)
  {
    match e
    case Begin(o) => ProbeMounts(l.(running := true), o);
    case End(_) =>
    case Probe(o) => ProbeMounts(l, o);
    case TimerFires(timer, o) => ProbeMounts(l.(alive := l.alive - {timer}, timer := None, nextProbeDelayMs := None), o);
  }

  lemma ProbeMounts(l: Life, o: Outcomes)
    ensures var l' := ProbeNow(l, o);
            && l.calls <= l'.calls && |l'.calls| <= |l.calls| + 1
            && l.mountGeneration + l.partials <= l'.mountGeneration + l'.partials
            && l'.mountGeneration + l'.partials - |l'.calls| <= l.mountGeneration + l.partials - |l.calls|
            && (l.cleanup && |l'.calls| > |l.calls| ==> l'.unloadGeneration == l.unloadGeneration + 1)
  {
    var d := DisposeMount(ClearTimer(l).(phase := Probing), o.cleanupWorks);
    if o.probe.Found? && !d.cleanup { EndsMount(CallMount(d, o.probe.provider, ReadyProvider(l)), o.probe.provider, o.mount, o.cleanupWorks); }
  }

  lemma EndsMount(m: Life, provider: nat, mount: MountOutcome, cleanupWorks: bool)
    requires !m.cleanup
    ensures var l' := MountEnds(m, provider, mount, cleanupWorks);
            && l'.calls == m.calls && l'.unloadGeneration == m.unloadGeneration
            && m.mountGeneration + m.partials <= l'.mountGeneration + l'.partials <= m.mountGeneration + m.partials + 1
  {
  }

  /** A cleanup that has not succeeded is kept: it can only go by being run again with success, counted as an unload. */
  lemma PendingCleanupIsKept(l: Life, e: Event)
    requires Inv(l) && Enabled(l, e) && l.cleanup
    ensures Step(l, e).unloadGeneration <= l.unloadGeneration + 1
    ensures Step(l, e).unloadGeneration == l.unloadGeneration ==> Step(l, e).cleanup && Step(l, e).provider == l.provider
  {
    match e
    case Begin(o) => ProbePending(l.(running := true), o);
    case End(_) =>
    case Probe(o) => ProbePending(l, o);
    case TimerFires(timer, o) => ProbePending(l.(alive := l.alive - {timer}, timer := None, nextProbeDelayMs := None), o);
  }

  lemma ProbePending(l: Life, o: Outcomes)
    requires l.cleanup
    ensures ProbeNow(l, o).unloadGeneration <= l.unloadGeneration + 1
    ensures ProbeNow(l, o).unloadGeneration == l.unloadGeneration ==> ProbeNow(l, o).cleanup && ProbeNow(l, o).provider == l.provider
  {
  }

  // -------------------------------------------------------------------------
  // What a probe leads to
  // -------------------------------------------------------------------------

  /** The first retry waits for the initial delay. Each further one doubles the wait, up to the longest, for 20 doublings at most. */
  lemma RetryDelayDoubles(l: Life, failures: nat)
    requires DelaysOk(l) && failures > 0
    ensures RetryDelay(l, 1) == l.initialRetryMs
    ensures failures <= 20 ==> RetryDelay(l, failures + 1) == Min(l.maximumRetryMs, 2 * RetryDelay(l, failures))
    ensures failures > 20 ==> RetryDelay(l, failures + 1) == RetryDelay(l, failures)
  {
    if failures <= 20 {
      assert Power(failures) == 2 * Power(failures - 1);
      TwiceOf(l.initialRetryMs, Power(failures - 1));
    }
  }

  lemma TwiceOf(k: nat, power: nat)
    ensures k * (2 * power) == 2 * (k * power)
  {
  }

  /** What is mounted is gone by the end of its cleanup, or nothing was. */
  predicate Released(l: Life, o: Outcomes) { l.cleanup ==> o.cleanupWorks }

  /** The provider found is mounted already and not about to go. */
  predicate Mounts(l: Life, provider: nat) { l.cleanup && !l.cleanupPending && l.provider == Some(provider) }

  /** A probe ends well when its provider is mounted already, or what was mounted is released and the call to mount succeeds. */
  predicate EndsReady(l: Life, o: Outcomes) {
    o.probe.Found? && (Mounts(l, o.probe.provider) || (Released(l, o) && o.mount.Mounted?))
  }

  /** There was nothing to mount, or the provider declined; what was mounted is released. */
  predicate EndsUnavailable(l: Life, o: Outcomes) {
    Released(l, o) && (o.probe.NotFound? || (o.probe.Found? && !Mounts(l, o.probe.provider) && o.mount.NotMounted?))
  }

  /** The mount left behind a probe that did not end well: one whose cleanup failed, or half a new one. */
  predicate LeavesMount(l: Life, o: Outcomes) { !Released(l, o) || (o.probe.Found? && o.mount.PartialMount?) }

  /** Where a probe ends, what it leaves mounted, and when the next one is due. */
  predicate Lands(l: Life, o: Outcomes, l': Life) {
    && l'.running
    && l'.phase == (if EndsReady(l, o) then Ready else if EndsUnavailable(l, o) then Unavailable else Degraded)
    && l'.consecutiveFailures == (if EndsReady(l, o) then 0 else l.consecutiveFailures + 1)
    && l'.nextProbeDelayMs == Some(if EndsReady(l, o) then l.readyProbeMs else RetryDelay(l, l.consecutiveFailures + 1))
    && (l'.cleanup <==> EndsReady(l, o) || LeavesMount(l, o)) && (l'.cleanupPending <==> !EndsReady(l, o) && LeavesMount(l, o))
    && l'.provider ==
         (if EndsReady(l, o) then Some(o.probe.provider)
          else if !Released(l, o) then l.provider
          else if LeavesMount(l, o) then Some(o.probe.provider) else None)
  }

  /** A probe of a running supervisor lands as its callbacks say; the timer that fired and the first start make no difference. */
  lemma ProbeDecides(l: Life, e: Event)
    requires Inv(l) && Enabled(l, e) && (e.Begin? ==> !l.running) && (e.TimerFires? || e.Probe? ==> l.running) && !e.End?
    ensures Lands(l, e.outcomes, Step(l, e))
  {
    match e
    case Begin(o) => ProbeLands(l.(running := true), o);
    case Probe(o) => ProbeLands(l, o);
    case TimerFires(timer, o) => ProbeLands(l.(alive := l.alive - {timer}, timer := None, nextProbeDelayMs := None), o);
    case End(_) =>
  }

  lemma ProbeLands(l: Life, o: Outcomes)
    requires l.running
    ensures Lands(l, o, ProbeNow(l, o))
  {
    var p := ClearTimer(l).(phase := Probing);
    if o.probe.Found? && !Mounts(l, o.probe.provider) { ReplaceLands(l, p, o, ReadyProvider(l)); }
  }

  lemma ReplaceLands(l: Life, p: Life, o: Outcomes, ready: Option<nat>)
    requires l.running && p == ClearTimer(l).(phase := Probing) && o.probe.Found? && !Mounts(l, o.probe.provider)
    ensures Lands(l, o, Replace(p, o.probe.provider, ready, o.mount, o.cleanupWorks))
  {
    var d := DisposeMount(p, o.cleanupWorks);
    if Released(l, o) { MountLands(l, CallMount(d, o.probe.provider, ready), o); }
  }

  lemma MountLands(l: Life, m: Life, o: Outcomes)
    requires l.running && o.probe.Found? && !Mounts(l, o.probe.provider) && Released(l, o)
    requires m.running && !m.cleanup && !m.cleanupPending && m.provider.None? && m.consecutiveFailures == l.consecutiveFailures
    requires m.initialRetryMs == l.initialRetryMs && m.maximumRetryMs == l.maximumRetryMs && m.readyProbeMs == l.readyProbeMs
    ensures Lands(l, o, MountEnds(m, o.probe.provider, o.mount, o.cleanupWorks))
  {
  }

  /** A stop of a running supervisor, or of one with a mount left, releases the mount if its cleanup works; any other is nothing. */
  lemma StopDecides(l: Life, cleanupWorks: bool)
    requires Inv(l)
    ensures var l' := Step(l, End(cleanupWorks));
            if !l.running && !l.cleanup then l' == l
            else
              && !l'.running && l'.nextProbeDelayMs.None? && l'.alive == {} && l'.calls == l.calls
              && (l'.cleanup <==> l.cleanup && !cleanupWorks) && (l'.cleanup ==> l'.cleanupPending && l'.provider == l.provider)
              && (!l'.cleanup ==> !l'.cleanupPending && l'.provider.None?)
              && l'.phase == (if l'.cleanup then Degraded else Unavailable)
  {
  }

  /** Starting again, and probing or firing while stopped, do nothing. */
  lemma OtherStepsDoNothing(l: Life, o: Outcomes)
    ensures l.running ==> Step(l, Begin(o)) == l
    ensures !l.running ==> Step(l, Probe(o)) == l
  {
  }
}
