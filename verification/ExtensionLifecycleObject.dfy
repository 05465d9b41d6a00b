/** The supervisor as an object whose methods update its fields. */
module ExtensionLifecycleObject {
  import opened Options
  import opened ExtensionLifecycle

  class RestExtensionLifecycle {
    const initialRetryMs: nat
    const maximumRetryMs: nat
    const readyProbeMs: nat
    var timer: Option<nat>
    var provider: Option<nat>
    var cleanup: bool
    var cleanupPending: bool
    var running: bool
    var probing: bool
    var phase: Phase
    var mountGeneration: nat
    var unloadGeneration: nat
    var consecutiveFailures: nat
    var nextProbeDelayMs: Option<nat>
    var alive: set<nat>
    var nextTimer: nat
    var partials: nat
    var calls: seq<MountCall>

    constructor (initialRetryMs: int, maximumRetryMs: int, readyProbeMs: int)
      ensures View() == Create(initialRetryMs, maximumRetryMs, readyProbeMs) && !probing
    {
      var initial := Max(50, initialRetryMs);
      this.initialRetryMs, this.maximumRetryMs, this.readyProbeMs := initial, Max(initial, maximumRetryMs), Max(100, readyProbeMs);
      timer, provider, cleanup, cleanupPending, running, probing := None, None, false, false, false, false;
      phase, mountGeneration, unloadGeneration, consecutiveFailures, nextProbeDelayMs := Unavailable, 0, 0, 0, None;
      alive, nextTimer, partials, calls := {}, 0, 0, [];
    }

    function View(): Life
      reads this
    {
      Life(initialRetryMs, maximumRetryMs, readyProbeMs, timer, provider, cleanup, cleanupPending, running, phase,
           mountGeneration, unloadGeneration, consecutiveFailures, nextProbeDelayMs, alive, nextTimer, partials, calls)
    }

    method Clear()
      modifies this`alive, this`timer, this`nextProbeDelayMs
      ensures View() == ClearTimer(old(View()))
    {
      if timer.Some? { alive := alive - {timer.value}; }
      timer := None;
      nextProbeDelayMs := None;
    }

    method Schedule(delayMs: nat)
      modifies this`alive, this`timer, this`nextProbeDelayMs, this`nextTimer
      ensures View() == ScheduleNext(old(View()), delayMs)
    {
      if !running {
        nextProbeDelayMs := None;
        return;
      }
      Clear();
      nextProbeDelayMs := Some(delayMs);
      timer := Some(nextTimer);
      alive := alive + {nextTimer};
      nextTimer := nextTimer + 1;
    }

    method Dispose(cleanupWorks: bool) returns (disposed: bool)
      modifies this`cleanup, this`provider, this`cleanupPending, this`unloadGeneration
      ensures disposed == Disposes(old(View()), cleanupWorks) && View() == DisposeMount(old(View()), cleanupWorks)
    {
      if !cleanup {
        provider, cleanupPending := None, false;
        return true;
      }
      if cleanupWorks {
        cleanup, provider, cleanupPending := false, None, false;
        unloadGeneration := unloadGeneration + 1;
        return true;
      }
      cleanupPending := true;
      disposed := false;
    }

    method Fail(next: Phase)
      modifies this`phase, this`consecutiveFailures, this`alive, this`timer, this`nextProbeDelayMs, this`nextTimer
      ensures View() == Failed(old(View()), next)
    {
      phase := next;
      consecutiveFailures := consecutiveFailures + 1;
      Schedule(RetryDelay(View(), consecutiveFailures));
    }

    method Succeed()
      modifies this`phase, this`consecutiveFailures, this`alive, this`timer, this`nextProbeDelayMs, this`nextTimer
      ensures View() == Succeeded(old(View()))
    {
      phase := Ready;
      consecutiveFailures := 0;
      Schedule(readyProbeMs);
    }

    method CallMount(candidate: nat, ready: Option<nat>)
      modifies this`phase, this`calls
      ensures View() == ExtensionLifecycle.CallMount(old(View()), candidate, ready)
    {
      phase := Mounting;
      calls := calls + [MountCall(candidate, cleanup, ready)];
    }

    method MountReturns(candidate: nat, mount: MountOutcome, cleanupWorks: bool)
      modifies this`provider, this`cleanup, this`cleanupPending, this`mountGeneration, this`unloadGeneration, this`partials
      ensures View() == ExtensionLifecycle.MountReturns(old(View()), candidate, mount, cleanupWorks)
    {
      match mount {
        case NotMounted =>
        case Mounted =>
          provider, cleanup, cleanupPending := Some(candidate), true, false;
          mountGeneration := mountGeneration + 1;
        case PartialMount =>
          provider, cleanup, cleanupPending := Some(candidate), true, true;
          partials := partials + 1;
        case MountThrows =>
          var disposed := Dispose(cleanupWorks);
      }
    }

    /** What follows the call to mount. */
    method MountEnds(candidate: nat, mount: MountOutcome, cleanupWorks: bool)
      modifies this`phase, this`consecutiveFailures, this`alive, this`timer, this`nextProbeDelayMs, this`nextTimer
      modifies this`provider, this`cleanup, this`cleanupPending, this`mountGeneration, this`unloadGeneration, this`partials
      ensures View() == ExtensionLifecycle.MountEnds(old(View()), candidate, mount, cleanupWorks)
    {
      MountReturns(candidate, mount, cleanupWorks);
      match mount {
        case Mounted => Succeed();
        case NotMounted => Fail(Unavailable);
        case _ => Fail(Degraded);
      }
    }

    method ReplaceMount(candidate: nat, ready: Option<nat>, mount: MountOutcome, cleanupWorks: bool)
      modifies this`phase, this`consecutiveFailures, this`alive, this`timer, this`nextProbeDelayMs, this`nextTimer, this`calls
      modifies this`provider, this`cleanup, this`cleanupPending, this`mountGeneration, this`unloadGeneration, this`partials
      ensures View() == Replace(old(View()), candidate, ready, mount, cleanupWorks)
    {
      var disposed := Dispose(cleanupWorks);
      if disposed {
        CallMount(candidate, ready);
        MountEnds(candidate, mount, cleanupWorks);
      } else {
        Fail(Degraded);
      }
    }

    method RunProbe(o: Outcomes)
      requires !probing
      modifies this
      ensures View() == ProbeNow(old(View()), o) && !probing
    {
      if !running || probing { return; }
      var ready := if phase.Ready? then provider else None;
      Clear();
      probing := true;
      phase := Probing;
      DecideProbe(ready, o);
      probing := false;
    }

    /** What follows the call to probe. */
    method DecideProbe(ready: Option<nat>, o: Outcomes)
      modifies this`phase, this`consecutiveFailures, this`alive, this`timer, this`nextProbeDelayMs, this`nextTimer, this`calls
      modifies this`provider, this`cleanup, this`cleanupPending, this`mountGeneration, this`unloadGeneration, this`partials
      ensures View() == ProbeEnds(old(View()), ready, o)
    {
      match o.probe {
        case Found(candidate) =>
          if provider == Some(candidate) && cleanup && !cleanupPending {
            Succeed();
          } else {
            ReplaceMount(candidate, ready, o.mount, o.cleanupWorks);
          }
        case _ =>
          var disposed := Dispose(o.cleanupWorks);
          Fail(if o.probe.NotFound? && disposed then Unavailable else Degraded);
      }
    }

    method Start(o: Outcomes)
      requires !probing
      modifies this
      ensures View() == StartUp(old(View()), o) && !probing
    {
      if running { return; }
      running := true;
      RunProbe(o);
    }

    method StopNow(cleanupWorks: bool)
      modifies this
      ensures View() == Stop(old(View()), cleanupWorks) && probing == old(probing)
    {
      if !running && !cleanup { return; }
      running := false;
      Clear();
      var disposed := Dispose(cleanupWorks);
      phase := if disposed then Unavailable else Degraded;
      nextProbeDelayMs := None;
    }

    method OnTimer(o: Outcomes)
      requires !probing && timer.Some? && timer.value in alive
      modifies this
      ensures View() == Step(old(View()), TimerFires(old(timer.value), o)) && !probing
    {
      alive := alive - {timer.value};
      timer := None;
      nextProbeDelayMs := None;
      RunProbe(o);
    }
  }
}
