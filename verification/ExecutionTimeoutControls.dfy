/** One execution as the program keeps it. Every method is a stretch of code without a
    suspension, and does to the variables what its step says. */
module ExecutionTimeoutControls {
  import opened Options
  import opened ExecutionTimeouts
  import opened ExecutionTimeoutLaws

  class Execution {
    const decision: Decision
    var now: nat
    var events: seq<Event>
    var appended: seq<Event>
    var stream: Stream
    var nearTimer: bool
    var cancelled: bool
    var currentTimer: Option<nat>
    var stage: Stage
    var extensionCount: nat
    var currentBudgetMs: nat
    var watchdogTimer: bool
    var watchdogFired: bool

    function Now(): State
      reads this
    {
      State(now, events, appended, stream, nearTimer, cancelled, currentTimer, stage, extensionCount, currentBudgetMs,
            watchdogTimer, watchdogFired)
    }

    /** `startExecutionTimeoutControls`, at `ready`, after `prepareExecution` has armed the
        watchdog at `armed`. */
    constructor (request: Request, defaultMs: nat, armed: nat, ready: nat)
      requires armed <= ready
      ensures decision == Decide(request, defaultMs, armed, ready) && Now() == Start(decision)
      ensures forall limit :: IsLimit(request, defaultMs, limit) ==> Honours(request, limit, decision)
      ensures watchdogTimer && nearTimer && now == ready
      ensures currentTimer == if request.soft then Some(ready + decision.softMs) else None
    {
      var d := Decide(request, defaultMs, armed, ready);
      decision := d;
      now, events, appended, stream := ready, [], [], Reading;
      nearTimer, watchdogTimer, watchdogFired := true, true, false;
      cancelled, stage, extensionCount, currentBudgetMs := false, Waiting, 0, d.softMs;
      currentTimer := if d.soft then Some(ready + d.softMs) else None;
      forall limit | IsLimit(request, defaultMs, limit) ensures Honours(request, limit, d) {
        DecisionFollowsRequest(request, defaultMs, armed, ready, limit);
      }
    }

    method Append(e: Event)
      modifies this`events, this`appended
      ensures Now() == Push(old(Now()), e)
    {
      events := events + [e];
      appended := appended + [e];
    }

    method Elapse(ms: nat)
      modifies this`now
      ensures Now() == Next(decision, old(Now()), Step.Elapse(ms))
    {
      now := now + ms;
    }

    method AppendNearTimeoutWarning() returns (appending: bool)
      modifies this`events, this`appended
      ensures appending == Warns(decision, old(Now()))
      ensures Now() == Warned(decision, old(Now()))
    {
      appending := false;
      if !HasWarning(events) {
        if IsNear(now, decision.softMs) {
          if HasEvidence(events) {
            Append(NearWarning(now));
            appending := true;
          }
        }
      }
    }

    method FireNearTimer()
      requires Possible(decision, Now(), NearTimerFires)
      modifies this`nearTimer, this`events, this`appended
      ensures Now() == Next(decision, old(Now()), NearTimerFires)
    {
      nearTimer := false;
      var _ := AppendNearTimeoutWarning();
    }

    /** `fire`, up to the suspension in `appendTimeoutBudgetExceededForCycle`. */
    method Fire()
      requires Possible(decision, Now(), CycleTimerFires)
      modifies this`currentTimer, this`stage, this`events, this`appended
      ensures Now() == Next(decision, old(Now()), CycleTimerFires)
    {
      currentTimer := None;
      if !IsReported(events, currentBudgetMs) {
        Append(BudgetExceeded(currentBudgetMs, now));
      }
      stage := BudgetReported(now);
    }

    /** `fire` after either suspension. */
    method GoOn(ok: bool)
      requires Possible(decision, Now(), CycleGoesOn(ok))
      modifies this`currentTimer, this`stage, this`extensionCount, this`currentBudgetMs, this`events, this`appended
      ensures Now() == Next(decision, old(Now()), CycleGoesOn(ok))
    {
      var at := stage;
      stage := Waiting;
      if !ok || cancelled {
        return;
      }
      match at {
        case BudgetReported(elapsed) =>
          if extensionCount >= decision.maxExtensions {
            return;
          }
          extensionCount := extensionCount + 1;
          currentBudgetMs := currentBudgetMs + decision.extensionMs;
          Append(ExtensionGranted(extensionCount, currentBudgetMs, elapsed));
          stage := ExtensionReported;
        case ExtensionReported =>
          currentTimer := Some(now + decision.extensionMs);
      }
    }

    method FireWatchdog()
      requires Possible(decision, Now(), WatchdogFires)
      modifies this`watchdogTimer, this`watchdogFired
      ensures Now() == Next(decision, old(Now()), WatchdogFires)
    {
      watchdogTimer, watchdogFired := false, true;
    }

    /** `processRuntimeExecutionEvent`, up to its first suspension. */
    method ProcessEvent(raw: Raw, health: bool, last: bool)
      requires Possible(decision, Now(), StreamReads(raw, health, last))
      modifies this`stream, this`events, this`appended
      ensures Now() == Next(decision, old(Now()), StreamReads(raw, health, last))
    {
      stream := Processing(health, last);
      Append(Decorated(decision, Now(), raw));
    }

    /** The stream loop after a suspension. */
    method ContinueStream(ok: bool, closed: bool)
      requires Possible(decision, Now(), StreamGoesOn(ok, closed))
      modifies this`stream, this`events, this`appended
      ensures Now() == Next(decision, old(Now()), StreamGoesOn(ok, closed))
    {
      match stream {
        case Processing(health, last) =>
          if !ok {
            stream := Done;
          } else if health {
            stream := Processing(false, last);
            Append(CacheHealth);
          } else if closed {
            stream := Done;
          } else {
            var appending := AppendNearTimeoutWarning();
            stream := if appending then Warning(last) else if last then Done else Reading;
          }
        case Warning(last) =>
          stream := if !ok || last then Done else Reading;
      }
    }

    method EndStream()
      requires Possible(decision, Now(), StreamEnds)
      modifies this`stream
      ensures Now() == Next(decision, old(Now()), StreamEnds)
    {
      stream := Done;
    }

    /** The execution's `finally`. */
    method CancelTimers()
      requires Possible(decision, Now(), Cancel)
      modifies this`nearTimer, this`cancelled, this`currentTimer, this`watchdogTimer
      ensures Now() == Next(decision, old(Now()), Cancel)
    {
      nearTimer := false;
      cancelled := true;
      currentTimer := None;
      watchdogTimer := false;
    }
  }
}
