/** What the fields of a request, and the events the runtime yields, come to in a run. */
module ExecutionTimeoutLaws {
  import opened Options
  import opened ExecutionTimeouts

  // ---------------------------------------------------------------- the request

  /** The time limit of a request. */
  ghost predicate IsLimit(r: Request, defaultMs: nat, limit: nat) {
    r.timeoutMs == Some(limit) || (r.timeoutMs == None && limit == defaultMs)
  }

  /** A fatal request is cut off at its watchdog's time, or else at its limit; a soft one gets
      three times its limit, and five minutes more than it at the least. */
  ghost predicate IsWatchdog(r: Request, limit: nat, watchdog: nat) {
    match r.watchdogTimeoutMs
    case Some(given) => watchdog == given
    case None =>
      if !r.soft then watchdog == limit
      else
        && watchdog >= 3 * limit && watchdog >= limit + 300000
        && (watchdog == 3 * limit || watchdog == limit + 300000)
  }

  /** What is given is honoured under either policy, but for extensions of a fatal request:
      it has none. What is missing follows from the limit. */
  ghost predicate Honours(r: Request, limit: nat, d: Decision) {
    && d.soft == r.soft
    && IsWatchdog(r, limit, d.watchdogMs)
    && (match r.softTimeoutMs case Some(given) => d.softMs == given case None => d.softMs == limit)
    && (match r.extensionMs case Some(given) => d.extensionMs == given case None => d.extensionMs == d.softMs)
    && (if !r.soft then d.maxExtensions == 0
        else match r.maxExtensions case Some(given) => d.maxExtensions == given case None => d.maxExtensions == 1)
  }

  lemma DecisionFollowsRequest(r: Request, defaultMs: nat, armed: nat, ready: nat, limit: nat)
    requires IsLimit(r, defaultMs, limit)
    ensures var d := Decide(r, defaultMs, armed, ready);
      Honours(r, limit, d) && d.armed == armed && d.ready == ready
  {
  }

  /** The watchdog is armed until it fires or is cancelled, and so is the near-timeout timer. */
  ghost predicate Armed(s: State) {
    && (s.watchdogTimer <==> !s.watchdogFired && !s.cancelled)
    && (s.cancelled ==> !s.nearTimer && s.cycleTimer.None? && s.stream == Done)
  }

  lemma StepArmed(d: Decision, s: State, step: Step)
    requires Armed(s)
    ensures Armed(Next(d, s, step))
  {
    hide IsReported, Warns, CycleEvents;
  }

  lemma {:induction false} RunArmed(d: Decision, steps: seq<Step>)
    ensures Armed(Run(d, Start(d), steps))
  {
    if steps != [] {
      RunArmed(d, steps[..|steps| - 1]);
      hide Next, Armed;
      StepArmed(d, Run(d, Start(d), steps[..|steps| - 1]), steps[|steps| - 1]);
    }
  }

  /** In every run of a request the watchdog fires when its time after arming is over, unless
      it has fired or the execution is over, and not before. */
  lemma {:induction false} WatchdogOnRequest(r: Request, defaultMs: nat, armed: nat, ready: nat, limit: nat,
        watchdog: nat, steps: seq<Step>)
    requires IsLimit(r, defaultMs, limit) && IsWatchdog(r, limit, watchdog)
    ensures var d := Decide(r, defaultMs, armed, ready);
      var s := Run(d, Start(d), steps);
      Next(d, s, WatchdogFires).watchdogFired <==> s.watchdogFired || (!s.cancelled && s.now >= armed + watchdog)
  {
    DecisionFollowsRequest(r, defaultMs, armed, ready, limit);
    var d := Decide(r, defaultMs, armed, ready);
    assert d.watchdogMs == watchdog;
    hide Decide, Run;
    RunArmed(d, steps);
  }

  /** No budget is reported, no extension granted, and a timeout is an error like any other. */
  ghost predicate Plain(events: seq<Event>) {
    forall e :: e in events ==> !e.BudgetExceeded? && !e.ExtensionGranted? && (e.Error? ==> e.watchdog.None?)
  }

  /** A fatal request is never extended. */
  lemma {:induction false} FatalIsFinal(r: Request, defaultMs: nat, armed: nat, ready: nat, steps: seq<Step>)
    requires !r.soft
    ensures var d := Decide(r, defaultMs, armed, ready); Plain(Run(d, Start(d), steps).events)
  {
    var d := Decide(r, defaultMs, armed, ready);
    assert !d.soft && CycleOver(Start(d));
    if steps != [] {
      var front, last := steps[..|steps| - 1], steps[|steps| - 1];
      FatalIsFinal(r, defaultMs, armed, ready, front);
      hide Decide;
      CycleStaysOver(d, Start(d), front);
      var added := StepAdds(d, Run(d, Start(d), front), last);
      assert !MovesCycle(d, Run(d, Start(d), front), last);
      hide Next;
    }
  }

  // ---------------------------------------------------------------- one event of the runtime

  /** What becomes of what the runtime yields: only a timeout under the soft policy, once the
      watchdog has fired, is told apart, and names the cycle's events. */
  ghost predicate StoredAs(d: Decision, s: State, raw: Raw, e: Event) {
    match raw
    case YieldsEvidence => e == Evidence
    case YieldsMessage => e == Message
    case YieldsError(timeout) =>
      && e.Error? && e.timeout == timeout
      && e.watchdog == if timeout && d.soft && s.watchdogFired then Some(|CycleEvents(s.events)|) else None
  }

  /** A near-timeout warning is due: four fifths of the budget are used up, there is evidence
      of work, and none was given before. */
  ghost predicate WarningDue(d: Decision, events: seq<Event>, now: nat) {
    && d.softMs > 0 && 5 * now >= 4 * d.softMs
    && (exists k :: 0 <= k < |events| && events[k] == Evidence)
    && forall k :: 0 <= k < |events| ==> !events[k].NearWarning?
  }

  lemma DueIsWarns(d: Decision, s: State)
    ensures WarningDue(d, s.events, s.now) <==> Warns(d, s)
  {
    if Evidence in s.events {
      var k :| 0 <= k < |s.events| && s.events[k] == Evidence;
    }
    assert HasWarning(s.events) ==> exists k :: 0 <= k < |s.events| && s.events[k].NearWarning?;
  }

  /** The steps for one event of the runtime that is stored without failures. */
  function Handling(raw: Raw, health: bool, last: bool, closed: bool): seq<Step> {
    [StreamReads(raw, health, last)] + (if health then [StreamGoesOn(true, closed)] else []) + [StreamGoesOn(true, closed)]
  }

  function Handled(d: Decision, s: State, raw: Raw, health: bool, last: bool, closed: bool): State {
    var read := Next(d, s, StreamReads(raw, health, last));
    var noted := if health then Next(d, read, StreamGoesOn(true, closed)) else read;
    Next(d, noted, StreamGoesOn(true, closed))
  }

  lemma HandlingRuns(d: Decision, s: State, raw: Raw, health: bool, last: bool, closed: bool)
    ensures Run(d, s, Handling(raw, health, last, closed)) == Handled(d, s, raw, health, last, closed)
  {
    hide Next;
    var goes := StreamGoesOn(true, closed);
    var first := [StreamReads(raw, health, last)];
    assert Run(d, s, []) == s && [] + first == first;
    RunPush(d, s, [], StreamReads(raw, health, last));
    RunPush(d, s, first, goes);
    if health {
      RunPush(d, s, first + [goes], goes);
    } else {
      assert first + [] == first;
    }
  }

  /** The loop stores each event, then the cache health that goes with it, and then, unless its
      reader is gone, the warning that is due; it reads on unless the event was the last. */
  lemma OneEvent(d: Decision, s: State, raw: Raw, health: bool, last: bool, closed: bool)
    requires s.stream == Reading
    ensures var t := Run(d, s, Handling(raw, health, last, closed));
      exists e :: StoredAs(d, s, raw, e)
        && var stored := s.events + [e] + if health then [CacheHealth] else [];
           var due := !closed && WarningDue(d, stored, s.now);
           && t.events == stored + (if due then [NearWarning(s.now)] else [])
           && t.stream == (if due then Warning(last) else if closed || last then Done else Reading)
  {
    HandlingRuns(d, s, raw, health, last, closed);
    var e, goes := Decorated(d, s, raw), StreamGoesOn(true, closed);
    assert StoredAs(d, s, raw, e);
    var stored := s.events + [e] + if health then [CacheHealth] else [];
    assert s.events + [e] + [] == s.events + [e];
    var read := Next(d, s, StreamReads(raw, health, last));
    ReadsOne(d, s, raw, health, last);
    var noted := if health then Next(d, read, goes) else read;
    if health {
      NotesHealth(d, read, last, goes.closed);
    }
    hide Run, Next, Decorated, WarningDue;
    DecidesWarning(d, noted, last, closed);
    assert stored + [] == stored;
  }

  lemma ReadsOne(d: Decision, s: State, raw: Raw, health: bool, last: bool)
    requires s.stream == Reading
    ensures var t := Next(d, s, StreamReads(raw, health, last));
      t.events == s.events + [Decorated(d, s, raw)] && t.stream == Processing(health, last) && t.now == s.now
  {
    hide Decorated;
  }

  lemma NotesHealth(d: Decision, s: State, last: bool, closed: bool)
    requires s.stream == Processing(true, last)
    ensures var t := Next(d, s, StreamGoesOn(true, closed));
      t.events == s.events + [CacheHealth] && t.stream == Processing(false, last) && t.now == s.now
  {
    hide Warns;
  }

  lemma DecidesWarning(d: Decision, s: State, last: bool, closed: bool)
    requires s.stream == Processing(false, last)
    ensures var t, due := Next(d, s, StreamGoesOn(true, closed)), !closed && WarningDue(d, s.events, s.now);
      && t.events == s.events + (if due then [NearWarning(s.now)] else [])
      && t.stream == if due then Warning(last) else if closed || last then Done else Reading
  {
    DueIsWarns(d, s);
    DueIsWarns(d, s.(stream := Warning(last)));
    hide Warns, WarningDue;
    assert s.events + [] == s.events;
  }

  /** After its own warning, and after any write that fails, the loop goes on or is done. */
  lemma AfterWrite(d: Decision, s: State, ok: bool, closed: bool)
    requires s.stream.Warning? || (s.stream.Processing? && !ok)
    ensures var t := Next(d, s, StreamGoesOn(ok, closed));
      t.events == s.events && t.stream == if ok && !s.stream.last then Reading else Done
  {
  }

  /** A loop that is done reads nothing more. */
  lemma {:induction false} DoneStaysDone(d: Decision, s: State, steps: seq<Step>)
    requires s.stream == Done
    ensures Run(d, s, steps).stream == Done
  {
    if steps != [] {
      DoneStaysDone(d, s, steps[..|steps| - 1]);
      hide IsReported, Warns;
    }
  }

  /** The near-timeout timer, when it is due, warns exactly if a warning is due, and is spent. */
  lemma NearTimerWarns(d: Decision, s: State)
    requires s.nearTimer && s.now >= d.ready + d.softMs * 4 / 5
    ensures var t := Next(d, s, NearTimerFires);
      !t.nearTimer && t.events == s.events + if WarningDue(d, s.events, s.now) then [NearWarning(s.now)] else []
  {
    DueIsWarns(d, s);
    DueIsWarns(d, s.(nearTimer := false));
    hide Warns, WarningDue;
    assert s.events + [] == s.events;
  }

  /** No timer fires before it is due, or when it is not armed. */
  lemma NoTimerIsEarly(d: Decision, s: State)
    ensures !s.nearTimer || s.now < d.ready + d.softMs * 4 / 5 ==> Next(d, s, NearTimerFires) == s
    ensures (s.cycleTimer.Some? ==> s.now < s.cycleTimer.value) ==> Next(d, s, CycleTimerFires) == s
    ensures !s.watchdogTimer || s.now < d.armed + d.watchdogMs ==> Next(d, s, WatchdogFires) == s
  {
  }

  /** Every warning comes after evidence of work. */
  ghost predicate EvidenceFirst(events: seq<Event>) {
    forall j :: 0 <= j < |events| && events[j].NearWarning? ==> Evidence in events[..j]
  }

  lemma {:induction false} WarningsHaveEvidence(d: Decision, steps: seq<Step>)
    ensures EvidenceFirst(Run(d, Start(d), steps).events)
  {
    if steps != [] {
      var s, last := Run(d, Start(d), steps[..|steps| - 1]), steps[|steps| - 1];
      WarningsHaveEvidence(d, steps[..|steps| - 1]);
      var added := StepAdds(d, s, last);
      var t := Next(d, s, last);
      assert Run(d, Start(d), steps) == t && t.events == s.events + added;
      assert forall e :: e in added && e.NearWarning? ==> Evidence in s.events;
      hide Next, Run;
      forall j | 0 <= j < |t.events| && t.events[j].NearWarning? ensures Evidence in t.events[..j] {
        if j < |s.events| {
          assert t.events[..j] == s.events[..j];
        } else {
          assert added[0] in added && t.events[..j] == s.events;
        }
      }
    }
  }

  // ---------------------------------------------------------------- the cycle ends

  /** The cycle neither waits for a timer nor for a write. */
  ghost predicate CycleOver(s: State) {
    s.cycleTimer.None? && s.stage == Waiting
  }

  /** Once it is over, none of its events is added any more. */
  lemma {:induction false} CycleStaysOver(d: Decision, s: State, steps: seq<Step>)
    requires CycleOver(s)
    ensures CycleOver(Run(d, s, steps)) && CycleEvents(Run(d, s, steps).events) == CycleEvents(s.events)
  {
    if steps != [] {
      var t, last := Run(d, s, steps[..|steps| - 1]), steps[|steps| - 1];
      CycleStaysOver(d, s, steps[..|steps| - 1]);
      var added := StepAdds(d, t, last);
      assert !MovesCycle(d, t, last) && Run(d, s, steps) == Next(d, t, last);
      hide Next, Run, CycleEvents;
      OtherEvents(t.events, added);
    }
  }

  /** It is over when a write fails, when it is cancelled, and when its last budget has been
      reported; otherwise it goes on with an extension, and with a timer for that. */
  lemma CycleEndsIff(d: Decision, s: State, ok: bool)
    requires s.stage != Waiting && s.cycleTimer.None?
    ensures var t := Next(d, s, CycleGoesOn(ok));
      && (CycleOver(t) <==> !ok || s.cancelled || (s.stage.BudgetReported? && s.extensionCount >= d.maxExtensions))
      && (!CycleOver(t) && s.stage.BudgetReported? ==>
            && t.extensionCount == s.extensionCount + 1 && t.budget == s.budget + d.extensionMs
            && t.events == s.events + [ExtensionGranted(t.extensionCount, t.budget, s.stage.elapsed)])
      && (!CycleOver(t) && s.stage == ExtensionReported ==> t.cycleTimer == Some(s.now + d.extensionMs))
  {
  }
}
