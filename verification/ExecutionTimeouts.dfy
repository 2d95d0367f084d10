/** The events of one execution: the stream loop, the near-timeout timer, the soft budget
    cycle and the watchdog all write to one array. Times are milliseconds since the request
    came in, read from one clock. */
module ExecutionTimeouts {
  import opened Options

  // ---------------------------------------------------------------- the decision

  datatype Request = Request(
    soft: bool,
    timeoutMs: Option<nat>,
    softTimeoutMs: Option<nat>,
    watchdogTimeoutMs: Option<nat>,
    maxExtensions: Option<nat>,
    extensionMs: Option<nat>)

  /** What is decided about an execution's time, and when its timers are armed: the watchdog
      while the execution is prepared, the near-timeout timer and the cycle once it is. */
  datatype Decision = Decision(
    soft: bool,
    softMs: nat,
    watchdogMs: nat,
    maxExtensions: nat,
    extensionMs: nat,
    armed: nat,
    ready: nat)

  function Or(o: Option<nat>, otherwise: nat): nat {
    if o.Some? then o.value else otherwise
  }

  function Max(a: nat, b: nat): nat {
    if a > b then a else b
  }

  /** `resolveExecuteTimeoutDecision`. */
  function Decide(r: Request, defaultMs: nat, armed: nat, ready: nat): Decision {
    var legacy := Or(r.timeoutMs, defaultMs);
    var softMs := Or(r.softTimeoutMs, legacy);
    Decision(
      r.soft,
      softMs,
      Or(r.watchdogTimeoutMs, if r.soft then Max(legacy * 3, legacy + 300000) else legacy),
      if r.soft then Or(r.maxExtensions, 1) else 0,
      Or(r.extensionMs, softMs),
      armed,
      ready)
  }

  /** The watchdog is late enough for every extension, counted from when the cycle starts. */
  predicate Fits(d: Decision) {
    d.ready + d.softMs + d.maxExtensions * d.extensionMs <= d.armed + d.watchdogMs
  }

  /** The condition a warning is logged without: it compares durations only. */
  predicate LeavesRoom(d: Decision) {
    d.softMs + d.maxExtensions * d.extensionMs <= d.watchdogMs
  }

  // ---------------------------------------------------------------- the state

  datatype Event =
    | Evidence
    | Message
    | Error(timeout: bool, watchdog: Option<nat>)
    | CacheHealth
    | NearWarning(elapsed: nat)
    | BudgetExceeded(timeoutMs: nat, elapsed: nat)
    | ExtensionGranted(count: nat, totalMs: nat, elapsed: nat)

  /** What the runtime yields. */
  datatype Raw = YieldsEvidence | YieldsMessage | YieldsError(timeout: bool)

  datatype Stage = Waiting | BudgetReported(elapsed: nat) | ExtensionReported

  datatype Stream = Reading | Processing(health: bool, last: bool) | Warning(last: bool) | Done

  /** `appended` is the sequence of calls of `appendEvent`; `cycleTimer` holds when the
      timer of the cycle is due. */
  datatype State = State(
    now: nat,
    events: seq<Event>,
    appended: seq<Event>,
    stream: Stream,
    nearTimer: bool,
    cancelled: bool,
    cycleTimer: Option<nat>,
    stage: Stage,
    extensionCount: nat,
    budget: nat,
    watchdogTimer: bool,
    watchdogFired: bool)

  function Start(d: Decision): State {
    State(d.ready, [], [], Reading, true, false, if d.soft then Some(d.ready + d.softMs) else None, Waiting, 0, d.softMs,
          true, false)
  }

  function Push(s: State, e: Event): State {
    s.(events := s.events + [e], appended := s.appended + [e])
  }

  // ---------------------------------------------------------------- the soft budget cycle

  predicate IsReported(events: seq<Event>, budget: nat) {
    exists e :: e in events && e.BudgetExceeded? && e.timeoutMs == budget
  }

  /** `fire`, up to its first suspension. */
  function Fired(s: State): State {
    var t := s.(cycleTimer := None, stage := BudgetReported(s.now));
    if IsReported(s.events, s.budget) then t else Push(t, BudgetExceeded(s.budget, s.now))
  }

  /** `fire` from one suspension to the next. */
  function WentOn(d: Decision, s: State, ok: bool): State {
    var stopped := s.(stage := Waiting);
    match s.stage
    case Waiting => s
    case BudgetReported(elapsed) =>
      if !ok || s.cancelled || s.extensionCount >= d.maxExtensions then stopped
      else
        var count, budget := s.extensionCount + 1, s.budget + d.extensionMs;
        Push(s.(stage := ExtensionReported, extensionCount := count, budget := budget),
             ExtensionGranted(count, budget, elapsed))
    case ExtensionReported =>
      if !ok || s.cancelled then stopped else stopped.(cycleTimer := Some(s.now + d.extensionMs))
  }

  // ---------------------------------------------------------------- the near-timeout warning

  predicate IsNear(elapsed: nat, timeoutMs: nat) {
    timeoutMs > 0 && 5 * elapsed >= 4 * timeoutMs
  }

  predicate HasEvidence(events: seq<Event>) {
    Evidence in events
  }

  predicate HasWarning(events: seq<Event>) {
    exists e :: e in events && e.NearWarning?
  }

  predicate Warns(d: Decision, s: State) {
    !HasWarning(s.events) && IsNear(s.now, d.softMs) && HasEvidence(s.events)
  }

  function Warned(d: Decision, s: State): State {
    if Warns(d, s) then Push(s, NearWarning(s.now)) else s
  }

  function NearDelay(d: Decision): nat {
    d.softMs * 4 / 5
  }

  // ---------------------------------------------------------------- the stream loop

  predicate IsOfCycle(e: Event) {
    e.BudgetExceeded? || e.ExtensionGranted?
  }

  function CycleEvents(events: seq<Event>): seq<Event> {
    if events == [] then []
    else
      var n := |events| - 1;
      CycleEvents(events[..n]) + if IsOfCycle(events[n]) then [events[n]] else []
  }

  /** `maybeDecorateWatchdogError`. */
  function Decorated(d: Decision, s: State, raw: Raw): Event {
    match raw
    case YieldsEvidence => Evidence
    case YieldsMessage => Message
    case YieldsError(timeout) =>
      Error(timeout, if timeout && d.soft && s.watchdogFired then Some(|CycleEvents(s.events)|) else None)
  }

  function Read(d: Decision, s: State, raw: Raw, health: bool, last: bool): State {
    Push(s.(stream := Processing(health, last)), Decorated(d, s, raw))
  }

  function Looped(s: State, last: bool): State {
    s.(stream := if last then Done else Reading)
  }

  /** The stream loop from one suspension to the next. */
  function Processed(d: Decision, s: State, ok: bool, closed: bool): State {
    match s.stream
    case Processing(health, last) =>
      if !ok then s.(stream := Done)
      else if health then Push(s.(stream := Processing(false, last)), CacheHealth)
      else if closed then s.(stream := Done)
      else if Warns(d, s) then Warned(d, s.(stream := Warning(last)))
      else Looped(s, last)
    case Warning(last) => Looped(s, !ok || last)
    case _ => s
  }

  // ---------------------------------------------------------------- steps and runs

  datatype Step =
    | Elapse(ms: nat)
    | StreamReads(raw: Raw, health: bool, last: bool)
    | StreamGoesOn(ok: bool, closed: bool)
    | StreamEnds
    | NearTimerFires
    | CycleTimerFires
    | CycleGoesOn(ok: bool)
    | WatchdogFires
    | Cancel

  predicate Possible(d: Decision, s: State, step: Step) {
    match step
    case Elapse(_) => true
    case StreamReads(_, _, _) => s.stream == Reading
    case StreamGoesOn(_, _) => s.stream.Processing? || s.stream.Warning?
    case StreamEnds => s.stream == Reading
    case NearTimerFires => s.nearTimer && s.now >= d.ready + NearDelay(d)
    case CycleTimerFires => s.cycleTimer.Some? && s.now >= s.cycleTimer.value
    case CycleGoesOn(_) => s.stage != Waiting
    case WatchdogFires => s.watchdogTimer && s.now >= d.armed + d.watchdogMs
    case Cancel => s.stream == Done
  }

  function Next(d: Decision, s: State, step: Step): State {
    if !Possible(d, s, step) then s
    else
      match step
      case Elapse(ms) => s.(now := s.now + ms)
      case StreamReads(raw, health, last) => Read(d, s, raw, health, last)
      case StreamGoesOn(ok, closed) => Processed(d, s, ok, closed)
      case StreamEnds => s.(stream := Done)
      case NearTimerFires => Warned(d, s.(nearTimer := false))
      case CycleTimerFires => Fired(s)
      case CycleGoesOn(ok) => WentOn(d, s, ok)
      case WatchdogFires => s.(watchdogTimer := false, watchdogFired := true)
      case Cancel => s.(nearTimer := false, cancelled := true, cycleTimer := None, watchdogTimer := false)
  }

  function Run(d: Decision, s: State, steps: seq<Step>): State {
    if steps == [] then s else Next(d, Run(d, s, steps[..|steps| - 1]), steps[|steps| - 1])
  }

  // ---------------------------------------------------------------- what every run keeps

  /** The budget after `k` extensions. */
  function BudgetAt(d: Decision, k: nat): nat {
    d.softMs + k * d.extensionMs
  }

  lemma BudgetsGrow(d: Decision, j: nat, k: nat)
    requires j < k && d.extensionMs > 0
    ensures BudgetAt(d, j) < BudgetAt(d, k)
  {
    assert j * d.extensionMs < k * d.extensionMs;
  }

  /** The events of an undisturbed cycle: a budget exceeded, an extension granted, and so on. */
  ghost predicate IsMark(d: Decision, j: nat, e: Event) {
    if j % 2 == 0
    then e.BudgetExceeded? && e.timeoutMs == BudgetAt(d, j / 2) <= e.elapsed - d.ready
    else e.ExtensionGranted? && e.count == j / 2 + 1 && e.totalMs == BudgetAt(d, j / 2 + 1)
  }

  ghost predicate OnSchedule(d: Decision, cycle: seq<Event>) {
    forall j :: 0 <= j < |cycle| ==> IsMark(d, j, cycle[j])
  }

  /** How far the cycle is. */
  ghost predicate CycleSound(d: Decision, s: State) {
    var marks := |CycleEvents(s.events)|;
    && OnSchedule(d, CycleEvents(s.events))
    && s.extensionCount <= d.maxExtensions
    && (!d.soft ==> s.cycleTimer.None? && s.stage == Waiting && marks == 0)
    && s.budget == BudgetAt(d, s.extensionCount)
    && (s.cycleTimer.Some? ==>
          s.stage == Waiting && !s.cancelled && marks == 2 * s.extensionCount && d.ready + s.budget <= s.cycleTimer.value)
    && match s.stage
       case Waiting => marks <= 2 * s.extensionCount + 1
       case BudgetReported(elapsed) => marks == 2 * s.extensionCount + 1 && d.ready + s.budget <= elapsed <= s.now
       case ExtensionReported => marks == 2 * s.extensionCount && d.ready + s.budget <= s.now + d.extensionMs
  }

  lemma CycleEventsPush(events: seq<Event>, e: Event)
    ensures CycleEvents(events + [e]) == CycleEvents(events) + if IsOfCycle(e) then [e] else []
  {
    assert (events + [e])[..|events|] == events;
  }

  lemma {:induction false} CycleEventsMembers(events: seq<Event>, e: Event)
    requires e in events && IsOfCycle(e)
    ensures e in CycleEvents(events)
  {
    var n := |events| - 1;
    if e != events[n] {
      assert e in events[..n];
      CycleEventsMembers(events[..n], e);
    }
  }

  /** A budget is new each time the cycle reports one: its check for duplicates never strikes. */
  lemma BudgetIsNew(d: Decision, s: State)
    requires CycleSound(d, s) && s.cycleTimer.Some? && d.extensionMs > 0
    ensures !IsReported(s.events, s.budget)
  {
    forall e | e in s.events && e.BudgetExceeded? ensures e.timeoutMs != s.budget {
      CycleEventsMembers(s.events, e);
      var cycle := CycleEvents(s.events);
      var j :| 0 <= j < |cycle| && cycle[j] == e;
      assert IsMark(d, j, cycle[j]);
      hide BudgetAt;
      BudgetsGrow(d, j / 2, s.extensionCount);
    }
  }

  lemma OnSchedulePush(d: Decision, cycle: seq<Event>, e: Event)
    requires OnSchedule(d, cycle) && IsMark(d, |cycle|, e)
    ensures OnSchedule(d, cycle + [e])
  {
    hide IsMark;
  }

  /** From `s` to `t`, at most one event is added to the array, and stored too. */
  ghost predicate Adds(d: Decision, s: State, t: State, added: seq<Event>) {
    && t.events == s.events + added && t.appended == s.appended + added
    && |added| <= 1
    && forall e :: e in added ==>
      && (e.NearWarning? ==> Warns(d, s) && e.elapsed == s.now)
      && (e.BudgetExceeded? ==> e.elapsed == s.now)
      && (e.Error? && e.watchdog.Some? ==>
            d.soft && e.timeout && s.watchdogFired && e.watchdog.value == |CycleEvents(s.events)|)
  }

  /** The cycle has not moved, unless it has been stopped. */
  ghost predicate SameCycle(s: State, t: State) {
    && t.stage == s.stage && t.extensionCount == s.extensionCount && t.budget == s.budget
    && (t.cycleTimer.None? || (t.cycleTimer == s.cycleTimer && t.cancelled == s.cancelled))
    && t.now >= s.now
  }

  lemma ReadAdds(d: Decision, s: State, raw: Raw, health: bool, last: bool) returns (added: seq<Event>)
    ensures var t := Read(d, s, raw, health, last);
      Adds(d, s, t, added) && SameCycle(s, t) && forall e :: e in added ==> !IsOfCycle(e)
  {
    hide CycleEvents;
    added := [Decorated(d, s, raw)];
  }

  lemma ProcessedAdds(d: Decision, s: State, ok: bool, closed: bool) returns (added: seq<Event>)
    ensures var t := Processed(d, s, ok, closed);
      Adds(d, s, t, added) && SameCycle(s, t) && forall e :: e in added ==> !IsOfCycle(e)
  {
    hide CycleEvents, HasEvidence, HasWarning, IsNear;
    added := if !s.stream.Processing? || !ok then []
             else if s.stream.health then [CacheHealth]
             else if !closed && Warns(d, s) then [NearWarning(s.now)]
             else [];
  }

  lemma WarnedAdds(d: Decision, s: State) returns (added: seq<Event>)
    ensures var t := Warned(d, s.(nearTimer := false));
      Adds(d, s, t, added) && SameCycle(s, t) && forall e :: e in added ==> !IsOfCycle(e)
  {
    hide CycleEvents, HasEvidence, HasWarning, IsNear;
    added := if Warns(d, s) then [NearWarning(s.now)] else [];
  }

  lemma CycleAdds(d: Decision, s: State, ok: bool) returns (fired: seq<Event>, wentOn: seq<Event>)
    ensures Adds(d, s, Fired(s), fired) && Adds(d, s, WentOn(d, s, ok), wentOn)
  {
    hide CycleEvents, IsReported;
    fired := if IsReported(s.events, s.budget) then [] else [BudgetExceeded(s.budget, s.now)];
    var t := WentOn(d, s, ok);
    wentOn := if t.stage != ExtensionReported || s.stage == ExtensionReported then []
              else [ExtensionGranted(t.extensionCount, t.budget, s.stage.elapsed)];
  }

  predicate MovesCycle(d: Decision, s: State, step: Step) {
    Possible(d, s, step) && (step.CycleTimerFires? || step.CycleGoesOn?)
  }

  lemma StepAdds(d: Decision, s: State, step: Step) returns (added: seq<Event>)
    ensures Adds(d, s, Next(d, s, step), added)
    ensures !MovesCycle(d, s, step) ==> SameCycle(s, Next(d, s, step)) && forall e :: e in added ==> !IsOfCycle(e)
  {
    added := [];
    if Possible(d, s, step) {
      hide Possible, Read, Processed, Warned, Fired, WentOn, CycleEvents, Warns;
      match step {
        case StreamReads(raw, health, last) => added := ReadAdds(d, s, raw, health, last);
        case StreamGoesOn(ok, closed) => added := ProcessedAdds(d, s, ok, closed);
        case NearTimerFires => added := WarnedAdds(d, s);
        case CycleTimerFires => var fired, _ := CycleAdds(d, s, true); added := fired;
        case CycleGoesOn(ok) => var _, wentOn := CycleAdds(d, s, ok); added := wentOn;
        case _ =>
      }
    }
  }

  lemma BudgetMark(d: Decision, k: nat, elapsed: nat)
    requires d.ready + BudgetAt(d, k) <= elapsed
    ensures IsMark(d, 2 * k, BudgetExceeded(BudgetAt(d, k), elapsed))
  {
    hide BudgetAt;
    assert 2 * k % 2 == 0 && 2 * k / 2 == k;
  }

  lemma ExtensionMark(d: Decision, k: nat, elapsed: nat)
    ensures BudgetAt(d, k + 1) == BudgetAt(d, k) + d.extensionMs
    ensures IsMark(d, 2 * k + 1, ExtensionGranted(k + 1, BudgetAt(d, k + 1), elapsed))
  {
    assert BudgetAt(d, k + 1) == BudgetAt(d, k) + d.extensionMs;
    hide BudgetAt;
    assert (2 * k + 1) % 2 == 1 && (2 * k + 1) / 2 == k;
  }

  lemma FiredCycle(d: Decision, s: State)
    requires CycleSound(d, s) && Possible(d, s, CycleTimerFires) && d.extensionMs > 0
    ensures CycleSound(d, Fired(s)) && |CycleEvents(Fired(s).events)| == |CycleEvents(s.events)| + 1
  {
    BudgetIsNew(d, s);
    var e, n := BudgetExceeded(s.budget, s.now), |CycleEvents(s.events)|;
    assert Fired(s) == Push(s.(cycleTimer := None, stage := BudgetReported(s.now)), e);
    hide IsReported, Fired, BudgetAt;
    CycleEventsPush(s.events, e);
    hide CycleEvents;
    hide IsMark;
    BudgetMark(d, s.extensionCount, s.now);
    assert IsMark(d, n, e);
    OnSchedulePush(d, CycleEvents(s.events), e);
    hide OnSchedule;
  }

  lemma {:induction false} WentOnCycle(d: Decision, s: State, ok: bool)
    requires CycleSound(d, s) && s.stage != Waiting
    ensures CycleSound(d, WentOn(d, s, ok))
  {
    hide BudgetAt, IsMark, CycleEvents;
    var t, n := WentOn(d, s, ok), |CycleEvents(s.events)|;
    if t.stage == ExtensionReported {
      var e := ExtensionGranted(t.extensionCount, t.budget, s.stage.elapsed);
      ExtensionMark(d, s.extensionCount, s.stage.elapsed);
      assert IsMark(d, n, e);
      CycleEventsPush(s.events, e);
      OnSchedulePush(d, CycleEvents(s.events), e);
      hide OnSchedule;
    }
  }

  lemma OtherCycle(d: Decision, s: State, t: State, added: seq<Event>)
    requires CycleSound(d, s) && Adds(d, s, t, added) && SameCycle(s, t) && forall e :: e in added ==> !IsOfCycle(e)
    ensures CycleSound(d, t)
  {
    hide BudgetAt, OnSchedule;
    OtherEvents(s.events, added);
    hide CycleEvents;
  }

  lemma OtherEvents(events: seq<Event>, added: seq<Event>)
    requires |added| <= 1 && forall e :: e in added ==> !IsOfCycle(e)
    ensures CycleEvents(events + added) == CycleEvents(events)
  {
    if added == [] {
      assert events + added == events;
    } else {
      assert added == [added[0]];
      CycleEventsPush(events, added[0]);
    }
  }

  lemma StepCycle(d: Decision, s: State, step: Step)
    requires CycleSound(d, s) && d.extensionMs > 0
    ensures CycleSound(d, Next(d, s, step))
  {
    var added := StepAdds(d, s, step);
    hide CycleSound, Fired, WentOn, Warned, Processed, Read;
    if MovesCycle(d, s, step) {
      if step.CycleTimerFires? {
        FiredCycle(d, s);
      } else {
        WentOnCycle(d, s, step.ok);
      }
    } else {
      hide Next;
      OtherCycle(d, s, Next(d, s, step), added);
    }
  }

  // ---------------------------------------------------------------- the other writers

  ghost predicate OneWarning(d: Decision, events: seq<Event>) {
    && (forall j, k :: 0 <= j < k < |events| ==> !(events[j].NearWarning? && events[k].NearWarning?))
    && (forall e :: e in events && e.NearWarning? ==> IsNear(e.elapsed, d.softMs))
  }

  /** A timeout error names the cycle events before it, if the watchdog cut a soft execution off. */
  ghost predicate Accounted(d: Decision, events: seq<Event>) {
    forall k :: 0 <= k < |events| && events[k].Error? && events[k].watchdog.Some? ==>
      d.soft && events[k].timeout && events[k].watchdog.value == |CycleEvents(events[..k])|
  }

  ghost predicate Past(events: seq<Event>, now: nat) {
    forall e :: e in events && e.BudgetExceeded? ==> e.elapsed <= now
  }

  ghost predicate Sound(d: Decision, s: State) {
    && s.appended == s.events
    && OneWarning(d, s.events)
    && Accounted(d, s.events)
    && CycleSound(d, s)
    && Past(s.events, s.now)
    && (s.watchdogFired ==> d.armed + d.watchdogMs <= s.now)
  }

  lemma {:induction false} PushSound(d: Decision, events: seq<Event>, e: Event)
    requires OneWarning(d, events) && Accounted(d, events)
    requires e.NearWarning? ==> !HasWarning(events) && IsNear(e.elapsed, d.softMs)
    requires e.Error? && e.watchdog.Some? ==> d.soft && e.timeout && e.watchdog.value == |CycleEvents(events)|
    ensures OneWarning(d, events + [e]) && Accounted(d, events + [e])
  {
    var longer := events + [e];
    hide CycleEvents, IsNear;
    assert forall k :: 0 <= k < |events| ==> longer[..k] == events[..k];
    assert longer[..|events|] == events;
    forall j, k | 0 <= j < k < |longer| ensures !(longer[j].NearWarning? && longer[k].NearWarning?) {
      assert longer[j] in events;
    }
  }

  lemma StepClock(d: Decision, s: State, step: Step)
    requires s.watchdogFired ==> d.armed + d.watchdogMs <= s.now
    ensures var t := Next(d, s, step); s.now <= t.now && (t.watchdogFired ==> d.armed + d.watchdogMs <= t.now)
  {
    hide CycleEvents, IsReported, HasEvidence, HasWarning, IsNear;
  }

  lemma {:induction false} StepSound(d: Decision, s: State, step: Step)
    requires Sound(d, s) && d.extensionMs > 0
    ensures Sound(d, Next(d, s, step))
  {
    StepCycle(d, s, step);
    StepClock(d, s, step);
    hide CycleSound, OneWarning, Accounted, CycleEvents, IsReported, HasEvidence, HasWarning, IsNear, Next;
    var added := StepAdds(d, s, step);
    if added != [] {
      assert added == [added[0]] && added[0] in added;
      PushSound(d, s.events, added[0]);
    } else {
      assert s.events + added == s.events;
    }
  }

  lemma {:induction false} RunSound(d: Decision, steps: seq<Step>)
    requires d.extensionMs > 0
    ensures Sound(d, Run(d, Start(d), steps))
  {
    if steps != [] {
      RunSound(d, steps[..|steps| - 1]);
      StepSound(d, Run(d, Start(d), steps[..|steps| - 1]), steps[|steps| - 1]);
    }
  }

  // ---------------------------------------------------------------- main results

  /** However the writers interleave, the events are stored in the order of the array, there
      is at most one warning, and the cycle's own events are a beginning of its schedule,
      each budget reported no earlier than it is used up. */
  lemma EveryExecution(d: Decision, steps: seq<Step>)
    requires d.extensionMs > 0
    ensures var s := Run(d, Start(d), steps);
      && s.appended == s.events
      && OneWarning(d, s.events)
      && Accounted(d, s.events)
      && OnSchedule(d, CycleEvents(s.events))
      && |CycleEvents(s.events)| <= if d.soft then 2 * d.maxExtensions + 1 else 0
  {
    RunSound(d, steps);
  }

  /** Nobody stops the cycle and every timer is on time: up to the `k`th extension. */
  function Undisturbed(d: Decision, k: nat): seq<Step> {
    if k == 0 then [Elapse(d.softMs)]
    else Undisturbed(d, k - 1) + [CycleTimerFires, CycleGoesOn(true), CycleGoesOn(true), Elapse(d.extensionMs)]
  }

  lemma RunPush(d: Decision, s: State, steps: seq<Step>, step: Step)
    ensures Run(d, s, steps + [step]) == Next(d, Run(d, s, steps), step)
  {
    assert (steps + [step])[..|steps|] == steps;
  }

  function Round(d: Decision, s: State): State {
    Next(d, Next(d, Next(d, Next(d, s, CycleTimerFires), CycleGoesOn(true)), CycleGoesOn(true)), Elapse(d.extensionMs))
  }

  lemma RunRound(d: Decision, s: State, u: seq<Step>)
    ensures Run(d, s, u + [CycleTimerFires, CycleGoesOn(true), CycleGoesOn(true), Elapse(d.extensionMs)])
      == Round(d, Run(d, s, u))
  {
    var u1 := u + [CycleTimerFires];
    var u2 := u1 + [CycleGoesOn(true)];
    var u3 := u2 + [CycleGoesOn(true)];
    assert u3 + [Elapse(d.extensionMs)] == u + [CycleTimerFires, CycleGoesOn(true), CycleGoesOn(true), Elapse(d.extensionMs)];
    hide Next, Run;
    RunPush(d, s, u, CycleTimerFires);
    RunPush(d, s, u1, CycleGoesOn(true));
    RunPush(d, s, u2, CycleGoesOn(true));
    RunPush(d, s, u3, Elapse(d.extensionMs));
  }

  /** The cycle's timer is due now, and `k` extensions have been granted. */
  ghost predicate OnTime(s: State, k: nat) {
    && s.cycleTimer == Some(s.now) && s.stage == Waiting && !s.cancelled && !s.watchdogFired
    && s.extensionCount == k
  }

  lemma RoundOnTime(d: Decision, s: State)
    requires OnTime(s, s.extensionCount) && s.extensionCount < d.maxExtensions && !IsReported(s.events, s.budget)
    ensures OnTime(Round(d, s), s.extensionCount + 1) && Round(d, s).now == s.now + d.extensionMs
  {
    hide IsReported;
    var t1 := Next(d, s, CycleTimerFires);
    assert t1.stage == BudgetReported(s.now) && !t1.cancelled && t1.extensionCount == s.extensionCount && t1.now == s.now;
    var t2 := Next(d, t1, CycleGoesOn(true));
    assert t2.stage == ExtensionReported && !t2.cancelled && t2.extensionCount == s.extensionCount + 1 && t2.now == s.now;
  }

  lemma {:induction false} UndisturbedRun(d: Decision, k: nat)
    requires d.soft && d.extensionMs > 0 && k <= d.maxExtensions
    ensures var s := Run(d, Start(d), Undisturbed(d, k)); Sound(d, s) && OnTime(s, k) && s.now == d.ready + BudgetAt(d, k)
  {
    RunSound(d, Undisturbed(d, k));
    hide IsReported, Round, CycleEvents, OneWarning, Accounted, OnSchedule;
    if k == 0 {
      assert [] + [Elapse(d.softMs)] == [Elapse(d.softMs)];
      RunPush(d, Start(d), [], Elapse(d.softMs));
    } else {
      UndisturbedRun(d, k - 1);
      var u := Undisturbed(d, k - 1);
      var s := Run(d, Start(d), u);
      BudgetIsNew(d, s);
      ExtensionMark(d, k - 1, 0);
      hide BudgetAt, IsMark, Start, Run, CycleSound;
      RunRound(d, Start(d), u);
      RoundOnTime(d, s);
    }
  }

  /** The whole schedule is reported before the watchdog is due in some run exactly if it
      fits: the time from arming the watchdog to starting the cycle counts too. */
  lemma WholeScheduleIff(d: Decision)
    requires d.soft && d.extensionMs > 0
    ensures (exists steps :: WholeSchedule(d, steps)) == Fits(d)
  {
    if Fits(d) {
      var u := Undisturbed(d, d.maxExtensions);
      UndisturbedRun(d, d.maxExtensions);
      RunPush(d, Start(d), u, CycleTimerFires);
      FiredCycle(d, Run(d, Start(d), u));
      assert WholeSchedule(d, u + [CycleTimerFires]);
    }
    if steps :| WholeSchedule(d, steps) {
      RunSound(d, steps);
      var s := Run(d, Start(d), steps);
      var cycle := CycleEvents(s.events);
      var j := 2 * d.maxExtensions;
      assert IsMark(d, j, cycle[j]);
      CycleEventsAreEvents(s.events, cycle[j]);
      assert j % 2 == 0 && j / 2 == d.maxExtensions;
    }
  }

  ghost predicate WholeSchedule(d: Decision, steps: seq<Step>) {
    var s := Run(d, Start(d), steps);
    |CycleEvents(s.events)| == 2 * d.maxExtensions + 1 && s.now <= d.armed + d.watchdogMs && !s.watchdogFired
  }

  lemma {:induction false} CycleEventsAreEvents(events: seq<Event>, e: Event)
    requires e in CycleEvents(events)
    ensures e in events
  {
    var n := |events| - 1;
    if e in CycleEvents(events[..n]) {
      CycleEventsAreEvents(events[..n], e);
    }
  }

  /** So the warning about too little room misses exactly the executions that are prepared
      for longer, once the watchdog is armed, than the room they leave. */
  lemma WarningMissesIff(d: Decision)
    requires d.armed <= d.ready
    ensures (LeavesRoom(d) && !Fits(d))
         == (0 <= d.watchdogMs - d.softMs - d.maxExtensions * d.extensionMs < d.ready - d.armed)
    ensures Fits(d) ==> LeavesRoom(d)
  {
  }

  /** With nothing but a time limit given, the schedule fits exactly if its extensions, and
      the preparation after the watchdog is armed, stay within two of that limit, or within
      five minutes. */
  lemma {:induction false} DefaultRoomIff(r: Request, defaultMs: nat, armed: nat, ready: nat)
    requires r.soft && r.softTimeoutMs.None? && r.watchdogTimeoutMs.None? && r.extensionMs.None?
    requires armed <= ready
    ensures var limit, n, gap := Or(r.timeoutMs, defaultMs), Or(r.maxExtensions, 1), ready - armed;
      Fits(Decide(r, defaultMs, armed, ready)) == (gap + n * limit <= 2 * limit || gap + n * limit <= 300000)
  {
  }

  /** A near-timeout timer that fires on time warns unless the execution was prepared in no
      time and the limit is no multiple of five: its delay is rounded down, the threshold is not. */
  lemma NearTimerOnTimeIff(d: Decision, s: State)
    requires s.nearTimer && s.now == d.ready + NearDelay(d) && d.softMs > 0
    requires HasEvidence(s.events) && !HasWarning(s.events)
    ensures HasWarning(Next(d, s, NearTimerFires).events) == (d.ready > 0 || d.softMs % 5 == 0)
  {
    NearWhen(d.ready, d.softMs);
    assert Warns(d, s) == (d.ready > 0 || d.softMs % 5 == 0);
    hide IsNear, NearDelay;
    var t := Next(d, s, NearTimerFires);
    if Warns(d, s) {
      assert NearWarning(s.now) in t.events;
    }
  }

  lemma NearWhen(ready: nat, limit: nat)
    requires limit > 0
    ensures IsNear(ready + limit * 4 / 5, limit) == (ready > 0 || limit % 5 == 0)
  {
    var q, r := limit / 5, limit % 5;
    assert limit * 4 / 5 == 4 * q + r * 4 / 5;
  }

  ghost predicate Over(s: State) {
    s.stream == Done && !s.nearTimer && s.cancelled && s.cycleTimer.None? && !s.watchdogTimer
  }

  lemma StepOver(d: Decision, s: State, step: Step)
    requires Over(s)
    ensures Over(Next(d, s, step)) && Next(d, s, step).events == s.events
  {
    hide CycleEvents, IsReported, Warns;
  }

  /** Cancelled timers write nothing more, even if the cycle was between two writes. */
  lemma {:induction false} QuietAfterCancel(d: Decision, s: State, steps: seq<Step>)
    requires s.stream == Done
    ensures var t := Next(d, s, Cancel);
      Over(Run(d, t, steps)) && Run(d, t, steps).events == s.events
  {
    if steps != [] {
      QuietAfterCancel(d, s, steps[..|steps| - 1]);
      StepOver(d, Run(d, Next(d, s, Cancel), steps[..|steps| - 1]), steps[|steps| - 1]);
    }
  }
}
