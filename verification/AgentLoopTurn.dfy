/** One iteration of the executing loop as a function of the answers it gets: how it ends,
    what becomes of the queue, and in which phase it leaves the session. */
module AgentLoopTurn {
  import opened Options
  import opened TaskQueue
  import opened AgentLoop

  /** What the executor, or the sub-session run in its place, gives back. */
  datatype Outcome = Outcome(success: bool, needsReview: bool, subTasks: seq<bool>, childCancelled: bool)

  function OutcomeOf(e: Execution, subAgent: bool): Outcome {
    match e
    case Crashed => Outcome(false, false, [], false)
    case Result(success, needsReview, subTasks, childCancelled) =>
      if subAgent then Outcome(success, false, [], !success && childCancelled)
      else Outcome(success, needsReview != Some(false), subTasks, childCancelled)
  }

  /** What comes of an iteration. */
  datatype Ending = Completes | Rejects | Delegates | Conflicts | Throws | Cancels

  predicate ShouldDelegate(c: Config, t: Task, o: Outcome) {
    c.enableSubAgents && t.depth < c.maxDepth && o.subTasks != []
  }

  predicate Approves(c: Config, o: Outcome, w: World) {
    !o.needsReview || c.autoApprove || w.critic == Some(true)
  }

  predicate Isolates(c: Config, t: Task, w: World) {
    t.requiresIsolation && c.git && w.createOk
  }

  /** An isolated task falls back to the shared tree only with approval; an optimizer always needs it there. */
  predicate MustAsk(c: Config, t: Task, w: World) {
    c.git && !Isolates(c, t, w) && (t.requiresIsolation || c.optimizer)
  }

  predicate MayRunInPlace(c: Config, w: World) {
    w.statusOk && (c.allowInPlace || (c.canConfirm && w.confirm == Some(true)))
  }

  predicate IsSubAgent(c: Config, ts: seq<Task>, i: nat)
    requires i < |ts|
  {
    c.enableSubAgents && ts[i].parent.Some? && ts[i].parent.value != i && ts[i].parent.value < |ts|
  }

  /** What the executor of task `i` gives back. */
  function OutcomeIn(c: Config, ts: seq<Task>, i: nat, w: World): Outcome
    requires i < |ts|
  {
    OutcomeOf(w.execution, IsSubAgent(c, ts, i))
  }

  /** What is to come of an iteration. */
  function TurnOf(c: Config, ts: seq<Task>, i: nat, w: World): Ending
    requires i < |ts|
  {
    if MustAsk(c, ts[i], w) && !MayRunInPlace(c, w) then Throws
    else if IsSubAgent(c, ts, i) && w.hooks != HooksFine then Throws
    else if DuringExecution in w.cancels then Cancels
    else EndingOf(c, ts[i], OutcomeIn(c, ts, i, w), Isolates(c, ts[i], w), w)
  }

  /** What is to come of an iteration whose executor has returned. */
  function EndingOf(c: Config, t: Task, o: Outcome, isolated: bool, w: World): Ending {
    if !o.success then Rejects
    else if ShouldDelegate(c, t, o) then
      if isolated && w.merge == MergeConflict then Conflicts else Delegates
    else if !Approves(c, o, w) then Rejects
    else if !isolated then Completes
    else match w.merge
      case MergeOk => Completes
      case MergeConflict => Conflicts
      case MergeError => Rejects
  }

  /** Whether a worktree is left over for the iteration's `finally`. */
  predicate LeftOver(c: Config, ts: seq<Task>, i: nat, w: World)
    requires i < |ts|
  {
    var e := TurnOf(c, ts, i, w);
    Isolates(c, ts[i], w) && (e == Throws || e == Cancels || (e == Delegates && w.merge == MergeError))
  }

  /** The phase at the end of the iteration's `try`, if it does not throw. */
  function PhaseOf(c: Config, ts: seq<Task>, i: nat, w: World): Phase
    requires i < |ts|
  {
    match TurnOf(c, ts, i, w)
    case Cancels => SessionCancelled
    case Conflicts => WaitingUser
    case Rejects =>
      if !OutcomeIn(c, ts, i, w).success && DuringResolution in w.cancels && (Isolates(c, ts[i], w) || c.optimizer)
      then SessionCancelled else Executing
    case _ => Executing
  }

  /** The phase an iteration leaves the session in: what it throws fails the session, and
      its `finally` may be the moment of a cancellation. */
  function FinalPhase(c: Config, ts: seq<Task>, i: nat, w: World): Phase
    requires i < |ts|
  {
    if TurnOf(c, ts, i, w) == Throws then SessionFailed
    else if LeftOver(c, ts, i, w) && DuringCleanup in w.cancels then SessionCancelled
    else PhaseOf(c, ts, i, w)
  }

  function Planned(p: PlanTask): Task {
    NewTask(p.dependsOn, p.requiresIsolation, p.parent, p.depth)
  }

  function InConflict(t: Task): Task {
    t.(status := Failed, owned := true, awaitsRecovery := true)
  }

  // ---------------------------------------------------------------- the events of an iteration

  /** `requireInPlaceOptimizerApproval`. */
  function ApprovalEvents(c: Config, w: World, it: nat): seq<Event> {
    if !w.statusOk then []
    else if c.allowInPlace || (c.canConfirm && w.confirm == Some(true)) then [InPlaceApproved(it)]
    else if !c.canConfirm || w.confirm.Some? then [InPlaceBlocked(it)]
    else []
  }

  /** What happens before the executor starts; `stashed` says whether there is a stash already. */
  function PrepareEvents(c: Config, t: Task, w: World, it: nat, stashed: bool): seq<Event> {
    if Isolates(c, t, w) then [TreeCreated(it)]
    else if !MustAsk(c, t, w) then []
    else
      ApprovalEvents(c, w, it)
        + if !t.requiresIsolation && MayRunInPlace(c, w) && !stashed then [StashTried(it, w.stashed)] else []
  }

  function ExecuteEvents(c: Config, ts: seq<Task>, i: nat, w: World, it: nat): seq<Event>
    requires i < |ts|
  {
    var o := OutcomeIn(c, ts, i, w);
    if !IsSubAgent(c, ts, i) || w.hooks == HooksFine
    then [Started(it, Isolates(c, ts[i], w)), Returned(it, o.success, o.needsReview)]
    else if w.hooks == StopHookThrows then [Started(it, Isolates(c, ts[i], w))]
    else []
  }

  /** What an attempt to merge an iteration's worktree, if it has one, records. */
  function MergeEvents(it: nat, isolated: bool, w: World): seq<Event> {
    if !isolated then []
    else match w.merge
      case MergeOk => [Merged(it), TreeRemovalTried(it)]
      case MergeConflict => [ConflictRecorded(it)]
      case MergeError => []
  }

  function UndoEvents(c: Config, it: nat, isolated: bool, needsGit: bool): seq<Event> {
    if isolated then [TreeRemovalTried(it)]
    else if c.optimizer && (c.git || !needsGit) then [RolledBack(it)]
    else []
  }

  function RefusalEvents(c: Config, it: nat, i: nat, isolated: bool, needsGit: bool): seq<Event> {
    UndoEvents(c, it, isolated, needsGit) + [TaskRejected(it, i)]
  }

  function FinishEvents(c: Config, it: nat, i: nat, isolated: bool, w: World): seq<Event> {
    (if c.optimizer && c.git && !isolated && w.commitOk then [Committed(it)] else []) + [TaskCompleted(it, i)]
  }

  function AcceptEvents(c: Config, it: nat, i: nat, isolated: bool, w: World): seq<Event> {
    MergeEvents(it, isolated, w) + if isolated && w.merge != MergeOk then [] else FinishEvents(c, it, i, isolated, w)
  }

  function ConcludeEvents(c: Config, it: nat, i: nat, isolated: bool, approved: bool, w: World): seq<Event> {
    if approved && !(isolated && w.merge == MergeError) then AcceptEvents(c, it, i, isolated, w)
    else RefusalEvents(c, it, i, isolated, true)
  }

  function ReviewEvents(c: Config, it: nat, o: Outcome, w: World): seq<Event> {
    if o.needsReview && !c.autoApprove then [CriticSaid(it, Approves(c, o, w))] else []
  }

  function ResolveEvents(c: Config, t: Task, it: nat, i: nat, isolated: bool, o: Outcome, w: World): seq<Event> {
    if ShouldDelegate(c, t, o) then [Delegated(it)] + MergeEvents(it, isolated, w)
    else ReviewEvents(c, it, o, w) + ConcludeEvents(c, it, i, isolated, Approves(c, o, w), w)
  }

  function FollowEvents(c: Config, t: Task, it: nat, i: nat, isolated: bool, o: Outcome, w: World): seq<Event> {
    if DuringExecution in w.cancels then []
    else if o.success then ResolveEvents(c, t, it, i, isolated, o, w)
    else RefusalEvents(c, it, i, isolated, false)
  }

  predicate Attempts(c: Config, t: Task, w: World) {
    !MustAsk(c, t, w) || MayRunInPlace(c, w)
  }

  function AttemptEvents(c: Config, ts: seq<Task>, i: nat, w: World, it: nat, stashed: bool): seq<Event>
    requires i < |ts|
  {
    PrepareEvents(c, ts[i], w, it, stashed) + if Attempts(c, ts[i], w) then ExecuteEvents(c, ts, i, w, it) else []
  }

  /** What an iteration records before its `finally`. */
  function TurnEvents(c: Config, ts: seq<Task>, i: nat, w: World, it: nat, stashed: bool): seq<Event>
    requires i < |ts|
  {
    AttemptEvents(c, ts, i, w, it, stashed)
      + if Attempts(c, ts[i], w) && (!IsSubAgent(c, ts, i) || w.hooks == HooksFine)
        then FollowEvents(c, ts[i], it, i, Isolates(c, ts[i], w), OutcomeIn(c, ts, i, w), w)
        else []
  }

  /** The events of a whole iteration, from the claim on. */
  function IterationEvents(c: Config, ts: seq<Task>, i: nat, w: World, it: nat, stashed: bool): seq<Event>
    requires i < |ts|
  {
    TurnEvents(c, ts, i, w, it, stashed) + if LeftOver(c, ts, i, w) then [TreeRemovalTried(it)] else []
  }

  // ---------------------------------------------------------------- the log of an iteration

  /** `after` adds to `before` events of iteration `it` only. */
  ghost predicate Grown(before: seq<Event>, after: seq<Event>, it: nat) {
    before <= after && forall e :: e in after ==> e in before || (!e.StashPopped? && e.it == it)
  }

  /** The executor has returned: no worktree is made, and nothing returned, any more, and the
      critic approves only if it does. */
  ghost predicate Continues(before: seq<Event>, after: seq<Event>, it: nat, w: World) {
    && Grown(before, after, it)
    && (forall e :: e in after && (e.TreeCreated? || e.Returned?) ==> e in before)
    && (CriticSaid(it, true) in after ==> CriticSaid(it, true) in before || w.critic == Some(true))
  }

  lemma ContinuesOn(before: seq<Event>, middle: seq<Event>, after: seq<Event>, it: nat, w: World)
    requires Continues(before, middle, it, w) && Continues(middle, after, it, w)
    ensures Continues(before, after, it, w)
  {
  }

  lemma GrownKeeps(before: seq<Event>, after: seq<Event>, it: nat, e: Event)
    requires Grown(before, after, it) && e in before
    ensures e in after
  {
  }

  /** The log says which way iteration `it`, for task `i`, ended. */
  ghost predicate Recorded(log: seq<Event>, it: nat, i: nat, e: Ending) {
    && (TaskCompleted(it, i) in log <==> e == Completes)
    && (TaskRejected(it, i) in log <==> e == Rejects)
    && (e == Delegates ==> Delegated(it) in log)
    && (Delegated(it) in log ==> e == Delegates || e == Conflicts)
    && (ConflictRecorded(it) in log <==> e == Conflicts)
    && (e != Conflicts ==> NoConflict(log))
    && (Merged(it) in log ==> e == Completes || e == Delegates)
    && (Committed(it) in log ==> e == Completes)
    && (RolledBack(it) in log ==> e == Rejects)
  }

  /** Only the executor's own result is recorded as such. */
  ghost predicate OnlyReturned(log: seq<Event>, it: nat, o: Outcome) {
    forall s, r :: Returned(it, s, r) in log ==> s == o.success && r == o.needsReview
  }

  /** Work in place is committed if it is accepted, and rolled back if it is not. */
  ghost predicate Tidied(c: Config, log: seq<Event>, it: nat, w: World, e: Ending) {
    c.optimizer && c.git && TreeCreated(it) !in log ==>
      && (e == Completes && w.commitOk ==> Committed(it) in log)
      && (e == Rejects ==> RolledBack(it) in log)
  }

  ghost predicate ClosedExcept(log: seq<Event>, it: nat) {
    forall k :: TreeCreated(k) in log && k != it ==> TreeRemovalTried(k) in log || ConflictRecorded(k) in log
  }

  ghost predicate TreeClosed(log: seq<Event>, it: nat) {
    TreeCreated(it) in log ==> TreeRemovalTried(it) in log || ConflictRecorded(it) in log
  }

  lemma Closes(before: seq<Event>, after: seq<Event>, it: nat)
    requires ClosedExcept(before, it) && Before(before, it + 1) && Grown(before, after, it) && TreeClosed(after, it)
    ensures TreesClosed(after) && Before(after, it + 1)
  {
  }

  // ---------------------------------------------------------------- cancellation

  /** What the log shows of an iteration's worktree, result and merge. */
  ghost predicate Tells(c: Config, log: seq<Event>, ts: seq<Task>, it: nat, i: nat, w: World)
    requires i < |ts|
  {
    var e := TurnOf(c, ts, i, w);
    && (TreeCreated(it) in log <==> Isolates(c, ts[i], w))
    && OnlyReturned(log, it, OutcomeIn(c, ts, i, w))
    && (ExecutorReturned(log, it) <==> e != Throws)
    && (e == Delegates && Isolates(c, ts[i], w) ==> (Merged(it) in log <==> w.merge == MergeOk))
    && (CriticSaid(it, true) in log ==> w.critic == Some(true))
  }

  /** How the answers, and what the log shows of them, agree on a cancellation. */
  lemma {:induction false} KeptIffFinal(c: Config, ts: seq<Task>, i: nat, w: World, log: seq<Event>, it: nat)
    requires i < |ts| && Recorded(log, it, i, TurnOf(c, ts, i, w)) && Tells(c, log, ts, it, i, w)
    ensures CancelKept(c, log, it, w) <==> FinalPhase(c, ts, i, w) == SessionCancelled
  {
    hide MustAsk, MayRunInPlace, Isolates, OutcomeOf, IsSubAgent;
  }

  /** Removing a worktree changes nothing of that. */
  lemma RemovalTells(c: Config, log: seq<Event>, ts: seq<Task>, it: nat, i: nat, w: World)
    requires i < |ts| && Tells(c, log, ts, it, i, w)
    ensures Tells(c, log + [TreeRemovalTried(it)], ts, it, i, w)
  {
    var after := log + [TreeRemovalTried(it)];
    assert forall x :: x in after <==> x in log || x == TreeRemovalTried(it);
    hide TurnOf, Isolates, OutcomeIn;
  }

  lemma RemovalRecorded(c: Config, log: seq<Event>, it: nat, i: nat, w: World, e: Ending)
    requires Recorded(log, it, i, e) && Tidied(c, log, it, w, e)
    ensures var after := log + [TreeRemovalTried(it)];
      Recorded(after, it, i, e) && Tidied(c, after, it, w, e) && TreeClosed(after, it) && Grown(log, after, it)
  {
    var after := log + [TreeRemovalTried(it)];
    assert forall x :: x in after <==> x in log || x == TreeRemovalTried(it);
    assert log <= after;
    PushNoConflict(log, TreeRemovalTried(it));
    hide NoConflict;
  }

  lemma PushNoConflict(log: seq<Event>, e: Event)
    ensures NoConflict(log + [e]) <==> NoConflict(log) && !e.ConflictRecorded?
  {
    assert e in log + [e] && forall x :: x in log ==> x in log + [e];
  }

  lemma ConflictRecordedAlone(log: seq<Event>, it: nat, i: nat, w: World)
    requires Recorded(log, it, i, Throws)
    ensures Recorded(log + [ConflictRecorded(it)], it, i, Conflicts) && Continues(log, log + [ConflictRecorded(it)], it, w)
    ensures Continues(log, log, it, w)
  {
  }

  lemma MergeRecorded(c: Config, log: seq<Event>, it: nat)
    requires Accepted(c, log, it) && NoConflict(log)
    ensures var after := log + [Merged(it), TreeRemovalTried(it)];
      && Accepted(c, after, it) && NoConflict(after) && Merged(it) in after
      && (forall e :: e in log ==> e in after)
      && (RolledBack(it) in after ==> RolledBack(it) in log)
      && (TreeCreated(it) in after ==> TreeCreated(it) in log)
  {
    var after := log + [Merged(it), TreeRemovalTried(it)];
    assert after[|log|] == Merged(it);
    assert forall e :: e in log ==> e in after;
  }

  lemma Associative(a: seq<Event>, b: seq<Event>, c: seq<Event>)
    ensures a + (b + c) == a + b + c
  {
  }

  lemma AcceptTail(c: Config, it: nat, i: nat, isolated: bool, w: World)
    requires isolated ==> w.merge == MergeOk
    ensures forall e :: e in AcceptEvents(c, it, i, isolated, w) <==>
      || e == TaskCompleted(it, i)
      || (isolated && (e == Merged(it) || e == TreeRemovalTried(it)))
      || (c.optimizer && c.git && !isolated && w.commitOk && e == Committed(it))
  {
    var tail := AcceptEvents(c, it, i, isolated, w);
    assert tail[|tail| - 1] == TaskCompleted(it, i);
    assert isolated ==> tail[0] == Merged(it) && tail[1] == TreeRemovalTried(it);
    assert |tail| == 2 && !isolated ==> tail[0] == Committed(it);
  }

  /** What a completion records. */
  lemma CompletionRecorded(c: Config, log: seq<Event>, it: nat, i: nat, isolated: bool, w: World)
    requires Recorded(log, it, i, Throws) && (isolated <==> TreeCreated(it) in log) && (isolated ==> w.merge == MergeOk)
    ensures var after := log + AcceptEvents(c, it, i, isolated, w);
      && Recorded(after, it, i, Completes) && Tidied(c, after, it, w, Completes) && Continues(log, after, it, w)
      && (isolated ==> TreeRemovalTried(it) in after)
  {
    var tail := AcceptEvents(c, it, i, isolated, w);
    AcceptTail(c, it, i, isolated, w);
    hide AcceptEvents, Tidied;
    TailCompletes(log, tail, it, i);
    hide Recorded;
    TailContinues(log, tail, it, i, w);
    hide Continues;
    assert Tidied(c, log + tail, it, w, Completes) by { TailTidies(c, log, tail, it, isolated, w); }
    assert isolated ==> TreeRemovalTried(it) in tail;
  }

  lemma TailTidies(c: Config, log: seq<Event>, tail: seq<Event>, it: nat, isolated: bool, w: World)
    requires c.optimizer && c.git && !isolated && w.commitOk ==> Committed(it) in tail
    requires isolated ==> TreeCreated(it) in log
    ensures Tidied(c, log + tail, it, w, Completes)
  {
  }

  lemma TailContinues(log: seq<Event>, tail: seq<Event>, it: nat, i: nat, w: World)
    requires forall e :: e in tail ==>
      e == TaskCompleted(it, i) || e == Merged(it) || e == TreeRemovalTried(it) || e == Committed(it)
    ensures Continues(log, log + tail, it, w)
  {
    assert log <= log + tail;
  }

  lemma TailCompletes(log: seq<Event>, tail: seq<Event>, it: nat, i: nat)
    requires Recorded(log, it, i, Throws) && TaskCompleted(it, i) in tail
    requires forall e :: e in tail ==>
      e == TaskCompleted(it, i) || e == Merged(it) || e == TreeRemovalTried(it) || e == Committed(it)
    ensures Recorded(log + tail, it, i, Completes)
  {
  }

  lemma AcceptedParts(c: Config, log: seq<Event>, it: nat, i: nat, isolated: bool, w: World)
    ensures var merged := log + MergeEvents(it, isolated, w);
      var after := log + AcceptEvents(c, it, i, isolated, w);
      && (!isolated ==> merged == log)
      && (isolated && w.merge == MergeOk ==> merged == log + [Merged(it), TreeRemovalTried(it)])
      && (if isolated && w.merge != MergeOk then after == merged else after == merged + FinishEvents(c, it, i, isolated, w))
      && (isolated && w.merge == MergeConflict ==> after == log + [ConflictRecorded(it)])
      && (isolated && w.merge == MergeError ==> after == log)
  {
    Associative(log, MergeEvents(it, isolated, w), FinishEvents(c, it, i, isolated, w));
    Associative(log, MergeEvents(it, isolated, w), []);
    assert log + [] == log;
  }

  lemma ReviewRecorded(c: Config, log: seq<Event>, it: nat, i: nat, o: Outcome, w: World)
    requires Recorded(log, it, i, Throws)
    ensures var after := log + ReviewEvents(c, it, o, w);
      && Recorded(after, it, i, Throws)
      && (forall e :: e in after && !e.CriticSaid? ==> e in log) && (forall e :: e in log ==> e in after)
  {
  }

  /** What a refusal records. */
  lemma RefusalRecorded(c: Config, log: seq<Event>, it: nat, i: nat, isolated: bool, needsGit: bool, w: World)
    requires Recorded(log, it, i, Throws) && (isolated <==> TreeCreated(it) in log)
    ensures var after := log + RefusalEvents(c, it, i, isolated, needsGit);
      && Recorded(after, it, i, Rejects) && Tidied(c, after, it, w, Rejects) && Continues(log, after, it, w)
      && (isolated ==> TreeRemovalTried(it) in after)
      && (!isolated && c.optimizer && (c.git || !needsGit) ==> RolledBack(it) in after)
  {
    var tail := RefusalEvents(c, it, i, isolated, needsGit);
    assert tail[|tail| - 1] == TaskRejected(it, i);
    assert UndoEvents(c, it, isolated, needsGit) != [] ==> tail[0] == UndoEvents(c, it, isolated, needsGit)[0];
    assert log <= log + tail;
  }

  lemma UndoneRecorded(c: Config, log: seq<Event>, it: nat, i: nat, isolated: bool, needsGit: bool)
    requires Recorded(log, it, i, Throws)
    ensures NoConflict(log) && Committed(it) !in log
    ensures var undone := log + UndoEvents(c, it, isolated, needsGit);
      && NoConflict(undone) && TaskCompleted(it, i) !in undone && Merged(it) !in undone
      && (Claim(it, i) in log ==> Claim(it, i) in undone)
      && (Accepted(c, undone, it) ==> Accepted(c, log, it))
      && (TreeCreated(it) in undone <==> TreeCreated(it) in log)
      && (isolated ==> TreeRemovalTried(it) in undone)
  {
    var tail := UndoEvents(c, it, isolated, needsGit);
    assert tail != [] ==> tail[0] in log + tail;
  }

  /** What is recorded while a worktree is made, or approval asked for. */
  ghost predicate OnlyPrepared(log: seq<Event>, it: nat) {
    forall e :: e in log && !e.StashPopped? && e.it == it ==>
      e.Claim? || e.TreeCreated? || e.InPlaceApproved? || e.InPlaceBlocked? || e.StashTried?
  }

  lemma PrepareTells(c: Config, log: seq<Event>, t: Task, w: World, it: nat, stashed: bool)
    requires NoConflict(log) && StashPopped !in log && forall e :: e in log && e.it == it ==> e.Claim?
    ensures var after := log + PrepareEvents(c, t, w, it, stashed);
      && NoConflict(after) && Grown(log, after, it) && OnlyPrepared(after, it)
      && (TreeCreated(it) in after <==> Isolates(c, t, w))
      && (MustAsk(c, t, w) && MayRunInPlace(c, w) ==> InPlaceApproved(it) in after)
  {
    var tail, after := PrepareEvents(c, t, w, it, stashed), log + PrepareEvents(c, t, w, it, stashed);
    assert forall e :: e in after <==> e in log || e in tail;
    assert log <= after;
    assert tail != [] ==> tail[0] in tail;
  }

  /** What an iteration has recorded when its executor has returned, or has not. */
  lemma AttemptTells(prepared: seq<Event>, tail: seq<Event>, it: nat, i: nat, isolated: bool, o: Outcome)
    requires NoConflict(prepared) && OnlyPrepared(prepared, it)
    requires tail == [] || tail == [Started(it, isolated)]
          || tail == [Started(it, isolated), Returned(it, o.success, o.needsReview)]
    ensures var log := prepared + tail;
      && Recorded(log, it, i, Throws) && OnlyReturned(log, it, o) && (ExecutorReturned(log, it) <==> |tail| == 2)
      && CriticSaid(it, true) !in log && TreeRemovalTried(it) !in log
      && (TreeCreated(it) in log <==> TreeCreated(it) in prepared) && Grown(prepared, log, it)
  {
    var log := prepared + tail;
    assert forall e :: e in log <==> e in prepared || e in tail;
    assert |tail| == 2 ==> log[|prepared| + 1] == Returned(it, o.success, o.needsReview);
    assert prepared <= log;
  }

  /** What the rest of an iteration records after the executor has returned. */
  lemma StillTells(before: seq<Event>, after: seq<Event>, it: nat, o: Outcome, w: World)
    requires Continues(before, after, it, w)
    ensures OnlyReturned(before, it, o) ==> OnlyReturned(after, it, o)
    ensures ExecutorReturned(after, it) <==> ExecutorReturned(before, it)
    ensures TreeCreated(it) in after <==> TreeCreated(it) in before
    ensures CriticSaid(it, true) in after ==> CriticSaid(it, true) in before || w.critic == Some(true)
    ensures Grown(before, after, it)
  {
  }

  /** What a delegation records. */
  ghost predicate DelegationShown(before: seq<Event>, after: seq<Event>, it: nat, i: nat, isolated: bool, w: World) {
    && Recorded(after, it, i, if isolated && w.merge == MergeConflict then Conflicts else Delegates)
    && Continues(before, after, it, w)
    && (Merged(it) in after <==> isolated && w.merge == MergeOk)
    && (isolated && w.merge != MergeError ==> TreeRemovalTried(it) in after || ConflictRecorded(it) in after)
  }

  lemma DelegationRecorded(log: seq<Event>, it: nat, i: nat, isolated: bool, w: World)
    requires Recorded(log, it, i, Throws)
    ensures DelegationShown(log, log + ([Delegated(it)] + MergeEvents(it, isolated, w)), it, i, isolated, w)
  {
    var tail := [Delegated(it)] + MergeEvents(it, isolated, w);
    assert log <= log + tail && tail[0] == Delegated(it);
    assert tail[|tail| - 1] in log + tail;
  }

  /** What later iterations record does not matter. */
  lemma KeptStays(c: Config, before: seq<Event>, after: seq<Event>, it: nat, k: nat, w: World)
    requires Grown(before, after, it) && k != it
    ensures CancelKept(c, after, k, w) <==> CancelKept(c, before, k, w)
  {
  }

  /** How accepted work ends, if its iteration is not cancelled before that: its task is
      completed unless it is delegated or still to be merged, and refused exactly if its
      merge has failed without a conflict. */
  ghost predicate AcceptedEnds(c: Config, log: seq<Event>, it: nat, w: World) {
    forall i :: Claim(it, i) in log && Accepted(c, log, it) && DuringExecution !in w.cancels ==>
      && (TaskCompleted(it, i) in log <==> Delegated(it) !in log && (TreeCreated(it) in log ==> Merged(it) in log))
      && (TaskRejected(it, i) in log
          <==> Delegated(it) !in log && TreeCreated(it) in log && Merged(it) !in log && ConflictRecorded(it) !in log)
  }

  lemma EndsStay(c: Config, before: seq<Event>, after: seq<Event>, it: nat, k: nat, w: World)
    requires Grown(before, after, it) && k != it && AcceptedEnds(c, before, k, w)
    ensures AcceptedEnds(c, after, k, w)
  {
  }

  /** The session counts as cancelled exactly if its last iteration kept a cancellation, and
      none before it did; and in every iteration accepted work has ended as it should. */
  ghost predicate Ledger(c: Config, log: seq<Event>, worlds: seq<World>, n: nat, cancelled: bool)
    requires n <= |worlds|
  {
    && (forall k :: 0 <= k < n - 1 ==> !CancelKept(c, log, k, worlds[k]))
    && (forall k :: 0 <= k < n ==> AcceptedEnds(c, log, k, worlds[k]))
    && (cancelled <==> n > 0 && CancelKept(c, log, n - 1, worlds[n - 1]))
  }

  lemma LedgerAfterPop(c: Config, log: seq<Event>, worlds: seq<World>, n: nat, cancelled: bool)
    requires n <= |worlds| && Ledger(c, log, worlds, n, cancelled)
    ensures Ledger(c, log + [StashPopped], worlds, n, cancelled)
  {
    forall k | 0 <= k < n ensures CancelKept(c, log + [StashPopped], k, worlds[k]) == CancelKept(c, log, k, worlds[k]) {
      PopKeeps(c, log, k, worlds[k]);
    }
    forall k | 0 <= k < n ensures AcceptedEnds(c, log + [StashPopped], k, worlds[k]) {
      PopKeeps(c, log, k, worlds[k]);
    }
    hide CancelKept, AcceptedEnds;
  }

  lemma PopKeeps(c: Config, log: seq<Event>, k: nat, w: World)
    ensures CancelKept(c, log + [StashPopped], k, w) == CancelKept(c, log, k, w)
    ensures AcceptedEnds(c, log, k, w) ==> AcceptedEnds(c, log + [StashPopped], k, w)
  {
    assert forall e :: e in log + [StashPopped] <==> e in log || e == StashPopped;
  }

  lemma LedgerNext(c: Config, before: seq<Event>, after: seq<Event>, worlds: seq<World>, n: nat, cancelled: bool)
    requires n < |worlds| && Ledger(c, before, worlds, n, false) && Grown(before, after, n)
    requires cancelled <==> CancelKept(c, after, n, worlds[n])
    requires AcceptedEnds(c, after, n, worlds[n])
    ensures Ledger(c, after, worlds, n + 1, cancelled)
  {
    hide CancelKept, Grown, AcceptedEnds;
    forall k | 0 <= k < n ensures AcceptedEnds(c, after, k, worlds[k]) {
      EndsStay(c, before, after, n, k, worlds[k]);
    }
    forall k | 0 <= k < n ensures !CancelKept(c, after, k, worlds[k]) {
      KeptStays(c, before, after, n, k, worlds[k]);
    }
  }

  // ---------------------------------------------------------------- the queue after an iteration

  /** What each ending does to the queue. */
  ghost predicate QueueAfter(c: Config, ts: seq<Task>, us: seq<Task>, i: nat, o: Outcome, e: Ending) {
    && i < |ts|
    && match e
       case Completes => us == Unblocked(ts[i := ts[i].(status := Completed)])
       case Rejects => GivenBack(c, ts, us, i, !o.success && o.childCancelled)
       case Delegates => DelegatedTo(ts, us, i, o.subTasks)
       case Conflicts => Conflicted(c, ts, us, i, o)
       case Throws => us == ts
       case Cancels => us == ts
  }

  /** The task has failed and awaits recovery; its sub-tasks, if there are any, have been made. */
  ghost predicate Conflicted(c: Config, ts: seq<Task>, us: seq<Task>, i: nat, o: Outcome)
    requires i < |ts|
  {
    if ShouldDelegate(c, ts[i], o) then DelegatedInConflict(ts, us, i, o.subTasks) else FailsAt(ts, us, i)
  }

  ghost predicate DelegatedInConflict(ts: seq<Task>, us: seq<Task>, i: nat, isolation: seq<bool>) {
    exists mid :: DelegatedTo(ts, mid, i, isolation) && FailsAt(mid, us, i)
  }

  ghost predicate FailsAt(ts: seq<Task>, us: seq<Task>, i: nat) {
    i < |ts| && FailuresSpread(ts[i := InConflict(ts[i])], us)
  }

  ghost predicate AwaitsRecovery(ts: seq<Task>, i: nat) {
    i < |ts| && ts[i].status == Failed && ts[i].awaitsRecovery
  }

  lemma ConflictAwaits(ts: seq<Task>, us: seq<Task>, i: nat)
    requires FailsAt(ts, us, i)
    ensures AwaitsRecovery(us, i)
  {
  }

  lemma ConflictedAwaits(c: Config, ts: seq<Task>, us: seq<Task>, i: nat, o: Outcome)
    requires i < |ts| && Conflicted(c, ts, us, i, o)
    ensures AwaitsRecovery(us, i)
  {
    if ShouldDelegate(c, ts[i], o) {
      var mid :| DelegatedTo(ts, mid, i, o.subTasks) && FailsAt(mid, us, i);
      ConflictAwaits(mid, us, i);
    } else {
      ConflictAwaits(ts, us, i);
    }
  }

  /** The task `i` waits for new tasks, one for each element of `isolation`. */
  ghost predicate DelegatedTo(ts: seq<Task>, us: seq<Task>, i: nat, isolation: seq<bool>) {
    && i < |ts| && |us| == |ts| + |isolation|
    && (forall k :: 0 <= k < |isolation| ==> us[|ts| + k] == NewTask([], isolation[k], Some(i), ts[i].depth + 1))
    && (forall k :: 0 <= k < |ts| && k != i ==> us[k] == ts[k])
    && us[i] == Waiting(ts[i], |ts|, |isolation|)
  }

  /** A rejected task: one more retry counted, and open again only while there are some left. */
  ghost predicate GivenBack(c: Config, ts: seq<Task>, us: seq<Task>, i: nat, forceFail: bool)
    requires i < |ts|
  {
    var next := ts[i].retryCount + 1;
    if forceFail || next >= c.maxRetries
    then FailuresSpread(ts[i := ts[i].(status := Failed, retryCount := next)], us)
    else us == ts[i := ts[i].(status := Pending, owned := false, retryCount := next)]
  }

  lemma GivenBackNotCompleted(c: Config, ts: seq<Task>, us: seq<Task>, i: nat, forceFail: bool)
    requires i < |ts| && GivenBack(c, ts, us, i, forceFail)
    ensures i < |us| && us[i].status != Completed
  {
  }

  /** How a session may end. */
  ghost predicate EndsWell(phase: Phase, ts: seq<Task>, log: seq<Event>) {
    && (phase == SessionCompleted || phase == SessionFailed || phase == SessionCancelled || phase == WaitingUser)
    && (phase == SessionCompleted <==> AllCompleted(ts))
    && (phase == WaitingUser <==> !NoConflict(log))
    && (phase == WaitingUser ==> exists i :: AwaitsRecovery(ts, i))
  }

  predicate GoesOn(e: Ending) {
    e == Completes || e == Rejects || e == Delegates
  }

  lemma AfterTurn(c: Config, ts: seq<Task>, us: seq<Task>, log: seq<Event>, it: nat, i: nat, w: World, e: Ending)
    requires i < |ts| && ts[i].status == InProgress && e == TurnOf(c, ts, i, w)
    requires QueueAfter(c, ts, us, i, OutcomeIn(c, ts, i, w), e) && Recorded(log, it, i, e)
    ensures e == Delegates ==> c.enableSubAgents
    ensures !GoesOn(e) ==> EndsWell(FinalPhase(c, ts, i, w), us, log)
    ensures GoesOn(e) ==>
      && NoConflict(log)
      && (FinalPhase(c, ts, i, w) == Executing || (FinalPhase(c, ts, i, w) == SessionCancelled && !AllCompleted(us)))
  {
    if e == Rejects {
      var o := OutcomeIn(c, ts, i, w);
      GivenBackNotCompleted(c, ts, us, i, !o.success && o.childCancelled);
    } else if e == Conflicts {
      ConflictedAwaits(c, ts, us, i, OutcomeIn(c, ts, i, w));
    }
    hide Conflicted, GivenBack, Unblocked, Isolates, MustAsk, MayRunInPlace, OutcomeOf, IsSubAgent;
  }

  // ---------------------------------------------------------------- queue and log together

  /** No task reopened, completed or counted anew; perhaps some new ones. */
  ghost predicate Follows(ts: seq<Task>, us: seq<Task>) {
    && |ts| <= |us|
    && (forall i :: 0 <= i < |ts| ==>
          && us[i].retryCount == ts[i].retryCount
          && (Open(us[i]) ==> Open(ts[i]))
          && (us[i].status == Completed ==> ts[i].status == Completed))
    && forall i :: |ts| <= i < |us| ==> us[i].retryCount == 0 && us[i].status != Completed
  }

  lemma MatchesAfter(c: Config, start: seq<Task>, ts: seq<Task>, us: seq<Task>, log: seq<Event>)
    requires QueueMatches(c, start, ts, log) && Follows(ts, us)
    ensures QueueMatches(c, start, us, log)
  {
    hide Finished;
  }

  lemma DelegationMatches(c: Config, start: seq<Task>, ts: seq<Task>, us: seq<Task>,
        log: seq<Event>, i: nat, isolation: seq<bool>)
    requires QueueMatches(c, start, ts, log) && DelegatedTo(ts, us, i, isolation) && Open(ts[i])
    ensures QueueMatches(c, start, us, log) && us[i].status == Blocked
  {
    forall k | |ts| <= k < |us| ensures us[k].retryCount == 0 && us[k].status != Completed {
      var j := k - |ts|;
      assert us[|ts| + j] == NewTask([], isolation[j], Some(i), ts[i].depth + 1);
    }
    MatchesAfter(c, start, ts, us, log);
  }

  lemma SpreadMatches(c: Config, start: seq<Task>, ts: seq<Task>, mid: seq<Task>, us: seq<Task>, log: seq<Event>)
    requires QueueMatches(c, start, ts, log) && Follows(ts, mid) && |mid| == |ts| && FailuresSpread(mid, us)
    ensures QueueMatches(c, start, us, log)
  {
    assert Follows(ts, us);
    hide FailuresSpread;
    MatchesAfter(c, start, ts, us, log);
  }

  lemma CompletionMatches(c: Config, start: seq<Task>, ts: seq<Task>, log: seq<Event>, it: nat, i: nat)
    requires QueueMatches(c, start, ts, log) && i < |ts| && Open(ts[i]) && TaskCompleted(it, i) in log
    ensures var us := Unblocked(ts[i := ts[i].(status := Completed)]);
      QueueMatches(c, start, us, log) && Potential(c, us) < Potential(c, ts)
  {
    var done := ts[i := ts[i].(status := Completed)];
    assert Finished(start, log, i);
    PotentialUpdate(c, ts, i, done[i]);
    PotentialMonotone(c, done, Unblocked(done));
    hide Finished, Potential, Rejections;
  }

  /** A rejection keeps retry counts and rejections in step, and uses up one time of its task. */
  lemma {:induction false} RejectionMatches(c: Config, start: seq<Task>, ts: seq<Task>, us: seq<Task>, log: seq<Event>,
        it: nat, i: nat, forceFail: bool)
    requires QueueMatches(c, start, ts, log) && i < |ts| && Open(ts[i]) && GivenBack(c, ts, us, i, forceFail)
    ensures QueueMatches(c, start, us, log + [TaskRejected(it, i)])
    ensures Potential(c, us) < Potential(c, ts)
  {
    var next := ts[i].retryCount + 1;
    var fails := forceFail || next >= c.maxRetries;
    var t := if fails then ts[i].(status := Failed, retryCount := next)
             else ts[i].(status := Pending, owned := false, retryCount := next);
    var mid := ts[i := t];
    PotentialUpdate(c, ts, i, t);
    assert Follows(mid, us);
    PotentialMonotone(c, mid, us);
    RejectionCounts(c, start, ts, log, it, i, t);
    MatchesAfter(c, start, mid, us, log + [TaskRejected(it, i)]);
  }

  lemma RejectionCounts(c: Config, start: seq<Task>, ts: seq<Task>, log: seq<Event>, it: nat, i: nat, t: Task)
    requires QueueMatches(c, start, ts, log) && i < |ts|
    requires t.retryCount == ts[i].retryCount + 1 && t.status != Completed && Weight(c, t) < Weight(c, ts[i])
    ensures QueueMatches(c, start, ts[i := t], log + [TaskRejected(it, i)])
  {
    var mid, longer := ts[i := t], log + [TaskRejected(it, i)];
    assert longer[..|longer| - 1] == log;
    assert forall k: nat :: Rejections(longer, k) == Rejections(log, k) + if k == i then 1 else 0;
    forall k | 0 <= k < |mid| && mid[k].status == Completed ensures Finished(start, longer, k) {
      if !(k < |start| && start[k].status == Completed) {
        var x :| TaskCompleted(x, k) in log;
        assert TaskCompleted(x, k) in longer;
      }
    }
    hide Finished, Weight;
  }
}
