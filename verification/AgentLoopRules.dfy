/** What the answers an iteration gets make of it, rule by rule: what its log shows, and what
    becomes of the queue. The rules read nothing but the configuration, the task, the answers
    and the log. */
module AgentLoopRules {
  import opened Options
  import opened TaskQueue
  import opened AgentLoop
  import opened AgentLoopTurn

  /** Before the work: a worktree where the task asks for one and git gives it; otherwise an
      optimizer, and an isolated task that has got none, need an approval to work in place on
      a git workspace. The executor starts unless that is refused, or the hook of a sub-agent
      throws, and what it returns is recorded: a missing answer about review means yes. */
  ghost predicate WorkRules(c: Config, t: Task, subAgent: bool, w: World, log: seq<Event>, it: nat) {
    var tree := t.requiresIsolation && c.git && w.createOk;
    var asks := c.git && !tree && (t.requiresIsolation || c.optimizer);
    var allowed := w.statusOk && (c.allowInPlace || (c.canConfirm && w.confirm == Some(true)));
    && (TreeCreated(it) in log <==> tree)
    && (InPlaceApproved(it) in log <==> asks && allowed)
    && (InPlaceBlocked(it) in log <==> asks && w.statusOk && !allowed && (!c.canConfirm || w.confirm.Some?))
    && (forall stashed :: StashTried(it, stashed) in log ==>
          stashed == w.stashed && c.optimizer && !t.requiresIsolation && asks && allowed)
    && (forall isolated :: Started(it, isolated) in log <==>
          isolated == tree && (asks ==> allowed) && (subAgent ==> w.hooks != StartHookThrows))
    && (forall success, review :: Returned(it, success, review) in log <==>
          && (asks ==> allowed) && (subAgent ==> w.hooks == HooksFine)
          && success == (w.execution.Result? && w.execution.success)
          && review == (!subAgent && w.execution.Result? && w.execution.needsReview != Some(false)))
  }

  /** The executor has returned a success, and nobody has cancelled the session before that. */
  ghost predicate WorkSucceeded(w: World, log: seq<Event>, it: nat) {
    DuringExecution !in w.cancels && (Returned(it, true, true) in log || Returned(it, true, false) in log)
  }

  /** Sub-tasks are handed over only by an executor, and only so deep. Work that is not is
      reviewed unless the executor waives it, or approval is automatic. */
  ghost predicate ReviewRules(c: Config, t: Task, subAgent: bool, w: World, log: seq<Event>, it: nat) {
    var handsOver := !subAgent && w.execution.Result? && w.execution.subTasks != [] && c.enableSubAgents && t.depth < c.maxDepth;
    && (Delegated(it) in log <==> WorkSucceeded(w, log, it) && handsOver)
    && (forall approved :: CriticSaid(it, approved) in log <==>
          && WorkSucceeded(w, log, it) && !handsOver && !subAgent && !c.autoApprove
          && w.execution.Result? && w.execution.needsReview != Some(false)
          && approved == (w.critic == Some(true)))
  }

  ghost predicate WorkFailed(w: World, log: seq<Event>, it: nat) {
    DuringExecution !in w.cancels && (Returned(it, false, true) in log || Returned(it, false, false) in log)
  }

  /** Work that is not handed over is approved if nobody is asked, or the critic says so. */
  ghost predicate Approved(c: Config, subAgent: bool, w: World, log: seq<Event>, it: nat) {
    && WorkSucceeded(w, log, it) && Delegated(it) !in log
    && (subAgent || c.autoApprove || (w.execution.Result? && w.execution.needsReview == Some(false)) || w.critic == Some(true))
  }

  /** Approved work completes its task once it is merged, where it has a worktree. A task is
      given back whose work has failed, or is neither handed over nor approved, or cannot be
      merged for another reason than a conflict. */
  ghost predicate TaskRules(c: Config, t: Task, subAgent: bool, w: World, log: seq<Event>, it: nat, i: nat) {
    var tree := t.requiresIsolation && c.git && w.createOk;
    var approved := Approved(c, subAgent, w, log, it);
    && (TaskCompleted(it, i) in log <==> approved && (tree ==> w.merge == MergeOk))
    && (TaskRejected(it, i) in log <==>
          || WorkFailed(w, log, it)
          || (WorkSucceeded(w, log, it) && Delegated(it) !in log && !approved)
          || (approved && tree && w.merge == MergeError))
    && (forall k :: k != i ==> TaskCompleted(it, k) !in log && TaskRejected(it, k) !in log)
  }

  /** The worktree of work that is handed over or approved is merged, and in the end every one
      is removed but that of a conflict. An optimizer's work in place is committed with its
      task, and rolled back when that is given back. */
  ghost predicate TreeRules(c: Config, t: Task, subAgent: bool, w: World, log: seq<Event>, it: nat, i: nat) {
    var tree := t.requiresIsolation && c.git && w.createOk;
    var merges := tree && (Delegated(it) in log || Approved(c, subAgent, w, log, it));
    && (Merged(it) in log <==> merges && w.merge == MergeOk)
    && (ConflictRecorded(it) in log <==> merges && w.merge == MergeConflict)
    && (TreeRemovalTried(it) in log <==> tree && ConflictRecorded(it) !in log)
    && (Committed(it) in log <==> TaskCompleted(it, i) in log && c.optimizer && c.git && !tree && w.commitOk)
    && (RolledBack(it) in log <==> TaskRejected(it, i) in log && c.optimizer && !tree && (c.git || WorkFailed(w, log, it)))
  }

  ghost predicate Rules(c: Config, t: Task, subAgent: bool, w: World, log: seq<Event>, it: nat, i: nat) {
    && WorkRules(c, t, subAgent, w, log, it)
    && ReviewRules(c, t, subAgent, w, log, it)
    && TaskRules(c, t, subAgent, w, log, it, i)
    && TreeRules(c, t, subAgent, w, log, it, i)
  }

  /** A sub-session works on the tasks that another task has made. */
  ghost predicate HasSubAgent(c: Config, t: Task, i: nat, n: nat) {
    c.enableSubAgents && t.parent.Some? && t.parent.value != i && t.parent.value < n
  }

  /** A task that fails takes those with it that wait for it, directly or not. */
  ghost predicate Fails(ts: seq<Task>, us: seq<Task>) {
    FailuresSpread(ts, us) && FailsWaiting(ts, us)
  }

  ghost predicate FailsInConflict(ts: seq<Task>, us: seq<Task>, i: nat) {
    i < |ts| && Fails(ts[i := ts[i].(status := Failed, owned := true, awaitsRecovery := true)], us)
  }

  ghost predicate HandedInConflict(ts: seq<Task>, us: seq<Task>, i: nat, isolation: seq<bool>, depth: nat) {
    exists mid :: HandsOver(ts, mid, i, isolation, depth) && FailsInConflict(mid, us, i)
  }

  /** What becomes of the queue: a task given back counts one more retry, and fails for good with
      the last of them, or if its sub-session was cancelled. */
  ghost predicate QueueRules(c: Config, ts: seq<Task>, us: seq<Task>, w: World, log: seq<Event>, it: nat, i: nat)
    requires i < |ts|
  {
    var retries := ts[i].retryCount + 1;
    var gone := retries >= c.maxRetries || (w.execution.Result? && !w.execution.success && w.execution.childCancelled);
    var subTasks := if w.execution.Result? then w.execution.subTasks else [];
    if TaskCompleted(it, i) in log then CompletesOne(ts, us, i)
    else if TaskRejected(it, i) in log then
      if gone then Fails(ts[i := ts[i].(status := Failed, retryCount := retries)], us)
      else us == ts[i := ts[i].(status := Pending, owned := false, retryCount := retries)]
    else if ConflictRecorded(it) in log then
      if Delegated(it) in log then HandedInConflict(ts, us, i, subTasks, ts[i].depth + 1) else FailsInConflict(ts, us, i)
    else if Delegated(it) in log then HandsOver(ts, us, i, subTasks, ts[i].depth + 1)
    else us == ts
  }

  /** The phase an iteration leaves: what it throws fails the session. */
  ghost predicate PhaseRules(c: Config, phase: Phase, w: World, log: seq<Event>, it: nat) {
    && (phase == SessionFailed <==> !ExecutorReturned(log, it))
    && (phase == WaitingUser <==> ConflictRecorded(it) in log)
    && (phase == SessionCancelled <==> CancelKept(c, log, it, w))
    && (phase == SessionFailed || phase == WaitingUser || phase == SessionCancelled || phase == Executing)
  }

  // ---------------------------------------------------------------- the events keep the rules

  /** The log holds of the iteration its claim and these events. */
  ghost predicate Holds(log: seq<Event>, it: nat, events: seq<Event>) {
    forall e :: (e in events ==> e in log) && (e in log && !e.StashPopped? && e.it == it ==> e.Claim? || e in events)
  }

  lemma AddedHolds(before: seq<Event>, events: seq<Event>, it: nat)
    requires StashPopped !in before && forall e :: e in before && e.it == it ==> e.Claim?
    ensures Holds(before + events, it, events)
  {
  }

  /** What is recorded before an outcome is dealt with. */
  predicate IsOfWork(e: Event) {
    e.TreeCreated? || e.InPlaceApproved? || e.InPlaceBlocked? || e.StashTried? || e.Started? || e.Returned?
  }

  lemma PrepareShows(c: Config, t: Task, w: World, it: nat, stashed: bool)
    ensures var tree := t.requiresIsolation && c.git && w.createOk;
      var asks := c.git && !tree && (t.requiresIsolation || c.optimizer);
      var allowed := w.statusOk && (c.allowInPlace || (c.canConfirm && w.confirm == Some(true)));
      var events := PrepareEvents(c, t, w, it, stashed);
      && (TreeCreated(it) in events <==> tree)
      && (InPlaceApproved(it) in events <==> asks && allowed)
      && (InPlaceBlocked(it) in events <==> asks && w.statusOk && !allowed && (!c.canConfirm || w.confirm.Some?))
      && (forall b :: StashTried(it, b) in events ==> b == w.stashed && c.optimizer && !t.requiresIsolation && asks && allowed)
      && (forall e :: e in events ==> IsOfWork(e) && !e.Started? && !e.Returned? && e.it == it)
      && (Attempts(c, t, w) <==> (asks ==> allowed)) && (Isolates(c, t, w) <==> tree)
  {
    var events := PrepareEvents(c, t, w, it, stashed);
    assert events != [] ==> events[0] in events;
  }

  lemma ExecuteShows(c: Config, ts: seq<Task>, i: nat, w: World, it: nat)
    requires i < |ts|
    ensures var subAgent, events := HasSubAgent(c, ts[i], i, |ts|), ExecuteEvents(c, ts, i, w, it);
      && (forall isolated :: Started(it, isolated) in events <==>
            isolated == Isolates(c, ts[i], w) && (subAgent ==> w.hooks != StartHookThrows))
      && (forall success, review :: Returned(it, success, review) in events <==>
            && (subAgent ==> w.hooks == HooksFine)
            && success == (w.execution.Result? && w.execution.success)
            && review == (!subAgent && w.execution.Result? && w.execution.needsReview != Some(false)))
      && (forall e :: e in events ==> (e.Started? || e.Returned?) && e.it == it)
  {
    var events := ExecuteEvents(c, ts, i, w, it);
    hide Isolates;
    assert events != [] ==> events[0] in events && (|events| > 1 ==> events[1] in events);
  }

  lemma AttemptRules(c: Config, ts: seq<Task>, i: nat, w: World, it: nat, stashed: bool)
    requires i < |ts|
    ensures var events := AttemptEvents(c, ts, i, w, it, stashed);
      && WorkRules(c, ts[i], HasSubAgent(c, ts[i], i, |ts|), w, events, it)
      && forall e :: e in events ==> IsOfWork(e) && e.it == it
  {
    PrepareShows(c, ts[i], w, it, stashed);
    ExecuteShows(c, ts, i, w, it);
    hide PrepareEvents, ExecuteEvents, HasSubAgent, Isolates, Attempts;
  }

  /** What dealing with an outcome records. */
  ghost predicate FollowShows(c: Config, t: Task, it: nat, i: nat, tree: bool, o: Outcome, w: World,
        events: seq<Event>) {
    var live := DuringExecution !in w.cancels;
    var handed := live && o.success && ShouldDelegate(c, t, o);
    var approved := live && o.success && !handed && Approves(c, o, w);
    var given := live && !handed && !(approved && !(tree && w.merge == MergeError));
    && (Delegated(it) in events <==> handed)
    && (forall b :: CriticSaid(it, b) in events <==>
          live && o.success && !handed && o.needsReview && !c.autoApprove && b == Approves(c, o, w))
    && (Merged(it) in events <==> tree && w.merge == MergeOk && (handed || approved))
    && (ConflictRecorded(it) in events <==> tree && w.merge == MergeConflict && (handed || approved))
    && (TaskCompleted(it, i) in events <==> approved && (tree ==> w.merge == MergeOk))
    && (TaskRejected(it, i) in events <==> given)
    && (Committed(it) in events <==> approved && c.optimizer && c.git && !tree && w.commitOk)
    && (RolledBack(it) in events <==> given && c.optimizer && !tree && (c.git || !o.success))
    && (TreeRemovalTried(it) in events <==> tree && (given || (w.merge == MergeOk && (handed || approved))))
    && OnlyFollows(it, i, events)
  }

  ghost predicate OnlyFollows(it: nat, i: nat, events: seq<Event>) {
    && (forall e :: e in events ==> !IsOfWork(e) && !e.Claim? && !e.StashPopped? && e.it == it)
    && (forall e :: e in events && (e.TaskCompleted? || e.TaskRejected?) ==> e.task == i)
  }

  lemma RefusalShows(c: Config, it: nat, i: nat, tree: bool, needsGit: bool)
    ensures forall e :: e in RefusalEvents(c, it, i, tree, needsGit) <==>
      || e == TaskRejected(it, i)
      || (tree && e == TreeRemovalTried(it))
      || (!tree && c.optimizer && (c.git || !needsGit) && e == RolledBack(it))
  {
    var events := RefusalEvents(c, it, i, tree, needsGit);
    assert events[|events| - 1] == TaskRejected(it, i) && (|events| == 2 ==> events[0] in events);
    assert UndoEvents(c, it, tree, needsGit) != [] ==> events[0] == UndoEvents(c, it, tree, needsGit)[0];
  }

  lemma MergeShows(it: nat, tree: bool, w: World)
    ensures forall e :: e in MergeEvents(it, tree, w) <==>
      || (tree && w.merge == MergeOk && (e == Merged(it) || e == TreeRemovalTried(it)))
      || (tree && w.merge == MergeConflict && e == ConflictRecorded(it))
  {
    var events := MergeEvents(it, tree, w);
    assert events != [] ==> events[0] in events && (|events| == 2 ==> events[1] in events);
    assert |events| == 2 ==> events[1] == TreeRemovalTried(it);
  }

  lemma FinishShows(c: Config, it: nat, i: nat, tree: bool, w: World)
    ensures forall e :: e in FinishEvents(c, it, i, tree, w) <==>
      || e == TaskCompleted(it, i)
      || (c.optimizer && c.git && !tree && w.commitOk && e == Committed(it))
  {
    var events := FinishEvents(c, it, i, tree, w);
    assert events[|events| - 1] == TaskCompleted(it, i) && (|events| == 2 ==> events[0] == Committed(it));
  }

  lemma FollowEventsShow(c: Config, t: Task, it: nat, i: nat, tree: bool, o: Outcome, w: World)
    ensures FollowShows(c, t, it, i, tree, o, w, FollowEvents(c, t, it, i, tree, o, w))
  {
    RefusalShows(c, it, i, tree, true);
    RefusalShows(c, it, i, tree, false);
    MergeShows(it, tree, w);
    FinishShows(c, it, i, tree, w);
    hide RefusalEvents, MergeEvents, FinishEvents, ShouldDelegate, Approves;
    if o.success && DuringExecution !in w.cancels {
      ResolveEventsShow(c, t, it, i, tree, o, w);
    }
  }

  lemma ResolveEventsShow(c: Config, t: Task, it: nat, i: nat, tree: bool, o: Outcome, w: World)
    requires o.success && DuringExecution !in w.cancels
    ensures FollowShows(c, t, it, i, tree, o, w, ResolveEvents(c, t, it, i, tree, o, w))
  {
    if ShouldDelegate(c, t, o) {
      HandedShows(c, t, it, i, tree, o, w);
    } else {
      ReviewShows(c, it, o, w);
      ConcludeShows(c, it, i, tree, Approves(c, o, w), w);
      hide FollowShows, ReviewEvents, ConcludeEvents, ShouldDelegate, Approves;
      ReviewedShows(c, t, it, i, tree, o, w, ReviewEvents(c, it, o, w), ConcludeEvents(c, it, i, tree, Approves(c, o, w), w));
    }
  }

  lemma HandedShows(c: Config, t: Task, it: nat, i: nat, tree: bool, o: Outcome, w: World)
    requires o.success && DuringExecution !in w.cancels && ShouldDelegate(c, t, o)
    ensures FollowShows(c, t, it, i, tree, o, w, [Delegated(it)] + MergeEvents(it, tree, w))
  {
    MergeShows(it, tree, w);
    hide MergeEvents, ShouldDelegate, Approves;
  }

  lemma ReviewedShows(c: Config, t: Task, it: nat, i: nat, tree: bool, o: Outcome, w: World,
        review: seq<Event>, conclusion: seq<Event>)
    requires o.success && DuringExecution !in w.cancels && !ShouldDelegate(c, t, o)
    requires forall e :: e in review <==> o.needsReview && !c.autoApprove && e == CriticSaid(it, Approves(c, o, w))
    requires Concludes(c, it, i, tree, Approves(c, o, w), w, conclusion)
    ensures FollowShows(c, t, it, i, tree, o, w, review + conclusion)
  {
    assert OnlyFollows(it, i, review + conclusion) by { hide Approves; }
    hide ShouldDelegate, Approves, OnlyFollows;
  }

  lemma ReviewShows(c: Config, it: nat, o: Outcome, w: World)
    ensures forall e :: e in ReviewEvents(c, it, o, w) <==>
      o.needsReview && !c.autoApprove && e == CriticSaid(it, Approves(c, o, w))
  {
  }

  ghost predicate Concludes(c: Config, it: nat, i: nat, tree: bool, approved: bool, w: World, events: seq<Event>) {
    var refused := !(approved && !(tree && w.merge == MergeError));
    && (Merged(it) in events <==> tree && w.merge == MergeOk && approved)
    && (ConflictRecorded(it) in events <==> tree && w.merge == MergeConflict && approved)
    && (TaskCompleted(it, i) in events <==> approved && (tree ==> w.merge == MergeOk))
    && (Committed(it) in events <==> approved && c.optimizer && c.git && !tree && w.commitOk)
    && (TaskRejected(it, i) in events <==> refused)
    && (RolledBack(it) in events <==> refused && !tree && c.optimizer && c.git)
    && (TreeRemovalTried(it) in events <==> tree && (refused || (approved && w.merge == MergeOk)))
    && (forall e :: e in events ==> !e.Delegated? && !e.CriticSaid?)
    && OnlyFollows(it, i, events)
  }

  lemma ConcludeShows(c: Config, it: nat, i: nat, tree: bool, approved: bool, w: World)
    ensures Concludes(c, it, i, tree, approved, w, ConcludeEvents(c, it, i, tree, approved, w))
  {
    RefusalShows(c, it, i, tree, true);
    MergeShows(it, tree, w);
    FinishShows(c, it, i, tree, w);
    hide RefusalEvents, MergeEvents, FinishEvents;
  }

  // ---------------------------------------------------------------- put together

  lemma OutcomeShows(c: Config, ts: seq<Task>, i: nat, w: World)
    requires i < |ts|
    ensures var o, subAgent := OutcomeIn(c, ts, i, w), HasSubAgent(c, ts[i], i, |ts|);
      && o.success == (w.execution.Result? && w.execution.success)
      && o.needsReview == (!subAgent && w.execution.Result? && w.execution.needsReview != Some(false))
      && o.subTasks == (if !subAgent && w.execution.Result? then w.execution.subTasks else [])
      && (!o.success && o.childCancelled <==> w.execution.Result? && !w.execution.success && w.execution.childCancelled)
  {
  }

  lemma LeftShows(c: Config, ts: seq<Task>, i: nat, w: World)
    requires i < |ts|
    ensures var o := OutcomeIn(c, ts, i, w);
      var ran := Attempts(c, ts[i], w) && (HasSubAgent(c, ts[i], i, |ts|) ==> w.hooks == HooksFine);
      LeftOver(c, ts, i, w) <==>
        Isolates(c, ts[i], w)
        && (!ran || DuringExecution in w.cancels || (o.success && ShouldDelegate(c, ts[i], o) && w.merge == MergeError))
  {
    hide OutcomeIn, ShouldDelegate, Isolates, MustAsk, MayRunInPlace, Approves;
  }

  lemma WorkRulesCarry(c: Config, t: Task, subAgent: bool, w: World, events: seq<Event>, log: seq<Event>, it: nat)
    requires WorkRules(c, t, subAgent, w, events, it)
    requires forall e :: IsOfWork(e) && e.it == it ==> (e in log <==> e in events)
    ensures WorkRules(c, t, subAgent, w, log, it)
  {
  }

  /** What the log holds of the iteration besides its claim and the work itself. */
  ghost predicate FollowLogged(c: Config, t: Task, it: nat, i: nat, ran: bool, tree: bool, o: Outcome, w: World,
        log: seq<Event>, follow: seq<Event>, left: bool) {
    && (if ran then FollowShows(c, t, it, i, tree, o, w, follow) else follow == [])
    && forall e :: !IsOfWork(e) && !e.Claim? && !e.StashPopped? && e.it == it ==>
      (e in log <==> e in follow || (e == TreeRemovalTried(it) && left))
  }

  /** The executor, or the sub-session in its place, gives something back. */
  predicate Returns(c: Config, ts: seq<Task>, i: nat, w: World)
    requires i < |ts|
  {
    Attempts(c, ts[i], w) && (IsSubAgent(c, ts, i) ==> w.hooks == HooksFine)
  }

  lemma IterationFollowed(c: Config, ts: seq<Task>, i: nat, w: World, it: nat, stashed: bool, log: seq<Event>)
      returns (follow: seq<Event>)
    requires i < |ts| && Holds(log, it, IterationEvents(c, ts, i, w, it, stashed))
    ensures FollowLogged(c, ts[i], it, i, Returns(c, ts, i, w), Isolates(c, ts[i], w), OutcomeIn(c, ts, i, w), w, log, follow,
                         LeftOver(c, ts, i, w))
  {
    var o := OutcomeIn(c, ts, i, w);
    AttemptRules(c, ts, i, w, it, stashed);
    FollowEventsShow(c, ts[i], it, i, Isolates(c, ts[i], w), o, w);
    follow := FollowOf(c, ts, i, w, it);
    IterationMembers(c, ts, i, w, it, stashed);
    hide AttemptEvents, FollowEvents, Isolates, Attempts, OutcomeIn, LeftOver, WorkRules, IsSubAgent, IterationEvents, Returns;
    FollowHasNoWork(c, ts, i, w, it);
    hide FollowShows;
  }

  function FollowOf(c: Config, ts: seq<Task>, i: nat, w: World, it: nat): seq<Event>
    requires i < |ts|
  {
    if Returns(c, ts, i, w) then FollowEvents(c, ts[i], it, i, Isolates(c, ts[i], w), OutcomeIn(c, ts, i, w), w) else []
  }

  lemma IterationMembers(c: Config, ts: seq<Task>, i: nat, w: World, it: nat, stashed: bool)
    requires i < |ts|
    ensures forall e :: e in IterationEvents(c, ts, i, w, it, stashed) <==>
      || e in AttemptEvents(c, ts, i, w, it, stashed) || e in FollowOf(c, ts, i, w, it)
      || (e == TreeRemovalTried(it) && LeftOver(c, ts, i, w))
  {
    hide AttemptEvents, FollowEvents, Isolates, Attempts, OutcomeIn, LeftOver, IsSubAgent;
  }

  lemma IterationWorks(c: Config, ts: seq<Task>, i: nat, w: World, it: nat, stashed: bool, log: seq<Event>)
    requires i < |ts| && Holds(log, it, IterationEvents(c, ts, i, w, it, stashed))
    ensures WorkRules(c, ts[i], HasSubAgent(c, ts[i], i, |ts|), w, log, it)
  {
    AttemptRules(c, ts, i, w, it, stashed);
    IterationMembers(c, ts, i, w, it, stashed);
    FollowHasNoWork(c, ts, i, w, it);
    hide AttemptEvents, HasSubAgent, LeftOver, WorkRules, IterationEvents, FollowOf;
    WorkRulesCarry(c, ts[i], HasSubAgent(c, ts[i], i, |ts|), w, AttemptEvents(c, ts, i, w, it, stashed), log, it);
  }

  lemma FollowHasNoWork(c: Config, ts: seq<Task>, i: nat, w: World, it: nat)
    requires i < |ts|
    ensures forall e :: e in FollowOf(c, ts, i, w, it) ==> !IsOfWork(e) && !e.Claim? && !e.StashPopped? && e.it == it
  {
    FollowEventsShow(c, ts[i], it, i, Isolates(c, ts[i], w), OutcomeIn(c, ts, i, w), w);
    hide FollowEvents, Isolates, Returns, OutcomeIn;
  }

  /** The log shows whether there is an outcome, and which. */
  lemma OutcomeLogged(c: Config, ts: seq<Task>, i: nat, w: World, log: seq<Event>, it: nat)
    requires i < |ts| && WorkRules(c, ts[i], HasSubAgent(c, ts[i], i, |ts|), w, log, it)
    ensures var ran, o := Returns(c, ts, i, w), OutcomeIn(c, ts, i, w);
      && (Returned(it, true, true) in log || Returned(it, true, false) in log <==> ran && o.success)
      && (Returned(it, false, true) in log || Returned(it, false, false) in log <==> ran && !o.success)
      && (TreeCreated(it) in log <==> Isolates(c, ts[i], w))
  {
    PrepareShows(c, ts[i], w, it, false);
    OutcomeShows(c, ts, i, w);
    assert HasSubAgent(c, ts[i], i, |ts|) <==> IsSubAgent(c, ts, i);
    var o := OutcomeIn(c, ts, i, w);
    hide OutcomeIn, Attempts, HasSubAgent, IsSubAgent, Isolates, PrepareEvents;
    assert Returned(it, o.success, o.needsReview) in log <==> Returns(c, ts, i, w);
  }

  /** The log shows whether there is an outcome, which, and whether there is a worktree. */
  ghost predicate Shown(c: Config, t: Task, subAgent: bool, w: World, log: seq<Event>, it: nat, ran: bool,
        tree: bool, o: Outcome) {
    && (Returned(it, true, true) in log || Returned(it, true, false) in log <==> ran && o.success)
    && (Returned(it, false, true) in log || Returned(it, false, false) in log <==> ran && !o.success)
    && (tree <==> t.requiresIsolation && c.git && w.createOk)
    && (o.success ==> w.execution.Result?)
    && o.needsReview == (!subAgent && w.execution.Result? && w.execution.needsReview != Some(false))
    && o.subTasks == if !subAgent && w.execution.Result? then w.execution.subTasks else []
  }

  lemma ReviewRulesHold(c: Config, t: Task, subAgent: bool, w: World, log: seq<Event>, it: nat, i: nat,
        ran: bool, tree: bool, o: Outcome, follow: seq<Event>, left: bool)
    requires Shown(c, t, subAgent, w, log, it, ran, tree, o)
    requires FollowLogged(c, t, it, i, ran, tree, o, w, log, follow, left)
    ensures ReviewRules(c, t, subAgent, w, log, it)
  {
  }

  lemma TaskRulesHold(c: Config, t: Task, subAgent: bool, w: World, log: seq<Event>, it: nat, i: nat,
        ran: bool, tree: bool, o: Outcome, follow: seq<Event>, left: bool)
    requires Shown(c, t, subAgent, w, log, it, ran, tree, o)
    requires FollowLogged(c, t, it, i, ran, tree, o, w, log, follow, left)
    ensures TaskRules(c, t, subAgent, w, log, it, i)
  {
    assert Delegated(it) in log <==> Delegated(it) in follow;
    assert forall k :: TaskCompleted(it, k) in log <==> TaskCompleted(it, k) in follow;
    assert forall k :: TaskRejected(it, k) in log <==> TaskRejected(it, k) in follow;
    hide ShouldDelegate, IsOfWork;
  }

  lemma TreeRulesHold(c: Config, t: Task, subAgent: bool, w: World, log: seq<Event>, it: nat, i: nat,
        ran: bool, tree: bool, o: Outcome, follow: seq<Event>, left: bool)
    requires Shown(c, t, subAgent, w, log, it, ran, tree, o)
    requires FollowLogged(c, t, it, i, ran, tree, o, w, log, follow, left)
    requires left == (tree
      && (!ran || DuringExecution in w.cancels || (o.success && ShouldDelegate(c, t, o) && w.merge == MergeError)))
    ensures TreeRules(c, t, subAgent, w, log, it, i)
  {
    hide ShouldDelegate;
  }

  lemma TreeIsolates(c: Config, t: Task, w: World)
    ensures Isolates(c, t, w) <==> t.requiresIsolation && c.git && w.createOk
  {
  }

  /** Every iteration keeps the rules. */
  lemma {:induction false} IterationRules(c: Config, ts: seq<Task>, i: nat, w: World, it: nat, stashed: bool,
        log: seq<Event>)
    requires i < |ts| && Holds(log, it, IterationEvents(c, ts, i, w, it, stashed))
    ensures Rules(c, ts[i], HasSubAgent(c, ts[i], i, |ts|), w, log, it, i)
  {
    IterationWorks(c, ts, i, w, it, stashed, log);
    var follow := IterationFollowed(c, ts, i, w, it, stashed, log);
    OutcomeIsShown(c, ts, i, w, log, it);
    LeftShows(c, ts, i, w);
    var ran, tree, o, left := Returns(c, ts, i, w), Isolates(c, ts[i], w), OutcomeIn(c, ts, i, w), LeftOver(c, ts, i, w);
    assert HasSubAgent(c, ts[i], i, |ts|) <==> IsSubAgent(c, ts, i);
    hide Rules, Holds, WorkRules, HasSubAgent, IsSubAgent, OutcomeIn, Attempts, Isolates, LeftOver, FollowLogged, Shown;
    var t, subAgent := ts[i], HasSubAgent(c, ts[i], i, |ts|);
    AllRules(c, t, subAgent, w, log, it, i, ran, tree, o, follow, left);
  }

  lemma OutcomeIsShown(c: Config, ts: seq<Task>, i: nat, w: World, log: seq<Event>, it: nat)
    requires i < |ts| && WorkRules(c, ts[i], HasSubAgent(c, ts[i], i, |ts|), w, log, it)
    ensures Shown(c, ts[i], HasSubAgent(c, ts[i], i, |ts|), w, log, it,
                  Returns(c, ts, i, w), Isolates(c, ts[i], w), OutcomeIn(c, ts, i, w))
  {
    OutcomeLogged(c, ts, i, w, log, it);
    OutcomeShows(c, ts, i, w);
    TreeIsolates(c, ts[i], w);
    hide WorkRules, HasSubAgent, OutcomeIn, Isolates, Returns;
  }

  lemma AllRules(c: Config, t: Task, subAgent: bool, w: World, log: seq<Event>, it: nat, i: nat,
        ran: bool, tree: bool, o: Outcome, follow: seq<Event>, left: bool)
    requires WorkRules(c, t, subAgent, w, log, it) && Shown(c, t, subAgent, w, log, it, ran, tree, o)
    requires FollowLogged(c, t, it, i, ran, tree, o, w, log, follow, left)
    requires left == (tree
      && (!ran || DuringExecution in w.cancels || (o.success && ShouldDelegate(c, t, o) && w.merge == MergeError)))
    ensures Rules(c, t, subAgent, w, log, it, i)
  {
    hide WorkRules, Shown, FollowLogged, ReviewRules, TaskRules, TreeRules;
    ReviewRulesHold(c, t, subAgent, w, log, it, i, ran, tree, o, follow, left);
    TaskRulesHold(c, t, subAgent, w, log, it, i, ran, tree, o, follow, left);
    TreeRulesHold(c, t, subAgent, w, log, it, i, ran, tree, o, follow, left);
  }

  // ---------------------------------------------------------------- queue and phase keep the rules

  lemma HandsOverMeans(ts: seq<Task>, us: seq<Task>, i: nat, isolation: seq<bool>)
    requires DelegatedTo(ts, us, i, isolation)
    ensures HandsOver(ts, us, i, isolation, ts[i].depth + 1)
  {
    WaitingHandsOver(ts, us, i, isolation, ts[i].depth + 1);
  }

  lemma FailsAtMeans(ts: seq<Task>, us: seq<Task>, i: nat)
    requires FailsAt(ts, us, i)
    ensures FailsInConflict(ts, us, i)
  {
    SpreadFailsWaiting(ts[i := InConflict(ts[i])], us);
    hide FailuresSpread, FailsWaiting;
  }

  lemma ConflictedMeans(c: Config, ts: seq<Task>, us: seq<Task>, i: nat, o: Outcome)
    requires i < |ts| && Conflicted(c, ts, us, i, o)
    ensures if ShouldDelegate(c, ts[i], o) then HandedInConflict(ts, us, i, o.subTasks, ts[i].depth + 1)
      else FailsInConflict(ts, us, i)
  {
    hide FailsAt, FailsInConflict, DelegatedTo, HandsOver;
    if ShouldDelegate(c, ts[i], o) {
      var mid :| DelegatedTo(ts, mid, i, o.subTasks) && FailsAt(mid, us, i);
      HandsOverMeans(ts, mid, i, o.subTasks);
      FailsAtMeans(mid, us, i);
    } else {
      FailsAtMeans(ts, us, i);
    }
  }

  lemma GivenBackMeans(c: Config, ts: seq<Task>, us: seq<Task>, i: nat, forceFail: bool)
    requires i < |ts| && GivenBack(c, ts, us, i, forceFail)
    ensures var retries := ts[i].retryCount + 1;
      if forceFail || retries >= c.maxRetries then Fails(ts[i := ts[i].(status := Failed, retryCount := retries)], us)
      else us == ts[i := ts[i].(status := Pending, owned := false, retryCount := retries)]
  {
    var retries := ts[i].retryCount + 1;
    if forceFail || retries >= c.maxRetries {
      SpreadFailsWaiting(ts[i := ts[i].(status := Failed, retryCount := retries)], us);
    }
    hide FailuresSpread, FailsWaiting;
  }

  lemma DelegatesIff(c: Config, ts: seq<Task>, i: nat, w: World, log: seq<Event>, it: nat)
    requires i < |ts| && Rules(c, ts[i], HasSubAgent(c, ts[i], i, |ts|), w, log, it, i)
    ensures TurnOf(c, ts, i, w) == Conflicts ==>
      (Delegated(it) in log <==> ShouldDelegate(c, ts[i], OutcomeIn(c, ts, i, w)))
  {
    OutcomeLogged(c, ts, i, w, log, it);
    OutcomeShows(c, ts, i, w);
    hide WorkRules, TaskRules, TreeRules, HasSubAgent, OutcomeIn, MustAsk, MayRunInPlace, Isolates, Approves;
  }

  lemma QueueKeepsRules(c: Config, ts: seq<Task>, us: seq<Task>, i: nat, w: World, log: seq<Event>, it: nat)
    requires i < |ts| && Rules(c, ts[i], HasSubAgent(c, ts[i], i, |ts|), w, log, it, i)
    requires Recorded(log, it, i, TurnOf(c, ts, i, w))
    requires QueueAfter(c, ts, us, i, OutcomeIn(c, ts, i, w), TurnOf(c, ts, i, w))
    ensures QueueRules(c, ts, us, w, log, it, i)
  {
    var e, o := TurnOf(c, ts, i, w), OutcomeIn(c, ts, i, w);
    DelegatesIff(c, ts, i, w, log, it);
    OutcomeShows(c, ts, i, w);
    assert ShouldDelegate(c, ts[i], o) || e == Delegates ==> o.subTasks != [] by { hide OutcomeIn; }
    hide TurnOf, OutcomeIn, Rules, HasSubAgent, ShouldDelegate;
    match e {
      case Completes => UnblockedCompletes(ts, i);
      case Rejects => GivenBackMeans(c, ts, us, i, !o.success && o.childCancelled);
      case Delegates => HandsOverMeans(ts, us, i, o.subTasks);
      case Conflicts => ConflictedMeans(c, ts, us, i, o);
      case _ =>
    }
    hide Conflicted, GivenBack, DelegatedTo, Unblocked, CompletesOne, HandsOver, Fails, FailsInConflict, HandedInConflict;
  }

  lemma PhaseKeepsRules(c: Config, ts: seq<Task>, i: nat, w: World, log: seq<Event>, it: nat)
    requires i < |ts| && Recorded(log, it, i, TurnOf(c, ts, i, w)) && Tells(c, log, ts, it, i, w)
    ensures PhaseRules(c, FinalPhase(c, ts, i, w), w, log, it)
  {
    KeptIffFinal(c, ts, i, w, log, it);
    hide CancelKept, ExecutorReturned, Isolates, IsSubAgent, OutcomeIn, MustAsk, MayRunInPlace;
  }

  // ---------------------------------------------------------------- whole sessions

  /** Iteration `k` kept the rules for its task, in a queue that has grown to `ts` since. */
  ghost predicate RulesAt(c: Config, ts: seq<Task>, w: World, log: seq<Event>, k: nat, i: nat) {
    && i < |ts|
    && ((HasSubAgent(c, ts[i], i, |ts|) && Rules(c, ts[i], true, w, log, k, i))
        || (!HasSubAgent(c, ts[i], i, i) && Rules(c, ts[i], false, w, log, k, i)))
  }

  /** The first `n` iterations have all kept the rules. */
  ghost predicate Ruled(c: Config, ts: seq<Task>, log: seq<Event>, worlds: seq<World>, n: nat)
    requires n <= |worlds|
  {
    forall k, i :: 0 <= k < n && Claim(k, i) in log ==> RulesAt(c, ts, worlds[k], log, k, i)
  }

  /** What the rules read of a task stays as it is. */
  ghost predicate SameShape(ts: seq<Task>, us: seq<Task>) {
    && |ts| <= |us|
    && forall i :: 0 <= i < |ts| ==>
      us[i].parent == ts[i].parent && us[i].depth == ts[i].depth && us[i].requiresIsolation == ts[i].requiresIsolation
  }

  lemma RulesStay(c: Config, t: Task, u: Task, subAgent: bool, w: World, before: seq<Event>, after: seq<Event>,
        k: nat, i: nat)
    requires Rules(c, t, subAgent, w, before, k, i)
    requires u.depth == t.depth && u.requiresIsolation == t.requiresIsolation
    requires forall e: Event :: !e.StashPopped? && e.it == k ==> (e in after <==> e in before)
    ensures Rules(c, u, subAgent, w, after, k, i)
  {
    assert WorkRules(c, u, subAgent, w, after, k);
    hide WorkRules;
    assert ReviewRules(c, u, subAgent, w, after, k);
    hide ReviewRules;
  }

  lemma RulesAtStay(c: Config, ts: seq<Task>, us: seq<Task>, w: World, before: seq<Event>, after: seq<Event>,
        k: nat, i: nat)
    requires RulesAt(c, ts, w, before, k, i) && SameShape(ts, us)
    requires forall e: Event :: !e.StashPopped? && e.it == k ==> (e in after <==> e in before)
    ensures RulesAt(c, us, w, after, k, i)
  {
    hide Rules;
    forall subAgent | Rules(c, ts[i], subAgent, w, before, k, i) ensures Rules(c, us[i], subAgent, w, after, k, i) {
      RulesStay(c, ts[i], us[i], subAgent, w, before, after, k, i);
    }
  }

  lemma RuledNext(c: Config, ts: seq<Task>, us: seq<Task>, before: seq<Event>, after: seq<Event>,
        worlds: seq<World>, n: nat, i: nat)
    requires n < |worlds| && Ruled(c, ts, before, worlds, n) && SameShape(ts, us) && Grown(before, after, n)
    requires forall j :: Claim(n, j) in after ==> j == i
    requires i < |ts| && Rules(c, ts[i], HasSubAgent(c, ts[i], i, |ts|), worlds[n], after, n, i)
    ensures Ruled(c, us, after, worlds, n + 1)
  {
    hide Rules;
    forall k, j | 0 <= k <= n && Claim(k, j) in after ensures RulesAt(c, us, worlds[k], after, k, j) {
      if k < n {
        hide RulesAt;
        RulesAtStay(c, ts, us, worlds[k], before, after, k, j);
      } else {
        RulesStay(c, ts[i], us[i], HasSubAgent(c, ts[i], i, |ts|), worlds[n], after, after, n, i);
      }
    }
  }

  lemma RuledAfterPop(c: Config, ts: seq<Task>, log: seq<Event>, worlds: seq<World>, n: nat)
    requires n <= |worlds| && Ruled(c, ts, log, worlds, n)
    ensures Ruled(c, ts, log + [StashPopped], worlds, n)
  {
    hide RulesAt;
    forall k, i | 0 <= k < n && Claim(k, i) in log + [StashPopped]
      ensures RulesAt(c, ts, worlds[k], log + [StashPopped], k, i)
    {
      RulesAtStay(c, ts, ts, worlds[k], log, log + [StashPopped], k, i);
    }
  }

  /** In no iteration that is no sub-agent's, and whose executor does not waive review, is a
      task completed without an approving critic, unless approval is automatic. */
  ghost predicate Gated(c: Config, ts: seq<Task>, log: seq<Event>, worlds: seq<World>, n: nat)
    requires n <= |worlds|
  {
    !c.autoApprove ==>
      forall k, i: nat, j: nat :: 0 <= k < n && Claim(k, i) in log && TaskCompleted(k, j) in log ==>
        || (i < |ts| && c.enableSubAgents && ts[i].parent.Some? && ts[i].parent.value != i && ts[i].parent.value < |ts|)
        || (worlds[k].execution.Result? && worlds[k].execution.needsReview == Some(false))
        || worlds[k].critic == Some(true)
  }

  /** Nobody has approved the work, or waived a review of it. */
  ghost predicate Unapproved(c: Config, w: World) {
    !c.autoApprove && w.critic != Some(true) && (w.execution.Result? ==> w.execution.needsReview != Some(false))
  }

  lemma UnapprovedIsNotCompleted(c: Config, t: Task, w: World, log: seq<Event>, it: nat, i: nat)
    requires Rules(c, t, false, w, log, it, i) && Unapproved(c, w)
    ensures forall j: nat :: TaskCompleted(it, j) !in log
  {
    hide WorkRules, ReviewRules, TreeRules;
  }

  /** So nothing gets past the critic. */
  lemma {:induction false} NothingUnreviewed(c: Config, ts: seq<Task>, log: seq<Event>, worlds: seq<World>, n: nat)
    requires n <= |worlds| && Ruled(c, ts, log, worlds, n)
    ensures Gated(c, ts, log, worlds, n)
  {
    hide WorkRules, ReviewRules, TreeRules;
    forall k, i: nat, j: nat | !c.autoApprove && 0 <= k < n && Claim(k, i) in log && TaskCompleted(k, j) in log
      ensures (i < |ts| && c.enableSubAgents && ts[i].parent.Some? && ts[i].parent.value != i && ts[i].parent.value < |ts|)
        || (worlds[k].execution.Result? && worlds[k].execution.needsReview == Some(false))
        || worlds[k].critic == Some(true)
    {
      assert RulesAt(c, ts, worlds[k], log, k, i);
    }
  }

  /** Whatever is under way or done had all it depends on completed before. */
  ghost predicate DependenciesFirst(ts: seq<Task>) {
    forall i :: 0 <= i < |ts| && (ts[i].status == InProgress || ts[i].status == Completed) ==> Unhindered(ts, i)
  }

  lemma DependenciesStay(ts: seq<Task>, us: seq<Task>)
    requires DependenciesFirst(ts) && |ts| <= |us|
    requires forall i :: 0 <= i < |ts| && ts[i].status == Completed ==> us[i].status == Completed
    requires forall i :: 0 <= i < |us| && (us[i].status == InProgress || us[i].status == Completed) ==>
      i < |ts| && us[i].dependsOn == ts[i].dependsOn && (ts[i].status == us[i].status || ts[i].status == InProgress)
    ensures DependenciesFirst(us)
  {
  }

  lemma ClaimKeepsOrder(ts: seq<Task>, us: seq<Task>, claimed: Option<nat>)
    requires DependenciesFirst(ts) && ClaimsFirst(ts, us, claimed)
    ensures DependenciesFirst(us)
  {
  }

  lemma FailsKeepsOrder(ts: seq<Task>, us: seq<Task>, i: nat, t: Task)
    requires DependenciesFirst(ts) && i < |ts| && ts[i].status != Completed && t.status == Failed && Fails(ts[i := t], us)
    ensures DependenciesFirst(us)
  {
    DependenciesStay(ts, us);
  }

  lemma HandingKeepsOrder(ts: seq<Task>, us: seq<Task>, i: nat, isolation: seq<bool>, depth: nat)
    requires DependenciesFirst(ts) && HandsOver(ts, us, i, isolation, depth) && ts[i].status == InProgress
    ensures DependenciesFirst(us) && us[i].status == Blocked
  {
    forall k | |ts| <= k < |us| ensures us[k].status != InProgress && us[k].status != Completed {
      assert IsFresh(us[|ts| + (k - |ts|)], [], isolation[k - |ts|], Some(i), depth);
    }
    DependenciesStay(ts, us);
  }

  lemma QueueKeepsOrder(c: Config, ts: seq<Task>, us: seq<Task>, w: World, log: seq<Event>, it: nat, i: nat)
    requires i < |ts| && QueueRules(c, ts, us, w, log, it, i) && ts[i].status == InProgress && DependenciesFirst(ts)
    ensures DependenciesFirst(us)
  {
    var retries := ts[i].retryCount + 1;
    var subTasks := if w.execution.Result? then w.execution.subTasks else [];
    hide Fails, HandsOver, FailsInConflict;
    if TaskCompleted(it, i) in log {
      DependenciesStay(ts, us);
    } else if TaskRejected(it, i) in log {
      if us == ts[i := ts[i].(status := Pending, owned := false, retryCount := retries)] {
        DependenciesStay(ts, us);
      } else {
        FailsKeepsOrder(ts, us, i, ts[i].(status := Failed, retryCount := retries));
      }
    } else if ConflictRecorded(it) in log {
      if Delegated(it) in log {
        var mid :| HandsOver(ts, mid, i, subTasks, ts[i].depth + 1) && FailsInConflict(mid, us, i);
        HandingKeepsOrder(ts, mid, i, subTasks, ts[i].depth + 1);
        ConflictKeepsOrder(mid, us, i);
      } else {
        ConflictKeepsOrder(ts, us, i);
      }
    } else if Delegated(it) in log {
      HandingKeepsOrder(ts, us, i, subTasks, ts[i].depth + 1);
    }
  }

  lemma ConflictKeepsOrder(ts: seq<Task>, us: seq<Task>, i: nat)
    requires DependenciesFirst(ts) && FailsInConflict(ts, us, i) && ts[i].status != Completed
    ensures DependenciesFirst(us)
  {
    FailsKeepsOrder(ts, us, i, ts[i].(status := Failed, owned := true, awaitsRecovery := true));
  }

  lemma HandingKeepsShape(ts: seq<Task>, us: seq<Task>, i: nat, isolation: seq<bool>, depth: nat)
    requires HandsOver(ts, us, i, isolation, depth)
    ensures SameShape(ts, us)
  {
  }

  lemma QueueKeepsShape(c: Config, ts: seq<Task>, us: seq<Task>, w: World, log: seq<Event>, it: nat, i: nat)
    requires i < |ts| && QueueRules(c, ts, us, w, log, it, i)
    ensures SameShape(ts, us)
  {
    hide HandsOver;
    var subTasks := if w.execution.Result? then w.execution.subTasks else [];
    if TaskCompleted(it, i) !in log && TaskRejected(it, i) !in log && Delegated(it) in log {
      if ConflictRecorded(it) in log {
        var mid :| HandsOver(ts, mid, i, subTasks, ts[i].depth + 1) && FailsInConflict(mid, us, i);
        HandingKeepsShape(ts, mid, i, subTasks, ts[i].depth + 1);
        assert SameShape(mid, us);
      } else {
        HandingKeepsShape(ts, us, i, subTasks, ts[i].depth + 1);
      }
    }
  }
}
