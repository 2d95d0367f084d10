/** The planner/executor/critic loop over a task queue, with isolated worktrees, in-place
    approval, stash and rollback. What agents, git and users answer is input. */
module AgentLoop {
  import opened Options
  import opened TaskQueue

  datatype Config = Config(
    optimizer: bool,
    git: bool,
    autoApprove: bool,
    allowInPlace: bool,
    canConfirm: bool,
    maxRetries: int,
    enableSubAgents: bool,
    maxDepth: nat)

  datatype Phase = Created | Planning | Executing | Reviewing | WaitingUser | SessionCompleted | SessionFailed | SessionCancelled

  /** Where somebody may cancel the session during an iteration. */
  datatype CancelPoint = DuringExecution | DuringReview | DuringResolution | DuringCleanup

  datatype Hooks = HooksFine | StartHookThrows | StopHookThrows

  datatype Execution =
    | Crashed
    | Result(success: bool, needsReview: Option<bool>, subTasks: seq<bool>, childCancelled: bool)

  datatype Merge = MergeOk | MergeConflict | MergeError

  /** Everything foreign that one iteration may ask for; `None` stands for a throw. */
  datatype World = World(
    cancels: set<CancelPoint>,
    createOk: bool,
    statusOk: bool,
    confirm: Option<bool>,
    stashed: bool,
    hooks: Hooks,
    execution: Execution,
    critic: Option<bool>,
    merge: Merge,
    commitOk: bool)

  datatype PlanTask = PlanTask(dependsOn: seq<nat>, requiresIsolation: bool, parent: Option<nat>, depth: nat)

  datatype PlanOutcome = PlannerThrew | PlanRejected | Plan(tasks: seq<PlanTask>)

  // ---------------------------------------------------------------- the session log

  /** `it` counts the iterations of the executing loop, `task` is a task id. */
  datatype Event =
    | Claim(it: nat, task: nat)
    | TreeCreated(it: nat)
    | InPlaceApproved(it: nat)
    | InPlaceBlocked(it: nat)
    | StashTried(it: nat, stashed: bool)
    | Started(it: nat, isolated: bool)
    | Returned(it: nat, success: bool, needsReview: bool)
    | Delegated(it: nat)
    | CriticSaid(it: nat, approved: bool)
    | Merged(it: nat)
    | ConflictRecorded(it: nat)
    | TreeRemovalTried(it: nat)
    | Committed(it: nat)
    | RolledBack(it: nat)
    | TaskCompleted(it: nat, task: nat)
    | TaskRejected(it: nat, task: nat)
    | StashPopped

  ghost predicate NoConflict(log: seq<Event>) {
    forall e :: e in log ==> !e.ConflictRecorded?
  }

  ghost predicate Stashed(log: seq<Event>) {
    exists e :: e in log && e.StashTried? && e.stashed
  }

  /** Somebody entitled to has accepted the work of an iteration. */
  ghost predicate Accepted(c: Config, log: seq<Event>, it: nat) {
    || (c.autoApprove && Returned(it, true, true) in log)
    || Returned(it, true, false) in log
    || (Returned(it, true, true) in log && CriticSaid(it, true) in log)
  }

  ghost predicate ExecutorFailed(log: seq<Event>, it: nat) {
    Returned(it, false, true) in log || Returned(it, false, false) in log
  }

  ghost predicate ExecutorReturned(log: seq<Event>, it: nat) {
    ExecutorFailed(log, it) || Returned(it, true, true) in log || Returned(it, true, false) in log
  }

  /** A cancellation of an iteration that outlasts it: one that comes before the executor has
      returned, or while a failed execution is undone, or while the worktree of delegated
      work that could not be merged is cleaned up. */
  ghost predicate CancelKept(c: Config, log: seq<Event>, it: nat, w: World) {
    || (DuringExecution in w.cancels && ExecutorReturned(log, it))
    || (DuringResolution in w.cancels && ExecutorFailed(log, it) && (c.optimizer || TreeCreated(it) in log))
    || (DuringCleanup in w.cancels && Delegated(it) in log
        && TreeCreated(it) in log && Merged(it) !in log && ConflictRecorded(it) !in log)
  }

  /** When an event may follow `log`. After a merge conflict nothing may but the stash. */
  ghost predicate Justified(c: Config, log: seq<Event>, e: Event) {
    && (NoConflict(log) || e.StashPopped?)
    && match e
       case Claim(it, i) => Before(log, it)
       case TreeCreated(it) => c.git && e !in log && Started(it, true) !in log && Started(it, false) !in log
       case InPlaceApproved(it) => c.allowInPlace || c.canConfirm
       case StashTried(it, stashed) => c.optimizer && c.git && InPlaceApproved(it) in log && !Stashed(log)
       case Started(it, isolated) =>
         && (isolated <==> TreeCreated(it) in log)
         && (c.optimizer && c.git && !isolated ==> InPlaceApproved(it) in log)
       case Returned(it, success, needsReview) => Started(it, true) in log || Started(it, false) in log
       case Delegated(it) => c.enableSubAgents && (Returned(it, true, true) in log || Returned(it, true, false) in log)
       case CriticSaid(it, approved) => !c.autoApprove && Returned(it, true, true) in log
       case Merged(it) =>
         && TreeCreated(it) in log && TreeRemovalTried(it) !in log
         && (Accepted(c, log, it) || Delegated(it) in log)
       case ConflictRecorded(it) =>
         && TreeCreated(it) in log && TreeRemovalTried(it) !in log
         && (Accepted(c, log, it) || Delegated(it) in log)
       case TreeRemovalTried(it) => TreeCreated(it) in log
       case Committed(it) => c.optimizer && c.git && InPlaceApproved(it) in log && Accepted(c, log, it)
       case RolledBack(it) =>
         && c.optimizer && TreeCreated(it) !in log && (c.git ==> InPlaceApproved(it) in log)
         && Committed(it) !in log
       case TaskCompleted(it, i) =>
         && Claim(it, i) in log
         && Accepted(c, log, it)
         && (TreeCreated(it) in log ==> Merged(it) in log)
         && RolledBack(it) !in log
       case TaskRejected(it, i) =>
         && Claim(it, i) in log && TaskCompleted(it, i) !in log
         && (Accepted(c, log, it) ==> TreeCreated(it) in log && Merged(it) !in log)
         && (TreeCreated(it) in log ==> TreeRemovalTried(it) in log)
       case StashPopped => Stashed(log) && e !in log
       case _ => true
  }

  ghost predicate GoodLog(c: Config, log: seq<Event>) {
    log == [] || (GoodLog(c, log[..|log| - 1]) && Justified(c, log[..|log| - 1], log[|log| - 1]))
  }

  /** What a good log says about any one of its events. */
  lemma {:induction false} GoodAt(c: Config, log: seq<Event>, k: nat)
    requires GoodLog(c, log) && k < |log|
    ensures Justified(c, log[..k], log[k])
  {
    var n := |log| - 1;
    if k < n {
      GoodAt(c, log[..n], k);
      assert log[..n][..k] == log[..k];
    }
  }

  ghost predicate TreesClosed(log: seq<Event>) {
    forall it :: TreeCreated(it) in log ==> TreeRemovalTried(it) in log || ConflictRecorded(it) in log
  }

  ghost predicate Before(log: seq<Event>, it: nat) {
    forall e :: e in log && !e.StashPopped? ==> e.it < it
  }

  function Rejections(log: seq<Event>, i: nat): nat {
    if log == [] then 0
    else Rejections(log[..|log| - 1], i) + if log[|log| - 1].TaskRejected? && log[|log| - 1].task == i then 1 else 0
  }

  // ---------------------------------------------------------------- the queue and the log

  function Cap(c: Config): nat {
    if c.maxRetries > 1 then c.maxRetries else 1
  }

  /** How often a task can still be taken up. */
  function Weight(c: Config, t: Task): nat {
    if !Open(t) then 0
    else if c.maxRetries - t.retryCount > 1 then c.maxRetries - t.retryCount
    else 1
  }

  /** The retry count of a task, and how often it can be taken up, when the loop starts:
      `start` holds the tasks the queue has at that time. */
  function StartRetries(start: seq<Task>, i: nat): nat {
    if i < |start| then start[i].retryCount else 0
  }

  function StartWeight(c: Config, start: seq<Task>, i: nat): nat {
    if i < |start| then Weight(c, start[i]) else Cap(c)
  }

  /** Every rejection counts as a retry and uses up one of the times a task can be taken up. */
  ghost predicate QueueMatches(c: Config, start: seq<Task>, ts: seq<Task>, log: seq<Event>) {
    && |start| <= |ts|
    && (forall i :: 0 <= i < |ts| ==> ts[i].retryCount == StartRetries(start, i) + Rejections(log, i))
    && (forall i :: 0 <= i < |ts| ==> Rejections(log, i) + Weight(c, ts[i]) <= StartWeight(c, start, i))
    && (forall i :: |ts| <= i ==> Rejections(log, i) == 0)
    && (forall i :: 0 <= i < |ts| && ts[i].status == Completed ==> Finished(start, log, i))
  }

  ghost predicate Finished(start: seq<Task>, log: seq<Event>, i: nat) {
    (i < |start| && start[i].status == Completed) || exists it :: TaskCompleted(it, i) in log
  }

  function Potential(c: Config, ts: seq<Task>): nat {
    if ts == [] then 0 else Potential(c, ts[..|ts| - 1]) + Weight(c, ts[|ts| - 1])
  }

  lemma {:induction false} PotentialUpdate(c: Config, ts: seq<Task>, i: nat, t: Task)
    requires i < |ts|
    ensures Potential(c, ts[i := t]) == Potential(c, ts) - Weight(c, ts[i]) + Weight(c, t)
  {
    var n := |ts| - 1;
    if i < n {
      PotentialUpdate(c, ts[..n], i, t);
      assert ts[i := t][..n] == ts[..n][i := t];
    } else {
      assert ts[i := t][..n] == ts[..n];
    }
  }

  lemma {:induction false} PotentialMonotone(c: Config, ts: seq<Task>, us: seq<Task>)
    requires |ts| == |us| && forall i :: 0 <= i < |ts| ==> Weight(c, us[i]) <= Weight(c, ts[i])
    ensures Potential(c, us) <= Potential(c, ts)
  {
    if ts != [] {
      PotentialMonotone(c, ts[..|ts| - 1], us[..|us| - 1]);
    }
  }

  lemma OneMore(n: nat, cap: nat)
    ensures n * cap + cap == (n + 1) * cap
  {
  }

  lemma {:induction false} PotentialNew(c: Config, start: seq<Task>, ts: seq<Task>)
    requires start <= ts && forall i :: |start| <= i < |ts| ==> ts[i].retryCount == 0
    ensures Potential(c, ts) <= Potential(c, start) + (|ts| - |start|) * Cap(c)
  {
    if |ts| > |start| {
      var n, cap := |ts| - 1, Cap(c);
      PotentialNew(c, start, ts[..n]);
      assert Weight(c, ts[n]) <= cap;
      hide Cap, Weight;
      OneMore(n - |start|, cap);
    } else {
      assert ts == start;
    }
  }

  lemma {:induction false} PotentialZero(c: Config, ts: seq<Task>)
    requires Potential(c, ts) == 0
    ensures forall i :: 0 <= i < |ts| ==> !Open(ts[i])
  {
    if ts != [] {
      PotentialZero(c, ts[..|ts| - 1]);
    }
  }
}
