/** The executing loop itself, on the session's variables. */
module AgentLoopRun {
  import opened Options
  import opened TaskQueue
  import opened AgentLoop
  import opened AgentLoopTurn
  import opened AgentLoopSafety
  import opened AgentLoopRules

  class Session {
    const config: Config
    const queue: Queue
    /** The tasks the queue holds when the loop starts. */
    ghost const start: seq<Task>
    var log: seq<Event>
    var phase: Phase
    var preStashed: bool

    constructor (config: Config, queue: Queue)
      ensures this.config == config && this.queue == queue && start == queue.tasks
      ensures Valid() && log == []
    {
      this.config, this.queue, start := config, queue, queue.tasks;
      log, phase, preStashed := [], Created, false;
    }

    ghost predicate Valid()
      reads this, queue
    {
      && GoodLog(config, log)
      && QueueMatches(config, start, queue.tasks, log)
      && (preStashed <==> Stashed(log))
      && (preStashed ==> config.optimizer)
      && StashPopped !in log
    }

    /** Record an event, which must be justified by what was recorded before. */
    method Record(e: Event)
      requires Valid() && Justified(config, log, e) && e != StashPopped && !e.StashTried?
      requires !e.TaskRejected?
      modifies this`log
      ensures log == old(log) + [e] && Valid()
    {
      log := log + [e];
      assert log[..|log| - 1] == old(log);
      Monotone(config, start, queue.tasks, old(log), e);
    }

    static lemma Monotone(c: Config, start: seq<Task>, ts: seq<Task>, log: seq<Event>, e: Event)
      requires QueueMatches(c, start, ts, log) && !e.TaskRejected?
      ensures QueueMatches(c, start, ts, log + [e])
      ensures Stashed(log + [e]) <==> Stashed(log) || (e.StashTried? && e.stashed)
    {
      assert (log + [e])[..|log|] == log;
      forall i | 0 <= i < |ts| && ts[i].status == Completed ensures Finished(start, log + [e], i) {
        if !(i < |start| && start[i].status == Completed) {
          var it :| TaskCompleted(it, i) in log;
          assert TaskCompleted(it, i) in log + [e];
        }
      }
      if Stashed(log) {
        var x :| x in log && x.StashTried? && x.stashed;
        assert x in log + [e];
      }
      if e.StashTried? && e.stashed {
        assert e in log + [e];
      }
    }

    /** `gitStash`, if nothing has been stashed yet. */
    method TryStash(it: nat, stashed: bool)
      requires Valid() && NoConflict(log) && config.optimizer && config.git && InPlaceApproved(it) in log
      modifies this`log, this`preStashed
      ensures Valid() && NoConflict(log) && Grown(old(log), log, it)
      ensures forall e :: e in log ==> e in old(log) || e.StashTried?
      ensures preStashed == (old(preStashed) || stashed)
      ensures !old(preStashed) ==> StashTried(it, stashed) in log
      ensures log == old(log) + if old(preStashed) then [] else [StashTried(it, stashed)]
    {
      if !preStashed {
        preStashed := stashed;
        var e := StashTried(it, stashed);
        log := log + [e];
        assert log[..|log| - 1] == old(log);
        Monotone(config, start, queue.tasks, old(log), e);
      }
    }

    /** `requireInPlaceOptimizerApproval`. */
    method RequireApproval(it: nat, w: World) returns (approved: bool)
      requires Valid() && NoConflict(log)
      modifies this`log
      ensures Valid() && NoConflict(log) && Grown(old(log), log, it)
      ensures forall e :: e in log ==> e in old(log) || e.InPlaceApproved? || e.InPlaceBlocked?
      ensures log == old(log) + ApprovalEvents(config, w, it)
      ensures approved ==> InPlaceApproved(it) in log
      ensures approved <==> MayRunInPlace(config, w)
    {
      approved := false;
      if w.statusOk {
        if config.allowInPlace || (config.canConfirm && w.confirm == Some(true)) {
          Record(InPlaceApproved(it));
          approved := true;
        } else if !config.canConfirm || w.confirm.Some? {
          Record(InPlaceBlocked(it));
        }
      }
    }

    /** A worktree if the task asks for one, and otherwise the approvals that takes. */
    method Prepare(it: nat, i: nat, w: World) returns (isolated: bool, threw: bool)
      requires Valid() && NoConflict(log) && i < |queue.tasks|
      requires forall e :: e in log && e.it == it ==> e.Claim?
      modifies this`log, this`preStashed
      ensures Valid() && NoConflict(log) && Grown(old(log), log, it)
      ensures OnlyPrepared(log, it)
      ensures isolated <==> TreeCreated(it) in log
      ensures isolated <==> Isolates(config, queue.tasks[i], w)
      ensures threw <==> MustAsk(config, queue.tasks[i], w) && !MayRunInPlace(config, w)
      ensures !threw && !isolated && config.optimizer && config.git ==> InPlaceApproved(it) in log
      ensures preStashed == (old(preStashed) ||
        (config.optimizer && config.git && !queue.tasks[i].requiresIsolation && !threw && w.stashed))
      ensures log == old(log) + PrepareEvents(config, queue.tasks[i], w, it, old(preStashed))
    {
      PrepareTells(config, log, queue.tasks[i], w, it, preStashed);
      hide Grown, OnlyPrepared, GoodLog, QueueMatches, Stashed, NoConflict;
      isolated, threw := false, false;
      var approved := false;
      if queue.tasks[i].requiresIsolation && config.git {
        if w.createOk {
          isolated := true;
          Record(TreeCreated(it));
        } else {
          approved := RequireApproval(it, w);
          threw := !approved;
          assert log == old(log) + ApprovalEvents(config, w, it) + [];
        }
      }
      if !threw && config.optimizer && config.git && !isolated && !approved {
        approved := WorkInPlace(it, w);
        threw := !approved;
      }
    }

    /** An optimizer's work in place is approved, and what was there before it is stashed. */
    method WorkInPlace(it: nat, w: World) returns (approved: bool)
      requires Valid() && NoConflict(log) && config.optimizer && config.git
      modifies this`log, this`preStashed
      ensures Valid() && NoConflict(log) && (approved <==> MayRunInPlace(config, w))
      ensures approved ==> InPlaceApproved(it) in log
      ensures preStashed == (old(preStashed) || (approved && w.stashed))
      ensures log == old(log) + (ApprovalEvents(config, w, it)
        + if approved && !old(preStashed) then [StashTried(it, w.stashed)] else [])
    {
      hide GoodLog, QueueMatches, Stashed, Grown, NoConflict;
      approved := RequireApproval(it, w);
      ghost var asked := log;
      if approved {
        TryStash(it, w.stashed);
      } else {
        assert log + [] == log;
      }
      Associative(old(log), ApprovalEvents(config, w, it), log[|asked|..]);
    }

    /** The executor's step, or the sub-session in its place. */
    method Execute(it: nat, i: nat, w: World, isolated: bool) returns (o: Outcome, threw: bool)
      requires Valid() && NoConflict(log) && i < |queue.tasks|
      requires isolated <==> TreeCreated(it) in log
      requires !isolated && config.optimizer && config.git ==> InPlaceApproved(it) in log
      modifies this`log, this`phase
      ensures Valid() && NoConflict(log)
      ensures log == old(log) +
        if !threw then [Started(it, isolated), Returned(it, o.success, o.needsReview)]
        else if w.hooks == StopHookThrows then [Started(it, isolated)] else []
      ensures isolated == Isolates(config, queue.tasks[i], w) ==>
        log == old(log) + ExecuteEvents(config, queue.tasks, i, w, it)
      ensures o == OutcomeIn(config, queue.tasks, i, w)
      ensures threw <==> IsSubAgent(config, queue.tasks, i) && w.hooks != HooksFine
      ensures phase == if DuringExecution in w.cancels then SessionCancelled else old(phase)
    {
      hide GoodLog, QueueMatches, Stashed, OutcomeOf, IsSubAgent, Isolates;
      var subAgent := IsSubAgent(config, queue.tasks, i);
      o := OutcomeOf(w.execution, subAgent);
      threw := subAgent && w.hooks != HooksFine;
      if !threw || w.hooks == StopHookThrows {
        Record(Started(it, isolated));
      }
      if !threw {
        Record(Returned(it, o.success, o.needsReview));
        assert log == old(log) + [Started(it, isolated), Returned(it, o.success, o.needsReview)];
      }
      if DuringExecution in w.cancels {
        phase := SessionCancelled;
      }
    }

    /** `handleWorktreeMergeConflict`. */
    method RecordConflict(it: nat, i: nat)
      requires Valid() && NoConflict(log) && i < |queue.tasks| && queue.tasks[i].status != Completed
      requires TreeCreated(it) in log && TreeRemovalTried(it) !in log
      requires Accepted(config, log, it) || Delegated(it) in log
      modifies this`log, this`phase, queue
      ensures Valid() && log == old(log) + [ConflictRecorded(it)] && phase == WaitingUser
      ensures FailsAt(old(queue.tasks), queue.tasks, i)
    {
      hide GoodLog, QueueMatches, Stashed, FailuresSpread;
      Record(ConflictRecorded(it));
      ghost var before := queue.tasks;
      queue.Update(i, InConflict(queue.tasks[i]));
      SpreadMatches(config, start, before, before[i := InConflict(before[i])], queue.tasks, log);
      phase := WaitingUser;
    }

    /** Merge accepted work and remove its worktree, unless that fails. */
    method MergeTree(it: nat, i: nat, w: World)
      requires Valid() && NoConflict(log) && i < |queue.tasks| && queue.tasks[i].status != Completed
      requires TreeCreated(it) in log && TreeRemovalTried(it) !in log
      requires Accepted(config, log, it) || Delegated(it) in log
      modifies this`log, this`phase, queue
      ensures Valid()
      ensures log == old(log) + MergeEvents(it, true, w)
      ensures w.merge != MergeConflict ==> queue.tasks == old(queue.tasks)
      ensures w.merge == MergeConflict ==>
        phase == WaitingUser && FailsAt(old(queue.tasks), queue.tasks, i)
    {
      hide QueueMatches, GoodLog, Stashed;
      if DuringResolution in w.cancels {
        phase := SessionCancelled;
      }
      match w.merge {
        case MergeOk =>
          Record(Merged(it));
          Record(TreeRemovalTried(it));
          assert log == old(log) + [Merged(it), TreeRemovalTried(it)];
        case MergeConflict =>
          RecordConflict(it, i);
        case MergeError =>
      }
    }

    /** The task's work is accepted. */
    method CompleteTask(it: nat, i: nat)
      requires Valid() && NoConflict(log) && i < |queue.tasks| && queue.tasks[i].status == InProgress
      requires Claim(it, i) in log && Accepted(config, log, it)
      requires (TreeCreated(it) in log ==> Merged(it) in log) && RolledBack(it) !in log
      modifies this`log, queue
      ensures Valid() && NoConflict(log) && log == old(log) + [TaskCompleted(it, i)]
      ensures queue.tasks == Unblocked(old(queue.tasks)[i := old(queue.tasks)[i].(status := Completed)])
      ensures Potential(config, queue.tasks) < old(Potential(config, queue.tasks))
    {
      ghost var before := queue.tasks;
      Record(TaskCompleted(it, i));
      queue.Complete(i);
      CompletionMatches(config, start, before, log, it, i);
    }

    /** The task goes back to the queue, or fails for good. */
    method RejectTask(it: nat, i: nat, forceFail: bool)
      requires Valid() && NoConflict(log) && i < |queue.tasks| && queue.tasks[i].status == InProgress
      requires Claim(it, i) in log && TaskCompleted(it, i) !in log
      requires Accepted(config, log, it) ==> TreeCreated(it) in log && Merged(it) !in log
      requires TreeCreated(it) in log ==> TreeRemovalTried(it) in log
      modifies this`log, queue
      ensures Valid() && NoConflict(log) && log == old(log) + [TaskRejected(it, i)]
      ensures GivenBack(config, old(queue.tasks), queue.tasks, i, forceFail)
      ensures Potential(config, queue.tasks) < old(Potential(config, queue.tasks))
    {
      hide FailuresSpread, QueueMatches, Potential;
      ghost var before := queue.tasks;
      var t := queue.tasks[i];
      var next := t.retryCount + 1;
      if forceFail || next >= config.maxRetries {
        t := t.(status := Failed, retryCount := next);
      } else {
        t := t.(status := Pending, owned := false, retryCount := next);
      }
      queue.Update(i, t);
      var e := TaskRejected(it, i);
      log := log + [e];
      assert log[..|log| - 1] == old(log);
      RejectionMatches(config, start, before, queue.tasks, old(log), it, i, forceFail);
    }

    /** Undo the work of an iteration: drop its worktree, or roll the optimizer's changes back. */
    method Undo(it: nat, w: World, isolated: bool, needsGit: bool)
      requires Valid() && NoConflict(log)
      requires isolated <==> TreeCreated(it) in log
      requires !isolated && config.optimizer && config.git ==> InPlaceApproved(it) in log
      requires Committed(it) !in log
      modifies this`log, this`phase
      ensures Valid()
      ensures log == old(log) + UndoEvents(config, it, isolated, needsGit)
      ensures phase == if DuringResolution in w.cancels && (isolated || RollsBack(needsGit))
        then SessionCancelled else old(phase)
    {
      if DuringResolution in w.cancels && (isolated || RollsBack(needsGit)) {
        phase := SessionCancelled;
      }
      if isolated {
        Record(TreeRemovalTried(it));
      } else if RollsBack(needsGit) {
        Record(RolledBack(it));
      }
    }

    /** After a refusal the git workspace is asked for, after a failure it is not. */
    predicate RollsBack(needsGit: bool) {
      config.optimizer && (config.git || !needsGit)
    }

    /** After an executor's failure, or a refused success: undo and hand the task back. */
    method HandBack(it: nat, i: nat, w: World, isolated: bool, needsGit: bool, forceFail: bool)
      requires Valid() && Recorded(log, it, i, Throws) && i < |queue.tasks| && queue.tasks[i].status == InProgress
      requires Claim(it, i) in log
      requires Accepted(config, log, it) ==> TreeCreated(it) in log
      requires isolated <==> TreeCreated(it) in log
      requires !isolated && config.optimizer && config.git ==> InPlaceApproved(it) in log
      modifies this`log, this`phase, queue
      ensures log == old(log) + RefusalEvents(config, it, i, isolated, needsGit)
      ensures Valid() && Continues(old(log), log, it, w) && Recorded(log, it, i, Rejects) && Tidied(config, log, it, w, Rejects)
      ensures !isolated && RollsBack(needsGit) ==> RolledBack(it) in log
      ensures isolated ==> TreeRemovalTried(it) in log
      ensures GivenBack(config, old(queue.tasks), queue.tasks, i, forceFail)
      ensures Potential(config, queue.tasks) < old(Potential(config, queue.tasks))
      ensures phase == if DuringResolution in w.cancels && (isolated || RollsBack(needsGit))
        then SessionCancelled else old(phase)
    {
      RefusalRecorded(config, log, it, i, isolated, needsGit, w);
      UndoneRecorded(config, log, it, i, isolated, needsGit);
      Associative(log, UndoEvents(config, it, isolated, needsGit), [TaskRejected(it, i)]);
      hide GoodLog, QueueMatches, Stashed, Potential, GivenBack, Continues, Tidied, Recorded, Accepted, NoConflict, UndoEvents;
      Undo(it, w, isolated, needsGit);
      RejectTask(it, i, forceFail);
    }

    method Split(it: nat, i: nat, o: Outcome)
      requires Valid() && NoConflict(log) && i < |queue.tasks| && queue.tasks[i].status == InProgress
      requires config.enableSubAgents && Returned(it, true, o.needsReview) in log
      modifies this`log, queue
      ensures Valid() && NoConflict(log) && log == old(log) + [Delegated(it)] && Delegated(it) in log
      ensures TreeCreated(it) in log <==> TreeCreated(it) in old(log)
      ensures TreeRemovalTried(it) in log <==> TreeRemovalTried(it) in old(log)
      ensures DelegatedTo(old(queue.tasks), queue.tasks, i, o.subTasks) && queue.tasks[i].status == Blocked
    {
      hide GoodLog, QueueMatches, Stashed;
      Record(Delegated(it));
      ghost var before := queue.tasks;
      queue.CreateSubTasks(i, o.subTasks, queue.tasks[i].depth + 1);
      assert DelegatedTo(before, queue.tasks, i, o.subTasks);
      hide DelegatedTo;
      DelegationMatches(config, start, before, queue.tasks, log, i, o.subTasks);
    }

    /** The task hands its work to new tasks and waits for them. */
    method Delegate(it: nat, i: nat, w: World, o: Outcome, isolated: bool) returns (e: Ending, left: bool)
      requires Valid() && Recorded(log, it, i, Throws) && i < |queue.tasks| && queue.tasks[i].status == InProgress
      requires config.enableSubAgents && Returned(it, true, o.needsReview) in log
      requires isolated <==> TreeCreated(it) in log
      requires TreeRemovalTried(it) !in log
      modifies this`log, this`phase, queue
      ensures log == old(log) + ([Delegated(it)] + MergeEvents(it, isolated, w))
      ensures Valid() && Continues(old(log), log, it, w) && Recorded(log, it, i, e)
      ensures e == if isolated && w.merge == MergeConflict then Conflicts else Delegates
      ensures e == Delegates ==> phase == Executing && DelegatedTo(old(queue.tasks), queue.tasks, i, o.subTasks)
      ensures e == Conflicts ==> phase == WaitingUser && DelegatedInConflict(old(queue.tasks), queue.tasks, i, o.subTasks)
      ensures isolated && e == Delegates ==> (Merged(it) in log <==> w.merge == MergeOk)
      ensures left <==> isolated && w.merge == MergeError
      ensures isolated && !left ==> TreeRemovalTried(it) in log || ConflictRecorded(it) in log
    {
      assert NoConflict(log);
      HandOver(it, i, w, o, isolated);
      e := if isolated && w.merge == MergeConflict then Conflicts else Delegates;
      left := isolated && w.merge == MergeError;
    }

    method HandOver(it: nat, i: nat, w: World, o: Outcome, isolated: bool)
      requires Valid() && Recorded(log, it, i, Throws) && i < |queue.tasks| && queue.tasks[i].status == InProgress
      requires config.enableSubAgents && Returned(it, true, o.needsReview) in log
      requires NoConflict(log) && (isolated <==> TreeCreated(it) in log) && TreeRemovalTried(it) !in log
      modifies this`log, this`phase, queue
      ensures log == old(log) + ([Delegated(it)] + MergeEvents(it, isolated, w))
      ensures Valid() && DelegationShown(old(log), log, it, i, isolated, w)
      ensures if isolated && w.merge == MergeConflict
        then phase == WaitingUser && DelegatedInConflict(old(queue.tasks), queue.tasks, i, o.subTasks)
        else phase == Executing && DelegatedTo(old(queue.tasks), queue.tasks, i, o.subTasks)
    {
      DelegationRecorded(log, it, i, isolated, w);
      Associative(log, [Delegated(it)], MergeEvents(it, isolated, w));
      assert !isolated ==> MergeEvents(it, isolated, w) == [] && log + [Delegated(it)] + [] == log + [Delegated(it)];
      hide *;
      Split(it, i, o);
      if isolated {
        ghost var mid := queue.tasks;
        MergeHandedOver(it, i, w);
        if w.merge == MergeConflict {
          InConflictAfter(old(queue.tasks), mid, queue.tasks, i, o.subTasks);
        }
      } else {
        phase := Executing;
      }
    }

    method MergeHandedOver(it: nat, i: nat, w: World)
      requires Valid() && NoConflict(log) && i < |queue.tasks| && queue.tasks[i].status != Completed
      requires TreeCreated(it) in log && TreeRemovalTried(it) !in log && Delegated(it) in log
      modifies this`log, this`phase, queue
      ensures Valid() && log == old(log) + MergeEvents(it, true, w)
      ensures if w.merge == MergeConflict then phase == WaitingUser && FailsAt(old(queue.tasks), queue.tasks, i)
        else phase == Executing && queue.tasks == old(queue.tasks)
    {
      hide GoodLog, QueueMatches, Stashed, NoConflict, Accepted, Justified, MergeEvents, FailsAt;
      MergeTree(it, i, w);
      if w.merge != MergeConflict {
        phase := Executing;
      }
    }

    /** Ask the critic, where that is wanted. */
    method Review(it: nat, w: World, o: Outcome) returns (approved: bool)
      requires Valid() && NoConflict(log) && o.success && Returned(it, true, o.needsReview) in log
      requires OnlyReturned(log, it, o) && CriticSaid(it, true) !in log
      modifies this`log, this`phase
      ensures Valid()
      ensures approved <==> Approves(config, o, w)
      ensures approved <==> Accepted(config, log, it)
      ensures log == old(log) + ReviewEvents(config, it, o, w)
      ensures Continues(old(log), log, it, w)
    {
      hide GoodLog, QueueMatches, Stashed;
      approved := true;
      if o.needsReview && !config.autoApprove {
        phase := if DuringReview in w.cancels then SessionCancelled else Reviewing;
        approved := w.critic == Some(true);
        Record(CriticSaid(it, approved));
      }
    }

    /** Accepted work is merged or committed, and its task completed. A failed merge refuses it. */
    method Accept(it: nat, i: nat, w: World, isolated: bool)
      requires Valid() && Recorded(log, it, i, Throws) && i < |queue.tasks| && queue.tasks[i].status == InProgress
      requires Claim(it, i) in log && Accepted(config, log, it)
      requires isolated <==> TreeCreated(it) in log
      requires TreeRemovalTried(it) !in log
      requires !isolated && config.optimizer && config.git ==> InPlaceApproved(it) in log
      modifies this`log, this`phase, queue
      ensures log == old(log) + AcceptEvents(config, it, i, isolated, w)
      ensures Valid() && Continues(old(log), log, it, w)
      ensures !isolated || w.merge == MergeOk ==>
        && Recorded(log, it, i, Completes) && Tidied(config, log, it, w, Completes) && phase == Executing
        && queue.tasks == Unblocked(old(queue.tasks)[i := old(queue.tasks)[i].(status := Completed)])
        && Potential(config, queue.tasks) < old(Potential(config, queue.tasks))
        && (isolated ==> TreeRemovalTried(it) in log)
      ensures isolated && w.merge == MergeConflict ==>
        Recorded(log, it, i, Conflicts) && phase == WaitingUser && FailsAt(old(queue.tasks), queue.tasks, i)
      ensures isolated && w.merge == MergeError ==> log == old(log) && queue.tasks == old(queue.tasks)
    {
      if !isolated || w.merge == MergeOk {
        CompletionRecorded(config, log, it, i, isolated, w);
      }
      ConflictRecordedAlone(log, it, i, w);
      assert NoConflict(log) && RolledBack(it) !in log;
      MergeRecorded(config, log, it);
      AcceptedParts(config, log, it, i, isolated, w);
      hide GoodLog, QueueMatches, Stashed, FailsAt, Potential, Unblocked, Recorded, Tidied, Continues,
           Justified, Accepted, NoConflict, AcceptEvents, FinishEvents;
      if isolated {
        MergeTree(it, i, w);
      }
      if !isolated || w.merge == MergeOk {
        Finish(it, i, w, isolated);
      }
    }

    method Finish(it: nat, i: nat, w: World, isolated: bool)
      requires Valid() && NoConflict(log) && i < |queue.tasks| && queue.tasks[i].status == InProgress
      requires Claim(it, i) in log && Accepted(config, log, it) && RolledBack(it) !in log
      requires if isolated then Merged(it) in log else TreeCreated(it) !in log
      requires !isolated && config.optimizer && config.git ==> InPlaceApproved(it) in log
      modifies this`log, this`phase, queue
      ensures Valid() && phase == Executing
      ensures log == old(log) + FinishEvents(config, it, i, isolated, w)
      ensures queue.tasks == Unblocked(old(queue.tasks)[i := old(queue.tasks)[i].(status := Completed)])
      ensures Potential(config, queue.tasks) < old(Potential(config, queue.tasks))
    {
      hide GoodLog, QueueMatches, Stashed, Potential, Unblocked, Accepted, NoConflict, Justified;
      Commit(it, w, isolated);
      CompleteTask(it, i);
      phase := Executing;
    }

    /** Changes in place are committed; if that throws, it is only noted. */
    method Commit(it: nat, w: World, isolated: bool)
      requires Valid() && NoConflict(log) && Accepted(config, log, it)
      requires !isolated && config.optimizer && config.git ==> InPlaceApproved(it) in log
      modifies this`log
      ensures Valid() && NoConflict(log) && Accepted(config, log, it)
      ensures log == old(log) + if config.optimizer && config.git && !isolated && w.commitOk then [Committed(it)] else []
    {
      if config.optimizer && config.git && !isolated && w.commitOk {
        Record(Committed(it));
      }
    }

    /** Work that needs no more asking: accepted or undone. */
    method Conclude(it: nat, i: nat, w: World, o: Outcome, isolated: bool, approved: bool) returns (e: Ending)
      requires Valid() && Recorded(log, it, i, Throws) && i < |queue.tasks| && queue.tasks[i].status == InProgress
      requires Claim(it, i) in log && o.success && !ShouldDelegate(config, queue.tasks[i], o)
      requires approved == Approves(config, o, w) == Accepted(config, log, it)
      requires isolated <==> TreeCreated(it) in log
      requires TreeRemovalTried(it) !in log
      requires !isolated && config.optimizer && config.git ==> InPlaceApproved(it) in log
      modifies this`log, this`phase, queue
      ensures log == old(log) + ConcludeEvents(config, it, i, isolated, approved, w)
      ensures Valid() && Continues(old(log), log, it, w)
      ensures e == EndingOf(config, old(queue.tasks[i]), o, isolated, w)
      ensures QueueAfter(config, old(queue.tasks), queue.tasks, i, o, e)
      ensures Tidied(config, log, it, w, e) && Recorded(log, it, i, e)
      ensures e == Completes || e == Rejects ==>
        phase == Executing && Potential(config, queue.tasks) < old(Potential(config, queue.tasks))
      ensures e == Conflicts ==> phase == WaitingUser
      ensures isolated ==> TreeRemovalTried(it) in log || ConflictRecorded(it) in log
    {
      hide GoodLog, QueueMatches, Stashed, FailuresSpread, Potential, Unblocked, DelegatedTo,
           GivenBack, Accepted, FailsAt, Approves, ShouldDelegate, AcceptEvents, RefusalEvents;
      if approved && isolated && w.merge == MergeError {
        assert log + AcceptEvents(config, it, i, isolated, w) == log by { AcceptedParts(config, log, it, i, isolated, w); }
      }
      if approved {
        Accept(it, i, w, isolated);
        if !(isolated && w.merge == MergeError) {
          e := if isolated && w.merge == MergeConflict then Conflicts else Completes;
          return;
        }
      }
      HandBack(it, i, w, isolated, true, false);
      phase := Executing;
      e := Rejects;
    }

    /** What follows a successful execution. */
    method Resolve(it: nat, i: nat, w: World, o: Outcome, isolated: bool) returns (e: Ending, left: bool)
      requires Valid() && Recorded(log, it, i, Throws) && i < |queue.tasks| && queue.tasks[i].status == InProgress
      requires Claim(it, i) in log && Returned(it, true, o.needsReview) in log && o.success
      requires OnlyReturned(log, it, o) && CriticSaid(it, true) !in log
      requires isolated <==> TreeCreated(it) in log
      requires TreeRemovalTried(it) !in log
      requires !isolated && config.optimizer && config.git ==> InPlaceApproved(it) in log
      modifies this`log, this`phase, queue
      ensures log == old(log) + ResolveEvents(config, old(queue.tasks[i]), it, i, isolated, o, w)
      ensures Valid() && Continues(old(log), log, it, w)
      ensures e == EndingOf(config, old(queue.tasks[i]), o, isolated, w)
      ensures QueueAfter(config, old(queue.tasks), queue.tasks, i, o, e)
      ensures Tidied(config, log, it, w, e) && Recorded(log, it, i, e)
      ensures e == Completes || e == Rejects ==> Potential(config, queue.tasks) < old(Potential(config, queue.tasks))
      ensures phase == if e == Conflicts then WaitingUser else Executing
      ensures isolated && e == Delegates ==> (Merged(it) in log <==> w.merge == MergeOk)
      ensures left <==> isolated && e == Delegates && w.merge == MergeError
      ensures isolated && !left ==> TreeRemovalTried(it) in log || ConflictRecorded(it) in log
    {
      hide GoodLog, QueueMatches, Stashed, FailuresSpread, Potential, Unblocked,
           DelegatedTo, GivenBack, Accepted, DelegatedInConflict, FailsAt, Approves, ReviewEvents, ConcludeEvents, MergeEvents;
      if ShouldDelegate(config, queue.tasks[i], o) {
        e, left := Delegate(it, i, w, o, isolated);
        return;
      }
      ReviewRecorded(config, log, it, i, o, w);
      var approved := Review(it, w, o);
      ghost var reviewed := log;
      Associative(old(log), ReviewEvents(config, it, o, w), ConcludeEvents(config, it, i, isolated, approved, w));
      hide Continues, Recorded;
      e := Conclude(it, i, w, o, isolated, approved);
      ContinuesOn(old(log), reviewed, log, it, w);
      left := false;
    }

    /** What follows the execution. */
    method Follow(it: nat, i: nat, w: World, o: Outcome, isolated: bool) returns (e: Ending, left: bool)
      requires Valid() && Recorded(log, it, i, Throws) && i < |queue.tasks| && queue.tasks[i].status == InProgress
      requires Claim(it, i) in log && Returned(it, o.success, o.needsReview) in log
      requires OnlyReturned(log, it, o) && CriticSaid(it, true) !in log
      requires isolated <==> TreeCreated(it) in log
      requires TreeRemovalTried(it) !in log
      requires !isolated && config.optimizer && config.git ==> InPlaceApproved(it) in log
      requires phase == if DuringExecution in w.cancels then SessionCancelled else Executing
      modifies this`log, this`phase, queue
      ensures log == old(log) + FollowEvents(config, old(queue.tasks[i]), it, i, isolated, o, w)
      ensures Valid() && Continues(old(log), log, it, w) && Tidied(config, log, it, w, e) && Recorded(log, it, i, e)
      ensures e == if DuringExecution in w.cancels then Cancels else EndingOf(config, old(queue.tasks[i]), o, isolated, w)
      ensures QueueAfter(config, old(queue.tasks), queue.tasks, i, o, e)
      ensures e == Completes || e == Rejects ==> Potential(config, queue.tasks) < old(Potential(config, queue.tasks))
      ensures phase ==
        if e == Cancels then SessionCancelled
        else if e == Conflicts then WaitingUser
        else if e == Rejects && !o.success && DuringResolution in w.cancels && (isolated || config.optimizer) then SessionCancelled
        else Executing
      ensures isolated && e == Delegates ==> (Merged(it) in log <==> w.merge == MergeOk)
      ensures left <==> isolated && (e == Cancels || (e == Delegates && w.merge == MergeError))
      ensures isolated && !left ==> TreeRemovalTried(it) in log || ConflictRecorded(it) in log
    {
      assert Recorded(log, it, i, Cancels) && Tidied(config, log, it, w, Cancels);
      hide GoodLog, QueueMatches, Stashed, FailuresSpread, Potential, Unblocked, DelegatedTo, GivenBack, Recorded, Tidied,
           ResolveEvents, RefusalEvents, Conflicted;
      assert log == log + [];
      left := isolated;
      if phase == SessionCancelled {
        e := Cancels;
      } else if o.success {
        e, left := Resolve(it, i, w, o, isolated);
      } else {
        HandBack(it, i, w, isolated, false, o.childCancelled);
        e, left := Rejects, false;
      }
    }

    /** An iteration until its executor has returned. */
    method Attempt(it: nat, i: nat, w: World) returns (isolated: bool, o: Outcome, threw: bool)
      requires Valid() && NoConflict(log) && i < |queue.tasks| && Claim(it, i) in log
      requires forall e :: e in log && e.it == it ==> e.Claim?
      modifies this`log, this`phase, this`preStashed
      ensures log == old(log) + AttemptEvents(config, queue.tasks, i, w, it, old(preStashed))
      ensures Valid() && Recorded(log, it, i, Throws) && Grown(old(log), log, it) && Claim(it, i) in log
      ensures threw == ((MustAsk(config, queue.tasks[i], w) && !MayRunInPlace(config, w))
                        || (IsSubAgent(config, queue.tasks, i) && w.hooks != HooksFine))
      ensures isolated == Isolates(config, queue.tasks[i], w) == (TreeCreated(it) in log)
      ensures !threw ==> o == OutcomeIn(config, queue.tasks, i, w) && Returned(it, o.success, o.needsReview) in log
      ensures OnlyReturned(log, it, OutcomeIn(config, queue.tasks, i, w)) && (ExecutorReturned(log, it) <==> !threw)
      ensures CriticSaid(it, true) !in log && TreeRemovalTried(it) !in log
      ensures !threw && !isolated && config.optimizer && config.git ==> InPlaceApproved(it) in log
      ensures !threw ==> phase == if DuringExecution in w.cancels then SessionCancelled else old(phase)
    {
      hide GoodLog, QueueMatches, Stashed, OutcomeIn, IsSubAgent, MustAsk, MayRunInPlace, Isolates, PrepareEvents;
      isolated, threw := Prepare(it, i, w);
      assert Claim(it, i) in log;
      hide Recorded, OnlyReturned, OnlyPrepared, ExecutorReturned, Grown;
      ghost var prepared, tail := log, [];
      if threw {
        o := OutcomeOf(Crashed, false);
        assert log == prepared + tail;
      } else {
        o, threw := Execute(it, i, w, isolated);
        tail := log[|prepared|..];
      }
      AttemptTells(prepared, tail, it, i, isolated, OutcomeIn(config, queue.tasks, i, w));
      GrownOn(old(log), prepared, log, it);
    }

    /** An iteration up to its `finally`. */
    method Turn(it: nat, i: nat, w: World) returns (e: Ending, left: bool)
      requires Valid() && NoConflict(log)
      requires i < |queue.tasks| && queue.tasks[i].status == InProgress
      requires phase == Executing && Claim(it, i) in log
      requires forall e :: e in log && e.it == it ==> e.Claim?
      modifies this`log, this`phase, this`preStashed, queue
      ensures log == old(log) + TurnEvents(config, old(queue.tasks), i, w, it, old(preStashed))
      ensures Valid() && Grown(old(log), log, it) && Tidied(config, log, it, w, e) && Recorded(log, it, i, e)
      ensures e == TurnOf(config, old(queue.tasks), i, w) && left == LeftOver(config, old(queue.tasks), i, w)
      ensures QueueAfter(config, old(queue.tasks), queue.tasks, i, OutcomeIn(config, old(queue.tasks), i, w), e)
      ensures e == Completes || e == Rejects ==> Potential(config, queue.tasks) < old(Potential(config, queue.tasks))
      ensures e != Throws ==> phase == PhaseOf(config, old(queue.tasks), i, w)
      ensures Tells(config, log, old(queue.tasks), it, i, w)
      ensures left ==> TreeCreated(it) in log && e != Conflicts
      ensures !left ==> TreeClosed(log, it)
    {
      hide GoodLog, QueueMatches, Stashed, FailuresSpread, Potential, Unblocked, DelegatedTo, GivenBack, Accepted,
           OutcomeOf, IsSubAgent, MustAsk, MayRunInPlace, Isolates, Recorded, OnlyReturned, ExecutorReturned, Grown, Continues,
           AttemptEvents, FollowEvents, Conflicted;
      var isolated, o, threw := Attempt(it, i, w);
      left := isolated;
      if threw {
        assert log == log + [];
        e := Throws;
      } else {
        ghost var before := log;
        Associative(old(log), AttemptEvents(config, queue.tasks, i, w, it, old(preStashed)),
                    FollowEvents(config, queue.tasks[i], it, i, isolated, o, w));
        e, left := Follow(it, i, w, o, isolated);
        StillTells(before, log, it, o, w);
        GrownOn(old(log), before, log, it);
      }
    }

    /** One iteration of the executing loop, for a task just claimed, up to the handler of
        what it throws. */
    method Iterate(it: nat, i: nat, w: World) returns (e: Ending)
      requires Valid() && NoConflict(log) && ClosedExcept(log, it) && Before(log, it + 1)
      requires i < |queue.tasks| && queue.tasks[i].status == InProgress
      requires phase == Executing && Claim(it, i) in log
      requires forall e :: e in log && e.it == it ==> e.Claim?
      modifies this`log, this`phase, this`preStashed, queue
      ensures log == old(log) + IterationEvents(config, old(queue.tasks), i, w, it, old(preStashed))
      ensures Valid() && TreesClosed(log) && Before(log, it + 1) && Grown(old(log), log, it)
      ensures Tidied(config, log, it, w, e) && Recorded(log, it, i, e)
      ensures e == TurnOf(config, old(queue.tasks), i, w)
      ensures QueueAfter(config, old(queue.tasks), queue.tasks, i, OutcomeIn(config, old(queue.tasks), i, w), e)
      ensures e == Completes || e == Rejects ==> Potential(config, queue.tasks) < old(Potential(config, queue.tasks))
      ensures phase == FinalPhase(config, old(queue.tasks), i, w)
      ensures phase == SessionCancelled <==> CancelKept(config, log, it, w)
      ensures AcceptedEnds(config, log, it, w)
      ensures var t, n := old(queue.tasks)[i], old(|queue.tasks|); Rules(config, t, HasSubAgent(config, t, i, n), w, log, it, i)
      ensures QueueRules(config, old(queue.tasks), queue.tasks, w, log, it, i) && PhaseRules(config, phase, w, log, it)
      ensures !HasSubAgent(config, old(queue.tasks)[i], i, old(|queue.tasks|)) && Unapproved(config, w) ==>
        forall j: nat :: TaskCompleted(it, j) !in log
    {
      hide GoodLog, QueueMatches, Stashed, FailuresSpread, Potential, Unblocked, DelegatedTo, GivenBack, TreesClosed, Before,
           ClosedExcept, QueueAfter, TurnOf, Recorded, Tidied, CancelKept, OutcomeIn, Tells, Grown, TreeClosed, LeftOver,
           PhaseOf, Justified, NoConflict, Rules, QueueRules, PhaseRules, TurnEvents;
      var left;
      ghost var stashed := preStashed;
      e, left := Turn(it, i, w);
      ghost var before := log;
      assert log == log + [];
      if left {
        RemovalTells(config, log, old(queue.tasks), it, i, w);
        RemovalRecorded(config, log, it, i, w, e);
        Cleanup(it, i, w, e);
        GrownOn(old(log), before, log, it);
      }
      if e == Throws {
        phase := SessionFailed;
      }
      AddedHolds(old(log), IterationEvents(config, old(queue.tasks), i, w, it, stashed), it);
      IterationRules(config, old(queue.tasks), i, w, it, stashed, log);
      QueueKeepsRules(config, old(queue.tasks), queue.tasks, i, w, log, it);
      PhaseKeepsRules(config, old(queue.tasks), i, w, log, it);
      if !HasSubAgent(config, old(queue.tasks)[i], i, old(|queue.tasks|)) && Unapproved(config, w) {
        UnapprovedIsNotCompleted(config, old(queue.tasks)[i], w, log, it, i);
      }
      KeptIffFinal(config, old(queue.tasks), i, w, log, it);
      GrownKeeps(old(log), log, it, Claim(it, i));
      AcceptedWorkEnds(config, old(queue.tasks), i, w, log, it);
      Closes(old(log), log, it);
    }

    /** The iteration's `finally`. */
    method Cleanup(it: nat, ghost i: nat, w: World, ghost e: Ending)
      requires Valid() && TreeCreated(it) in log && e != Conflicts && Recorded(log, it, i, e)
      modifies this`log, this`phase
      ensures Valid() && log == old(log) + [TreeRemovalTried(it)]
      ensures phase == if DuringCleanup in w.cancels then SessionCancelled else old(phase)
    {
      hide GoodLog, QueueMatches, Stashed;
      Record(TreeRemovalTried(it));
      if DuringCleanup in w.cancels {
        phase := SessionCancelled;
      }
    }

    /** Claim the first task that can be claimed. */
    method ClaimNext(n: nat) returns (claimed: Option<nat>)
      requires Valid() && NoConflict(log) && Before(log, n) && TreesClosed(log)
      modifies this`log, queue
      ensures Valid() && NoConflict(log)
      ensures claimed.None? ==>
        && log == old(log) && queue.tasks == old(queue.tasks)
        && forall i :: 0 <= i < |queue.tasks| ==> !Claimable(queue.tasks, queue.tasks[i])
      ensures claimed.Some? ==>
        var i, ts := claimed.value, old(queue.tasks);
        && i < |ts| && Claimable(ts, ts[i])
        && (forall k :: 0 <= k < i ==> !Claimable(ts, ts[k]))
        && queue.tasks == ts[i := Claimed(ts[i])] && ClaimsFirst(ts, queue.tasks, claimed)
        && log == old(log) + [Claim(n, i)]
        && Before(log, n + 1) && ClosedExcept(log, n)
        && (forall e :: e in log && e.it == n ==> e.Claim?)
        && Potential(config, queue.tasks) == Potential(config, ts)
    {
      hide GoodLog, Stashed, QueueMatches;
      ghost var before := queue.tasks;
      claimed := queue.Claim();
      if claimed.Some? {
        MatchesAfter(config, start, before, queue.tasks, log);
        Record(Claim(n, claimed.value));
        PotentialUpdate(config, before, claimed.value, Claimed(before[claimed.value]));
      }
    }

    /** The executing loop, for as long as there are answers from outside. */
    method Work(worlds: seq<World>) returns (ended: bool, n: nat)
      requires Valid() && log == [] && phase == Executing
      modifies this`log, this`phase, this`preStashed, queue
      ensures Valid() && TreesClosed(log) && n <= |worlds|
      ensures ended ==> EndsWell(phase, queue.tasks, log)
      ensures Ledger(config, log, worlds, n, phase == SessionCancelled)
      ensures Ruled(config, queue.tasks, log, worlds, n) && Gated(config, queue.tasks, log, worlds, n)
      ensures DependenciesFirst(old(queue.tasks)) ==> DependenciesFirst(queue.tasks)
      ensures !config.enableSubAgents ==>
        n + (if ended then 0 else Potential(config, queue.tasks)) <= old(Potential(config, queue.tasks))
      ensures !ended ==> n == |worlds| && !Settled(queue.tasks) && queue.tasks != []
      ensures old(queue.tasks) == [] ==> ended && phase == SessionFailed
    {
      hide GoodLog, Stashed, QueueMatches, Potential, CancelKept, AcceptedEnds, RulesAt, DependenciesFirst, Gated;
      ended, n := false, 0;
      NothingUnreviewed(config, queue.tasks, log, worlds, n);
      while !ended
        invariant Valid() && TreesClosed(log) && Before(log, n) && n <= |worlds|
        invariant !ended ==>
          NoConflict(log) && (phase == Executing || (phase == SessionCancelled && !AllCompleted(queue.tasks)))
        invariant ended ==> EndsWell(phase, queue.tasks, log)
        invariant Ledger(config, log, worlds, n, phase == SessionCancelled)
        invariant Ruled(config, queue.tasks, log, worlds, n) && Gated(config, queue.tasks, log, worlds, n)
        invariant DependenciesFirst(old(queue.tasks)) ==> DependenciesFirst(queue.tasks)
        invariant !config.enableSubAgents ==>
          n + (if ended then 0 else Potential(config, queue.tasks)) <= old(Potential(config, queue.tasks))
        invariant old(queue.tasks) == [] ==> queue.tasks == [] && phase == if ended then SessionFailed else Executing
        decreases |worlds| - n, !ended
      {
        if AllCompleted(queue.tasks) {
          phase, ended := SessionCompleted, true;
        } else if phase == SessionCancelled {
          ended := true;
        } else if Settled(queue.tasks) {
          phase, ended := SessionFailed, true;
        } else if queue.tasks != [] && n == |worlds| {
          return;
        } else {
          hide Ledger, EndsWell, TreesClosed, NoConflict, Before, Ruled;
          var took;
          ended, took := TakeTurn(worlds, n);
          n := n + if took then 1 else 0;
          NothingUnreviewed(config, queue.tasks, log, worlds, n);
        }
      }
    }

    /** Claim a task and work on it; without one the session fails. */
    method TakeTurn(worlds: seq<World>, n: nat) returns (ended: bool, took: bool)
      requires Valid() && TreesClosed(log) && Before(log, n) && NoConflict(log) && phase == Executing
      requires n < |worlds| || (n == |worlds| && queue.tasks == [])
      requires Ledger(config, log, worlds, n, false) && !AllCompleted(queue.tasks)
      requires Ruled(config, queue.tasks, log, worlds, n)
      modifies this`log, this`phase, this`preStashed, queue
      ensures Valid() && TreesClosed(log) && Before(log, n + if took then 1 else 0)
      ensures !ended ==>
        took && NoConflict(log) && (phase == Executing || (phase == SessionCancelled && !AllCompleted(queue.tasks)))
      ensures ended ==> EndsWell(phase, queue.tasks, log)
      ensures n + (if took then 1 else 0) <= |worlds|
      ensures Ledger(config, log, worlds, n + if took then 1 else 0, phase == SessionCancelled)
      ensures Ruled(config, queue.tasks, log, worlds, n + if took then 1 else 0)
      ensures DependenciesFirst(old(queue.tasks)) ==> DependenciesFirst(queue.tasks)
      ensures took ==> old(Potential(config, queue.tasks)) > 0
      ensures !ended && !config.enableSubAgents ==> Potential(config, queue.tasks) < old(Potential(config, queue.tasks))
      ensures old(queue.tasks) == [] ==> ended && !took && queue.tasks == [] && phase == SessionFailed
    {
      hide GoodLog, Stashed, QueueMatches, Potential, Recorded, Tidied, TurnOf, FinalPhase, QueueAfter, OutcomeIn, CancelKept,
           Grown, AcceptedEnds, Ledger, Ruled, Rules, QueueRules, PhaseRules, DependenciesFirst, SameShape;
      ghost var before, tasks := log, queue.tasks;
      var claimed := ClaimNext(n);
      took := claimed.Some?;
      if claimed.None? {
        phase, ended := SessionFailed, true;
      } else {
        ghost var ts := queue.tasks;
        ghost var i, w := claimed.value, worlds[n];
        var e := Iterate(n, claimed.value, worlds[n]);
        if Potential(config, ts) == 0 {
          PotentialZero(config, ts);
        }
        AfterTurn(config, ts, queue.tasks, log, n, claimed.value, worlds[n], e);
        GrownTwice(before, Claim(n, claimed.value), log, n);
        LedgerNext(config, before, log, worlds, n, phase == SessionCancelled);
        forall j | Claim(n, j) in log ensures j == i {
          GrownKeeps(before + [Claim(n, i)], log, n, Claim(n, i));
          ClaimedOnce(config, log, n, i, j);
        }
        TurnRuled(config, tasks, ts, queue.tasks, before, log, worlds, n, i);
        ended := !GoesOn(e);
      }
    }

    /** `runAgentLoop`, on a queue that may hold tasks already. */
    method Run(planning: PlanOutcome, worlds: seq<World>) returns (ended: bool, n: nat)
      requires Valid() && log == [] && queue.tasks == start
      modifies this`log, this`phase, this`preStashed, queue
      ensures GoodLog(config, log) && QueueMatches(config, start, queue.tasks, log) && TreesClosed(log)
      ensures n <= |worlds|
      ensures planning.Plan? && ended ==> EndsWell(phase, queue.tasks, log)
      ensures StashPopped in log <==> ended && Stashed(log)
      ensures planning.Plan? ==> Ledger(config, log, worlds, n, phase == SessionCancelled)
      ensures planning.Plan? ==> Ruled(config, queue.tasks, log, worlds, n) && Gated(config, queue.tasks, log, worlds, n)
      ensures DependenciesFirst(start) ==> DependenciesFirst(queue.tasks)
      ensures planning.Plan? && ended ==>
        (phase == SessionCompleted
         <==> |queue.tasks| > 0 && forall i :: 0 <= i < |queue.tasks| ==> queue.tasks[i].status == Completed)
      ensures planning.Plan? && !config.enableSubAgents ==>
        var limit := Potential(config, start) + |planning.tasks| * Cap(config);
        n <= limit && (|worlds| >= limit ==> ended)
      ensures planning.Plan? && !config.enableSubAgents && start == [] ==>
        n <= |planning.tasks| * (if config.maxRetries > 1 then config.maxRetries else 1)
      ensures planning == PlannerThrew ==> ended && n == 0 && phase == SessionFailed
      ensures planning == PlanRejected ==> ended && n == 0 && phase == SessionCancelled
      ensures planning == Plan([]) && start == [] ==> ended && phase == SessionFailed
    {
      hide GoodLog, QueueMatches, Potential, Stashed, Ledger, Cap, Ruled, Gated, DependenciesFirst, AwaitsRecovery;
      EmptyLog(config);
      CapIs(config);
      ended, n := true, 0;
      phase := Planning;
      match planning {
        case PlannerThrew => phase := SessionFailed;
        case PlanRejected => phase := SessionCancelled;
        case Plan(tasks) =>
          CreateTasks(tasks);
          phase := Executing;
          ended, n := Work(worlds);
          if Potential(config, queue.tasks) == 0 {
            PotentialZero(config, queue.tasks);
          }
      }
      if ended && config.optimizer && preStashed {
        PopStash(worlds, n);
      }
    }

    /** The loop's own `finally`. */
    method PopStash(ghost worlds: seq<World>, ghost n: nat)
      requires Valid() && Stashed(log) && n <= |worlds|
      modifies this`log
      ensures log == old(log) + [StashPopped]
      ensures GoodLog(config, log) && QueueMatches(config, start, queue.tasks, log)
      ensures TreesClosed(old(log)) ==> TreesClosed(log)
      ensures Stashed(log) && (EndsWell(phase, queue.tasks, old(log)) ==> EndsWell(phase, queue.tasks, log))
      ensures forall cancelled :: Ledger(config, old(log), worlds, n, cancelled) ==> Ledger(config, log, worlds, n, cancelled)
      ensures Ruled(config, queue.tasks, old(log), worlds, n) ==>
        Ruled(config, queue.tasks, log, worlds, n) && Gated(config, queue.tasks, log, worlds, n)
    {
      log := log + [StashPopped];
      assert log[..|log| - 1] == old(log);
      hide GoodLog, QueueMatches;
      Monotone(config, start, queue.tasks, old(log), StashPopped);
      forall cancelled | Ledger(config, old(log), worlds, n, cancelled) ensures Ledger(config, log, worlds, n, cancelled) {
        LedgerAfterPop(config, old(log), worlds, n, cancelled);
      }
      hide Ledger, Ruled, Gated;
      if Ruled(config, queue.tasks, old(log), worlds, n) {
        RuledAfterPop(config, queue.tasks, old(log), worlds, n);
        NothingUnreviewed(config, queue.tasks, log, worlds, n);
      }
    }

    method CreateTasks(tasks: seq<PlanTask>)
      requires Valid() && queue.tasks == start && log == []
      modifies queue
      ensures Valid() && |queue.tasks| == |start| + |tasks| && start <= queue.tasks
      ensures Potential(config, queue.tasks) <= Potential(config, start) + |tasks| * Cap(config)
      ensures forall i :: 0 <= i < |tasks| ==> queue.tasks[|start| + i] == Planned(tasks[i])
      ensures forall i :: 0 <= i < |tasks| ==>
        IsFresh(queue.tasks[|start| + i], tasks[i].dependsOn, tasks[i].requiresIsolation, tasks[i].parent, tasks[i].depth)
      ensures DependenciesFirst(start) ==> DependenciesFirst(queue.tasks)
    {
      for k := 0 to |tasks|
        invariant |queue.tasks| == |start| + k && start <= queue.tasks
        invariant forall i :: 0 <= i < k ==> queue.tasks[|start| + i] == Planned(tasks[i])
        invariant forall i :: |start| <= i < |queue.tasks| ==>
          queue.tasks[i].retryCount == 0 && queue.tasks[i].status != Completed
      {
        var _ := queue.Create(Planned(tasks[k]));
      }
      PotentialNew(config, start, queue.tasks);
      PlannedAreFresh(start, queue.tasks, tasks);
      MatchesAfter(config, start, start, queue.tasks, log);
    }
  }

  lemma PlannedAreFresh(start: seq<Task>, ts: seq<Task>, planned: seq<PlanTask>)
    requires |ts| == |start| + |planned| && start <= ts
    requires forall i :: 0 <= i < |planned| ==> ts[|start| + i] == Planned(planned[i])
    ensures forall i :: 0 <= i < |planned| ==>
      IsFresh(ts[|start| + i], planned[i].dependsOn, planned[i].requiresIsolation, planned[i].parent, planned[i].depth)
    ensures DependenciesFirst(start) ==> DependenciesFirst(ts)
  {
    forall k | |start| <= k < |ts| ensures ts[k].status != InProgress && ts[k].status != Completed {
      var i := k - |start|;
      assert ts[|start| + i] == Planned(planned[i]);
    }
    if DependenciesFirst(start) {
      DependenciesStay(start, ts);
    }
  }

  lemma TurnRuled(c: Config, tasks: seq<Task>, ts: seq<Task>, us: seq<Task>, before: seq<Event>, after: seq<Event>,
        worlds: seq<World>, n: nat, i: nat)
    requires n < |worlds| && Ruled(c, tasks, before, worlds, n) && ClaimsFirst(tasks, ts, Some(i))
    requires Grown(before, after, n) && forall j :: Claim(n, j) in after ==> j == i
    requires i < |ts| && Rules(c, ts[i], HasSubAgent(c, ts[i], i, |ts|), worlds[n], after, n, i)
    requires QueueRules(c, ts, us, worlds[n], after, n, i)
    ensures Ruled(c, us, after, worlds, n + 1)
    ensures DependenciesFirst(tasks) ==> DependenciesFirst(us)
  {
    assert SameShape(tasks, ts) && ts[i].status == InProgress;
    hide Rules, QueueRules, Grown, DependenciesFirst;
    QueueKeepsShape(c, ts, us, worlds[n], after, n, i);
    SameTasks(c, tasks, ts, before, worlds, n);
    hide Ruled, SameShape;
    RuledNext(c, ts, us, before, after, worlds, n, i);
    if DependenciesFirst(tasks) {
      ClaimKeepsOrder(tasks, ts, Some(i));
      QueueKeepsOrder(c, ts, us, worlds[n], after, n, i);
    }
  }

  lemma SameTasks(c: Config, tasks: seq<Task>, ts: seq<Task>, log: seq<Event>, worlds: seq<World>, n: nat)
    requires n <= |worlds| && Ruled(c, tasks, log, worlds, n) && SameShape(tasks, ts)
    ensures Ruled(c, ts, log, worlds, n)
  {
    hide RulesAt, SameShape;
    forall k, i | 0 <= k < n && Claim(k, i) in log ensures RulesAt(c, ts, worlds[k], log, k, i) {
      RulesAtStay(c, tasks, ts, worlds[k], log, log, k, i);
    }
  }

  lemma InConflictAfter(ts: seq<Task>, mid: seq<Task>, us: seq<Task>, i: nat, isolation: seq<bool>)
    requires DelegatedTo(ts, mid, i, isolation) && FailsAt(mid, us, i)
    ensures DelegatedInConflict(ts, us, i, isolation)
  {
  }

  lemma GrownOn(before: seq<Event>, middle: seq<Event>, after: seq<Event>, it: nat)
    requires Grown(before, middle, it) && Grown(middle, after, it)
    ensures Grown(before, after, it)
  {
  }

  lemma GrownTwice(before: seq<Event>, e: Event, after: seq<Event>, it: nat)
    requires Grown(before + [e], after, it) && !e.StashPopped? && e.it == it
    ensures Grown(before, after, it)
  {
    assert before <= before + [e];
  }

  lemma CapIs(c: Config)
    ensures Cap(c) == if c.maxRetries > 1 then c.maxRetries else 1
    ensures Potential(c, []) == 0
  {
  }

  lemma EmptyLog(c: Config)
    ensures GoodLog(c, []) && TreesClosed([]) && !Stashed([])
  {
  }
}
