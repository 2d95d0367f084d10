/** What the log of a session, as `Session.Run` leaves it, tells about the session. */
module AgentLoopSafety {
  import opened Options
  import opened TaskQueue
  import opened AgentLoop
  import opened AgentLoopTurn

  /** A worktree is made before the work starts, if at all. */
  lemma {:induction false} TreeBeforeStart(c: Config, log: seq<Event>, it: nat, k: nat, isolated: bool)
    requires GoodLog(c, log) && k <= |log| && Started(it, isolated) in log[..k] && TreeCreated(it) in log
    ensures TreeCreated(it) in log[..k]
  {
    var j :| 0 <= j < |log| && log[j] == TreeCreated(it);
    var s :| 0 <= s < k && log[s] == Started(it, isolated);
    assert s < j ==> log[..j][s] == Started(it, isolated);
    GoodAt(c, log, j);
    assert log[..k][j] == TreeCreated(it);
  }

  lemma AcceptedWasStarted(c: Config, log: seq<Event>, it: nat)
    requires GoodLog(c, log) && Accepted(c, log, it)
    ensures Started(it, true) in log || Started(it, false) in log
  {
    var needsReview := Returned(it, true, true) in log;
    var k :| 0 <= k < |log| && log[k] == Returned(it, true, needsReview);
    GoodAt(c, log, k);
  }

  lemma {:induction false} GoodPrefix(c: Config, log: seq<Event>, k: nat)
    requires GoodLog(c, log) && k <= |log|
    ensures GoodLog(c, log[..k])
  {
    var n := |log| - 1;
    if k <= n {
      GoodPrefix(c, log[..n], k);
      assert log[..n][..k] == log[..k];
    } else {
      assert log[..k] == log;
    }
  }

  /** A task is completed only with accepted work, and isolated work only once it is merged. */
  lemma CompletedIsAccepted(c: Config, log: seq<Event>, it: nat, i: nat)
    requires GoodLog(c, log) && TaskCompleted(it, i) in log
    ensures Claim(it, i) in log && Accepted(c, log, it)
    ensures TreeCreated(it) in log ==> Merged(it) in log
  {
    var k :| 0 <= k < |log| && log[k] == TaskCompleted(it, i);
    GoodAt(c, log, k);
    if TreeCreated(it) in log {
      GoodPrefix(c, log, k);
      AcceptedWasStarted(c, log[..k], it);
      TreeBeforeStart(c, log, it, k, Started(it, true) in log[..k]);
    }
  }

  /** A session that ends `completed` has had the work of every task accepted that was not
      completed before it started. */
  lemma CompletedSession(c: Config, start: seq<Task>, ts: seq<Task>, phase: Phase, log: seq<Event>, i: nat)
    requires GoodLog(c, log) && QueueMatches(c, start, ts, log) && EndsWell(phase, ts, log)
    requires phase == SessionCompleted && i < |ts| && !(i < |start| && start[i].status == Completed)
    ensures exists it :: TaskCompleted(it, i) in log && Accepted(c, log, it)
  {
    assert ts[i].status == Completed;
    assert Finished(start, log, i);
    var it :| TaskCompleted(it, i) in log;
    CompletedIsAccepted(c, log, it, i);
  }

  /** Work that was accepted is refused after all only if it was isolated and its merge
      failed, and then it is never merged. */
  lemma {:induction false} RefusedThoughAccepted(c: Config, log: seq<Event>, it: nat, i: nat, k: nat)
    requires GoodLog(c, log) && k < |log| && log[k] == TaskRejected(it, i) && Accepted(c, log[..k], it)
    ensures TreeCreated(it) in log && Merged(it) !in log && TaskCompleted(it, i) !in log[..k]
  {
    GoodAt(c, log, k);
    assert TreeRemovalTried(it) in log[..k];
    forall j | k < j < |log| ensures log[j] != Merged(it) {
      assert log[..j][..k] == log[..k];
      assert forall e :: e in log[..k] ==> e in log[..j];
      GoodAt(c, log, j);
    }
    forall j | 0 <= j < |log| ensures log[j] != Merged(it) {
      if j < k {
        assert log[j] in log[..k];
      }
    }
  }

  /** An optimizer works on a git workspace only in a worktree, or with an approval of the same iteration. */
  lemma OptimizerWasApproved(c: Config, log: seq<Event>, it: nat, isolated: bool)
    requires GoodLog(c, log) && Started(it, isolated) in log && c.optimizer && c.git
    ensures if isolated then TreeCreated(it) in log else InPlaceApproved(it) in log && (c.allowInPlace || c.canConfirm)
  {
    var k :| 0 <= k < |log| && log[k] == Started(it, isolated);
    GoodAt(c, log, k);
    if !isolated {
      var j :| 0 <= j < k && log[j] == InPlaceApproved(it);
      GoodAt(c, log, j);
    }
  }

  /** After a merge conflict there is nothing but the stash: its worktree stays. */
  lemma {:induction false} ConflictKeepsTree(c: Config, log: seq<Event>, it: nat)
    requires GoodLog(c, log) && ConflictRecorded(it) in log
    ensures TreeCreated(it) in log && TreeRemovalTried(it) !in log
    ensures forall e :: e in log && e.ConflictRecorded? ==> e == ConflictRecorded(it)
  {
    var k :| 0 <= k < |log| && log[k] == ConflictRecorded(it);
    GoodAt(c, log, k);
    forall j | k < j < |log| ensures log[j] == StashPopped {
      GoodAt(c, log, j);
      assert log[..j][k] == ConflictRecorded(it);
    }
    forall j | 0 <= j < k ensures !log[j].ConflictRecorded? && log[j] != TreeRemovalTried(it) {
      assert log[j] in log[..k];
    }
  }

  /** At most one stash succeeds, and it is popped at most once, after it was made. */
  lemma {:induction false} OneStashOnePop(c: Config, log: seq<Event>, j: nat, k: nat)
    requires GoodLog(c, log) && j < k < |log|
    ensures !(log[j].StashTried? && log[j].stashed && log[k].StashTried?)
    ensures !(log[j].StashPopped? && log[k].StashPopped?)
    ensures log[k].StashPopped? ==> Stashed(log[..k])
  {
    GoodAt(c, log, k);
    assert log[..k][j] == log[j];
  }

  /** No task is given back more often than it has attempts left when the session starts, or
      than a new one has: once at the least. */
  lemma GivenBackAtMost(c: Config, start: seq<Task>, ts: seq<Task>, log: seq<Event>, i: nat)
    requires QueueMatches(c, start, ts, log)
    ensures var attempts := if i < |start| then c.maxRetries - start[i].retryCount else c.maxRetries;
      Rejections(log, i) <= if attempts > 1 then attempts else 1
    ensures i < |start| && (start[i].status == Completed || start[i].status == Failed) ==> Rejections(log, i) == 0
  {
  }

  lemma ClaimedOnce(c: Config, log: seq<Event>, it: nat, i: nat, j: nat)
    requires GoodLog(c, log) && Claim(it, i) in log && Claim(it, j) in log
    ensures i == j
  {
    var a :| 0 <= a < |log| && log[a] == Claim(it, i);
    var b :| 0 <= b < |log| && log[b] == Claim(it, j);
    if a < b {
      assert log[..b][a] == Claim(it, i);
      GoodAt(c, log, b);
    } else if b < a {
      assert log[..a][b] == Claim(it, j);
      GoodAt(c, log, a);
    }
  }

  /** Accepted work ends in one of four ways, and which one the log shows. */
  lemma {:induction false} AcceptedWorkEnds(c: Config, ts: seq<Task>, i: nat, w: World, log: seq<Event>, it: nat)
    requires i < |ts| && GoodLog(c, log) && Claim(it, i) in log
    requires Recorded(log, it, i, TurnOf(c, ts, i, w)) && Tells(c, log, ts, it, i, w)
    ensures AcceptedEnds(c, log, it, w)
  {
    forall j | Claim(it, j) in log ensures j == i {
      ClaimedOnce(c, log, it, i, j);
    }
    if TurnOf(c, ts, i, w) == Completes {
      CompletedIsAccepted(c, log, it, i);
    }
    hide GoodLog, MustAsk, MayRunInPlace, Isolates, OutcomeOf, IsSubAgent;
  }
}
