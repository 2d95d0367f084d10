/** The task queue the agent loop works through. A task's id is its place in the queue:
    ids are handed out in order and no task is removed while a loop runs. */
module TaskQueue {
  import opened Options

  datatype Status = Pending | InProgress | Blocked | Completed | Failed | Cancelled

  datatype Task = Task(
    status: Status,
    owned: bool,
    dependsOn: seq<nat>,
    retryCount: nat,
    requiresIsolation: bool,
    parent: Option<nat>,
    depth: nat,
    awaitsRecovery: bool)

  /** `createNexusTask`. */
  function NewTask(dependsOn: seq<nat>, requiresIsolation: bool, parent: Option<nat>, depth: nat): Task {
    Task(if dependsOn == [] then Pending else Blocked, false, dependsOn, 0, requiresIsolation, parent, depth, false)
  }

  /** Neither completed nor failed. */
  predicate Open(t: Task) {
    t.status != Completed && t.status != Failed
  }

  predicate IsCompleted(ts: seq<Task>, i: nat) {
    i < |ts| && ts[i].status == Completed
  }

  predicate IsFailed(ts: seq<Task>, i: nat) {
    i < |ts| && ts[i].status == Failed
  }

  predicate DependenciesCompleted(ts: seq<Task>, t: Task) {
    forall d :: d in t.dependsOn ==> IsCompleted(ts, d)
  }

  predicate HasFailedDependency(ts: seq<Task>, t: Task) {
    exists d :: d in t.dependsOn && IsFailed(ts, d)
  }

  predicate AllCompleted(ts: seq<Task>) {
    ts != [] && forall i :: 0 <= i < |ts| ==> ts[i].status == Completed
  }

  predicate Settled(ts: seq<Task>) {
    ts != [] && forall i :: 0 <= i < |ts| ==> !Open(ts[i])
  }

  predicate Claimable(ts: seq<Task>, t: Task) {
    t.status == Pending && !t.owned && DependenciesCompleted(ts, t)
  }

  function Claimed(t: Task): Task {
    t.(status := InProgress, owned := true)
  }

  /** The elements of `s` in order of their first occurrence: `Array.from(new Set(s))`. */
  function WithoutRepeats(s: seq<nat>): (r: seq<nat>)
    ensures forall x :: x in r <==> x in s
    ensures forall j, k :: 0 <= j < k < |r| ==> r[j] != r[k]
  {
    if s == [] then []
    else
      var front, last := WithoutRepeats(s[..|s| - 1]), s[|s| - 1];
      assert s == s[..|s| - 1] + [last];
      if last in front then front else front + [last]
  }

  /** No element of `r` first occurs in `s` after one that follows it in `r`. */
  predicate FirstsInOrder(s: seq<nat>, r: seq<nat>) {
    forall j, k, b :: 0 <= j < k < |r| && 0 <= b < |s| && s[b] == r[k] ==> r[j] in s[..b]
  }

  lemma {:induction false} FirstOccurrences(s: seq<nat>)
    ensures FirstsInOrder(s, WithoutRepeats(s))
  {
    if s != [] {
      var n := |s| - 1;
      FirstOccurrences(s[..n]);
      FirstsSnoc(s[..n], WithoutRepeats(s[..n]), s[n]);
      assert s == s[..n] + [s[n]];
    }
  }

  lemma FirstsSnoc(s: seq<nat>, r: seq<nat>, x: nat)
    requires FirstsInOrder(s, r) && forall y :: y in r <==> y in s
    ensures FirstsInOrder(s + [x], if x in r then r else r + [x])
  {
    var t, q := s + [x], if x in r then r else r + [x];
    forall j, k, b | 0 <= j < k < |q| && 0 <= b < |t| && t[b] == q[k] ensures q[j] in t[..b] {
      assert q[j] == r[j] && r[j] in s && t[..b] == s[..b];
      assert b < |s| ==> s[b] in r && k < |r|;
    }
  }

  /** A task that has handed its work to the `count` new tasks from `first` on. */
  function Waiting(t: Task, first: nat, count: nat): Task {
    t.(status := Blocked, owned := false, dependsOn := WithoutRepeats(t.dependsOn + seq(count, k => first + k)))
  }

  /** `unblockTasks`. */
  function Unblocked(ts: seq<Task>): (r: seq<Task>)
    ensures |r| == |ts|
    ensures forall i :: 0 <= i < |ts| ==>
      r[i] == if ts[i].status == Blocked && DependenciesCompleted(ts, ts[i]) then ts[i].(status := Pending) else ts[i]
  {
    seq(|ts|, i requires 0 <= i < |ts| =>
      if ts[i].status == Blocked && DependenciesCompleted(ts, ts[i]) then ts[i].(status := Pending) else ts[i])
  }

  // ---------------------------------------------------------------- what the operations mean

  /** A task nobody has taken up yet: pending, or blocked if it depends on any other. */
  ghost predicate IsFresh(t: Task, dependsOn: seq<nat>, requiresIsolation: bool, parent: Option<nat>, depth: nat) {
    && (t.status == Pending || t.status == Blocked) && (t.status == Blocked <==> |dependsOn| > 0)
    && !t.owned && t.retryCount == 0 && !t.awaitsRecovery
    && t.dependsOn == dependsOn && t.requiresIsolation == requiresIsolation && t.parent == parent && t.depth == depth
  }

  lemma NewTaskIsFresh(dependsOn: seq<nat>, requiresIsolation: bool, parent: Option<nat>, depth: nat)
    ensures IsFresh(NewTask(dependsOn, requiresIsolation, parent, depth), dependsOn, requiresIsolation, parent, depth)
  {
  }

  /** All that task `i` depends on is in the queue and completed. */
  ghost predicate Unhindered(ts: seq<Task>, i: nat)
    requires i < |ts|
  {
    forall d :: d in ts[i].dependsOn ==> d < |ts| && ts[d].status == Completed
  }

  ghost predicate Ready(ts: seq<Task>, i: nat)
    requires i < |ts|
  {
    ts[i].status == Pending && !ts[i].owned && Unhindered(ts, i)
  }

  lemma ReadyIsClaimable(ts: seq<Task>)
    ensures forall i :: 0 <= i < |ts| ==> (Ready(ts, i) <==> Claimable(ts, ts[i]))
  {
  }

  /** The first task that is ready is in progress now, and owned; if none is, nothing has changed. */
  ghost predicate ClaimsFirst(ts: seq<Task>, us: seq<Task>, claimed: Option<nat>) {
    match claimed
    case None => us == ts && forall k :: 0 <= k < |ts| ==> !Ready(ts, k)
    case Some(i) =>
      && i < |ts| && Ready(ts, i) && (forall k :: 0 <= k < i ==> !Ready(ts, k))
      && us == ts[i := ts[i].(status := InProgress, owned := true)]
  }

  /** Task `i` is completed; a blocked one is pending now exactly if nothing hinders it any more. */
  ghost predicate CompletesOne(ts: seq<Task>, us: seq<Task>, i: nat) {
    && i < |ts| && |us| == |ts| && us[i] == ts[i].(status := Completed)
    && forall k :: 0 <= k < |ts| && k != i ==>
      us[k] == if ts[k].status == Blocked && Unhindered(us, k) then ts[k].(status := Pending) else ts[k]
  }

  lemma {:induction false} UnblockedCompletes(ts: seq<Task>, i: nat)
    requires i < |ts|
    ensures CompletesOne(ts, Unblocked(ts[i := ts[i].(status := Completed)]), i)
  {
    var done := ts[i := ts[i].(status := Completed)];
    var us := Unblocked(done);
    assert forall d :: 0 <= d < |ts| ==> (us[d].status == Completed <==> done[d].status == Completed);
    forall k | 0 <= k < |ts| && k != i ensures Unhindered(us, k) <==> DependenciesCompleted(done, done[k]) {
    }
  }

  /** Task `i` waits, unowned, for new tasks of its own, and for what it depended on before. */
  ghost predicate HandsOver(ts: seq<Task>, us: seq<Task>, i: nat, isolation: seq<bool>, depth: nat) {
    && i < |ts| && |us| == |ts| + |isolation|
    && (forall k :: 0 <= k < |isolation| ==> IsFresh(us[|ts| + k], [], isolation[k], Some(i), depth))
    && (forall k :: 0 <= k < |ts| && k != i ==> us[k] == ts[k])
    && us[i] == ts[i].(status := Blocked, owned := false, dependsOn := us[i].dependsOn)
    && (forall d :: d in us[i].dependsOn <==> d in ts[i].dependsOn || |ts| <= d < |us|)
    && forall j, k :: 0 <= j < k < |us[i].dependsOn| ==> us[i].dependsOn[j] != us[i].dependsOn[k]
  }

  lemma WaitingHandsOver(ts: seq<Task>, us: seq<Task>, i: nat, isolation: seq<bool>, depth: nat)
    requires i < |ts| && |us| == |ts| + |isolation|
    requires forall k :: 0 <= k < |isolation| ==> us[|ts| + k] == NewTask([], isolation[k], Some(i), depth)
    requires forall k :: 0 <= k < |ts| && k != i ==> us[k] == ts[k]
    requires us[i] == Waiting(ts[i], |ts|, |isolation|)
    ensures HandsOver(ts, us, i, isolation, depth)
  {
    var ids := seq(|isolation|, k => |ts| + k);
    forall d | |ts| <= d < |us| ensures d in ids {
      assert ids[d - |ts|] == d;
    }
  }

  // ---------------------------------------------------------------- failures spread

  /** Task `i` has failed, or waits, through at most `n` open tasks, for one that has. */
  ghost predicate Doomed(ts: seq<Task>, i: nat, n: nat)
    decreases n
  {
    || IsFailed(ts, i)
    || (i < |ts| && Open(ts[i]) && n > 0 && exists d :: d in ts[i].dependsOn && Doomed(ts, d, n - 1))
  }

  /** `r` is `ts` with exactly the doomed tasks failed. */
  ghost predicate FailuresSpread(ts: seq<Task>, r: seq<Task>) {
    && |r| == |ts|
    && forall i :: 0 <= i < |ts| ==>
      && (r[i] == ts[i] || (Open(ts[i]) && r[i] == ts[i].(status := Failed)))
      && (r[i].status == Failed <==> exists n: nat :: Doomed(ts, i, n))
  }

  /** Half-way: what has changed is doomed. */
  ghost predicate Spreading(ts: seq<Task>, r: seq<Task>) {
    && |r| == |ts|
    && forall i :: 0 <= i < |ts| ==>
      && (r[i] == ts[i] || (Open(ts[i]) && r[i] == ts[i].(status := Failed)))
      && (r[i].status == Failed ==> exists n: nat :: Doomed(ts, i, n))
  }

  lemma SpreadOne(ts: seq<Task>, r: seq<Task>, i: nat)
    requires Spreading(ts, r) && i < |r| && Open(r[i]) && HasFailedDependency(r, r[i])
    ensures Spreading(ts, r[i := r[i].(status := Failed)])
  {
    var d :| d in r[i].dependsOn && IsFailed(r, d);
    var n: nat :| Doomed(ts, d, n);
    assert Doomed(ts, i, n + 1);
  }

  lemma {:induction false} SpreadDone(ts: seq<Task>, r: seq<Task>, i: nat, n: nat)
    requires Spreading(ts, r) && Doomed(ts, i, n)
    requires forall k :: 0 <= k < |r| && Open(r[k]) ==> !HasFailedDependency(r, r[k])
    ensures IsFailed(r, i)
    decreases n
  {
    if !IsFailed(ts, i) {
      var d :| d in ts[i].dependsOn && Doomed(ts, d, n - 1);
      SpreadDone(ts, r, d, n - 1);
    }
  }

  /** Only tasks neither completed nor failed have failed now, each of them for another that
      has; and none is left that waits for a failed one. */
  ghost predicate FailsWaiting(ts: seq<Task>, us: seq<Task>) {
    && |us| == |ts|
    && forall k :: 0 <= k < |ts| ==>
      && (us[k] != ts[k] ==>
            && ts[k].status != Completed && ts[k].status != Failed && us[k] == ts[k].(status := Failed)
            && exists d :: d in ts[k].dependsOn && d < |us| && us[d].status == Failed)
      && (us[k].status != Completed && us[k].status != Failed ==>
            forall d :: d in ts[k].dependsOn && d < |us| ==> us[d].status != Failed)
  }

  lemma SpreadFailsWaiting(ts: seq<Task>, us: seq<Task>)
    requires FailuresSpread(ts, us)
    ensures FailsWaiting(ts, us)
  {
    forall k, d | 0 <= k < |ts| && d in ts[k].dependsOn && d < |us| && us[d].status == Failed && Open(ts[k])
      ensures us[k].status == Failed
    {
      var n: nat :| Doomed(ts, d, n);
      assert Doomed(ts, k, n + 1);
    }
    forall k | 0 <= k < |ts| && us[k] != ts[k]
      ensures exists d :: d in ts[k].dependsOn && d < |us| && us[d].status == Failed
    {
      var n: nat :| Doomed(ts, k, n);
      var d :| d in ts[k].dependsOn && Doomed(ts, d, n - 1);
      DoomedExists(ts, d, n - 1);
      assert us[d].status == Failed;
    }
  }

  lemma DoomedExists(ts: seq<Task>, i: nat, n: nat)
    requires Doomed(ts, i, n)
    ensures i < |ts|
  {
  }

  function OpenCount(ts: seq<Task>): nat {
    if ts == [] then 0 else OpenCount(ts[..|ts| - 1]) + if Open(ts[|ts| - 1]) then 1 else 0
  }

  lemma {:induction false} OpenCountUpdate(ts: seq<Task>, i: nat, t: Task)
    requires i < |ts| && Open(ts[i]) && !Open(t)
    ensures OpenCount(ts[i := t]) == OpenCount(ts) - 1
  {
    var n := |ts| - 1;
    if i < n {
      OpenCountUpdate(ts[..n], i, t);
      assert ts[i := t][..n] == ts[..n][i := t];
    } else {
      assert ts[i := t][..n] == ts[..n];
    }
  }

  class Queue {
    var tasks: seq<Task>

    constructor ()
      ensures tasks == []
    {
      tasks := [];
    }

    method Create(t: Task) returns (id: nat)
      modifies this
      ensures id == old(|tasks|) && tasks == old(tasks) + [t]
    {
      id, tasks := |tasks|, tasks + [t];
    }

    /** `claimNexusTask`: the first task that can be claimed, if there is one. */
    method Claim() returns (claimed: Option<nat>)
      modifies this
      ensures claimed.None? ==> tasks == old(tasks) && forall i :: 0 <= i < |tasks| ==> !Claimable(tasks, tasks[i])
      ensures claimed.Some? ==>
        && claimed.value < old(|tasks|)
        && Claimable(old(tasks), old(tasks)[claimed.value])
        && (forall i :: 0 <= i < claimed.value ==> !Claimable(old(tasks), old(tasks)[i]))
        && tasks == old(tasks)[claimed.value := Claimed(old(tasks)[claimed.value])]
      ensures ClaimsFirst(old(tasks), tasks, claimed)
    {
      ReadyIsClaimable(tasks);
      for i := 0 to |tasks|
        invariant tasks == old(tasks)
        invariant forall k :: 0 <= k < i ==> !Claimable(tasks, tasks[k])
      {
        if Claimable(tasks, tasks[i]) {
          tasks := tasks[i := Claimed(tasks[i])];
          return Some(i);
        }
      }
      claimed := None;
    }

    /** `completeNexusTask`. */
    method Complete(i: nat)
      requires i < |tasks|
      modifies this
      ensures tasks == Unblocked(old(tasks)[i := old(tasks)[i].(status := Completed)])
      ensures CompletesOne(old(tasks), tasks, i)
    {
      UnblockedCompletes(tasks, i);
      tasks := tasks[i := tasks[i].(status := Completed)];
      ghost var start := tasks;
      for k := 0 to |tasks|
        invariant |tasks| == |start|
        invariant forall x :: 0 <= x < k ==> tasks[x] == Unblocked(start)[x]
        invariant forall x :: k <= x < |start| ==> tasks[x] == start[x]
        invariant forall x :: 0 <= x < |start| ==> (tasks[x].status == Completed <==> start[x].status == Completed)
      {
        assert forall d :: IsCompleted(tasks, d) <==> IsCompleted(start, d);
        if tasks[k].status == Blocked && DependenciesCompleted(tasks, tasks[k]) {
          tasks := tasks[k := tasks[k].(status := Pending)];
        }
      }
      assert tasks == Unblocked(start);
    }

    /** `updateNexusTask`: a failure spreads to every task that waits for it. */
    method Update(i: nat, t: Task)
      requires i < |tasks|
      modifies this
      ensures t.status != Failed ==> tasks == old(tasks)[i := t]
      ensures t.status == Failed ==> FailuresSpread(old(tasks)[i := t], tasks) && FailsWaiting(old(tasks)[i := t], tasks)
    {
      tasks := tasks[i := t];
      if t.status == Failed {
        PropagateFailures();
      }
    }

    method PropagateFailures()
      modifies this
      ensures FailuresSpread(old(tasks), tasks) && FailsWaiting(old(tasks), tasks)
    {
      ghost var start := tasks;
      forall i | 0 <= i < |tasks| && tasks[i].status == Failed ensures exists n: nat :: Doomed(start, i, n) {
        assert Doomed(start, i, 0);
      }
      var changed := true;
      while changed
        invariant Spreading(start, tasks)
        invariant !changed ==> forall k :: 0 <= k < |tasks| && Open(tasks[k]) ==> !HasFailedDependency(tasks, tasks[k])
        decreases OpenCount(tasks), changed
      {
        changed := false;
        ghost var before := OpenCount(tasks);
        for i := 0 to |tasks|
          invariant Spreading(start, tasks)
          invariant OpenCount(tasks) <= before && (changed ==> OpenCount(tasks) < before)
          invariant !changed ==> forall k :: 0 <= k < i && Open(tasks[k]) ==> !HasFailedDependency(tasks, tasks[k])
        {
          if Open(tasks[i]) && HasFailedDependency(tasks, tasks[i]) {
            SpreadOne(start, tasks, i);
            OpenCountUpdate(tasks, i, tasks[i].(status := Failed));
            tasks := tasks[i := tasks[i].(status := Failed)];
            changed := true;
          }
        }
      }
      forall i, n: nat | 0 <= i < |tasks| && Doomed(start, i, n) ensures IsFailed(tasks, i) {
        SpreadDone(start, tasks, i, n);
      }
      SpreadFailsWaiting(start, tasks);
    }

    /** `createNexusSubTasks`: the parent waits for the new tasks. */
    method CreateSubTasks(parent: nat, isolation: seq<bool>, depth: nat)
      requires parent < |tasks|
      modifies this
      ensures |tasks| == old(|tasks|) + |isolation|
      ensures forall k :: 0 <= k < |isolation| ==>
        tasks[old(|tasks|) + k] == NewTask([], isolation[k], Some(parent), depth)
      ensures forall k :: 0 <= k < old(|tasks|) && k != parent ==> tasks[k] == old(tasks)[k]
      ensures tasks[parent] == Waiting(old(tasks)[parent], old(|tasks|), |isolation|)
      ensures HandsOver(old(tasks), tasks, parent, isolation, depth)
    {
      var n := |tasks|;
      for k := 0 to |isolation|
        invariant |tasks| == n + k
        invariant forall x :: 0 <= x < n ==> tasks[x] == old(tasks)[x]
        invariant forall x :: 0 <= x < k ==> tasks[n + x] == NewTask([], isolation[x], Some(parent), depth)
      {
        var _ := Create(NewTask([], isolation[k], Some(parent), depth));
      }
      tasks := tasks[parent := Waiting(tasks[parent], n, |isolation|)];
      WaitingHandsOver(old(tasks), tasks, parent, isolation, depth);
    }
  }
}
