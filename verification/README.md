# BabeL-O: a verified model of its state machines

BabeL-O is an agent runtime. This project models the parts of it that keep state over time
and proves what they keep in every run:

- the **storage bridge**: a FIFO persistence queue behind a write-ahead log, with batching,
  retries, compaction by rename, crash and replay (`WriteAheadLog`, `StorageBridge`,
  `StorageRuns`, `StorageFlush`, `StorageRecovery`, `StorageReplay`, `StorageLastWrite`, the imperative
  `StorageBridgeProcess`, and `StorageBridgeCalls`, which ties the two together);
- the **agent loop** with the task queue it works through: planner, executor, critic, isolated
  worktrees, in-place approval, stash, rollback, retries and delegation (`TaskQueue`, `AgentLoop`,
  `AgentLoopTurn`, `AgentLoopRules`, `AgentLoopRun`, `AgentLoopSafety`);
- the **line diff** (`LcsDiff`);
- the **MCP client**: its two framings, its incremental parser and its table of open requests
  (`McpFraming`, `McpReading`, `McpRoundTrip`, `McpCrlfLines`, `McpRequests`);
- the **timeouts of an execution**: stream loop, near-timeout timer, soft budget cycle and
  watchdog over one event array (`ExecutionTimeouts`, `ExecutionTimeoutLaws`, and the imperative
  `ExecutionTimeoutControls`);
- the **EverCore runtime cache**, the **dedup window** and the **context budget**
  (`EverCoreRuntime` with the imperative `EverCoreRuntimeManager`, `CacheHealthDedup`, `ContextBudget`).

## How it is built

Code that changes variables in place is a class whose methods change the same variables.
Where such code is suspended and interleaved with other code, a datatype holds the state as a
value, a function gives the effect of each stretch between two suspension points, the methods of
the class are proved to compute exactly those functions, and the theorems are about all
sequences of steps, possible or not (a step that is not possible changes nothing).

A function that says what a stretch of code does is not left to speak for itself: what the source
promises of it is stated in the inputs' own fields, without that function. So the rules of an
iteration (`AgentLoopRules`) read configuration, task, answers and log; the laws of a request's
timeouts (`ExecutionTimeoutLaws`) read the request; what the reader makes of a buffer (`McpReading`)
is told by its bytes.

What the outside world answers (storage, disk, git, agents, users, clocks) is input: a flag or a
record passed with the step. Nothing is assumed about it unless a theorem says so.

## Assumptions

- The log of the storage bridge is configured once, at boot, with empty queue and buffer
  (`src/nexus/createRuntime.ts:152-156`). A batch is appended to the file whole or not at all;
  the sync or the close after it may fail all the same.
  Operation ids are natural numbers. A crash keeps the log file and the store, and may fall
  between any two steps, also between the two disk writes of a compaction.
- While an agent loop runs, nobody else changes its task queue. A task's id is its position in the queue.
- Git commands report failure by their exit code and do not throw (`src/nexus/worktree.ts:85-113`), so
  stashing, rolling back and removing a worktree never throw (`src/nexus/worktree.ts:355-374`,
  `src/nexus/agentLoopWorktree.ts:26-74`); the handlers for that in the loop are not modelled.
- Bytes are characters with the same code; `trim` and `\s` mean ASCII white space. A payload on a
  line of its own starts with a brace, holds no newline and does not end in a carriage return,
  which is what `JSON.stringify` of an object gives. Content-Length bodies are arbitrary bytes.
- Timers read one clock and are never early; they may be late by any amount. The clock of an execution
  starts when its request is taken up; its watchdog is armed during its preparation, and its other timers
  when it is ready (`src/nexus/executeHttpRoute.ts:89-127`, `src/nexus/executionPreparation.ts:232-247`).
- Calls into the EverCore manager do not overlap, and a value's own `dispose` does not throw.
- The schema's bound that an extension is positive (`src/nexus/executionPreparation.ts:16-37`).

## What the proofs found

- **A failed attempt schedules no retry.** `src/nexus/storageBridge.ts:298` asks for a timer while
  the flush is still marked as running, so line 273 refuses it. The retry waits for the next
  enqueue, explicit flush or newly set storage (`FailedAttemptArmsNoTimer`).
- **Last write wins only while nothing is stale.** An operation given up after three attempts stays in
  the log and is stored by the next process, on top of newer writes (`LastWriteLost` is such a run). A
  crash and its replay leave the last write of a row exactly if the last replayed operation that writes
  it agrees with the last of all operations that does, or, where none is replayed, a record lost with the
  buffer is stored already (`RowWinsIff`, for any batch size, any failures and any crashes, as long as
  every crash since the row was last written anew met that condition; `WritesLastIff`, `LastWriteWinsIff`;
  `FirstCrashIff` for records written at once).
- **A flush that ends with an empty queue ends with a compaction**: one record is left in the file for each
  pending operation (`FlushEndsCompacted`), so none if the process has given nothing up (`NothingLeftPending`).
  Queued work always has a flush scheduled, unless its front has just failed (`WorkIsScheduled`).
- **An enqueued operation is durable at once exactly if** its record fills the batch and reaches the
  file, whatever the sync after it reports (`EnqueueSurvivesIff`).
- **A cancellation can be overwritten.** A session ends cancelled exactly if the cancellation of its last
  iteration came before the executor had returned, or while a failed execution was undone, or while the
  worktree of delegated work that could not be merged was cleaned up. During a review, a merge or a commit
  it is lost: the phase is set to `executing` afterwards (`CancelKept`, `Session.Run`, `KeptIffFinal`).
- **Approved work is refused exactly if its merge fails without a conflict**, as if the critic had
  rejected it; so it uses up one of the task's attempts (`AcceptedWorkEnds`, `Session.Run`).
- **Nothing gets past the critic** but the work of sub-agents, work whose executor waives the review, and
  everything under automatic approval (`NothingUnreviewed`); tasks complete in the order of their
  dependencies (`QueueKeepsOrder`, `Session.Run`).
- **An empty plan on an empty queue fails the session**: no task is claimable (`Session.Run`).
- **An optimizer whose worktree cannot be made runs in place without a stash** (`Session.Prepare`).
- **Lines that end in `\r\n`** are delivered under every chunking exactly if no blank line follows a line
  and those at the beginning come in pairs. A line read together with a blank line after it is lost, and
  so is one after an odd number of blank lines (`CrlfStreamIff`).
- **Open MCP requests survive a clean exit** of the server: only a non-zero code rejects them (`ExitSettlesIff`).
- **A near-timeout timer that is exactly on time warns exactly if** the execution took any time to prepare or
  the limit is a multiple of five milliseconds: its delay is rounded down and the threshold is not
  (`NearTimerOnTimeIff`).
- **The warning about too little room for extensions** (`src/nexus/executionPreparation.ts:151-154`)
  compares durations only. It misses exactly the executions whose preparation, once the watchdog is armed,
  takes longer than the room left (`WarningMissesIff`, `WholeScheduleIff`). Default budgets leave room
  exactly if that time and the extensions stay within two limits, or within 300000 ms (`DefaultRoomIff`);
  the comment that an extension can never outrun the watchdog (`src/nexus/executionPreparation.ts:32-36`)
  does not hold beyond that.
- **Shutting the EverCore manager down disposes a value under a lease exactly if** the shared entry is leased
  (`ShutDownDisposesUnderLeaseIff`); the first of its holders to release it then has it disposed a second
  time (`DisposedAgain`; `DisposedTwice` is the shortest run).
- The comment that eviction is only close to FIFO (`src/nexus/cacheHealth.ts:442-444`) is too modest:
  the window is exactly the last accepted ids.

## Model
| member | source | states |
|---|---|---|
| `WriteAheadLog.ReplayShape` | src/nexus/storageBridge.ts:407-434 | replaying any log leaves each id once, and only operations that were logged |
| `WriteAheadLog.ReplayCompacted` | src/nexus/storageBridge.ts:436-450 | a compacted log replays to the pending map it was written from, order included |
| `WriteAheadLog.ReapplyChangesNothing` | src/nexus/storageBridge.ts:436-459 | records already reflected in the pending map change nothing when applied a second time, which makes a new file under an unflushed buffer harmless |
| `WriteAheadLog.FlushedSound` | src/nexus/storageBridge.ts:358-388 | a flush, whether its write fails, succeeds, or is followed by a failing sync or close, keeps file plus buffer replaying to the pending map |
| `WriteAheadLog.LoggedSound` | src/nexus/storageBridge.ts:322-333 | logging a new id puts it at the end of the pending map and keeps the log sound |
| `WriteAheadLog.AckedSound` | src/nexus/storageBridge.ts:335-345 | an acknowledgement removes exactly its id, and an unknown id changes nothing |
| `WriteAheadLog.CompactedSound` | src/nexus/storageBridge.ts:436-475 | compaction keeps the log sound whether or not its flush or its rename succeeded |
| `WriteAheadLog.CompactionKeepsMeaning` | src/nexus/storageBridge.ts:436-475 | the old file behind a written flush, the new file, and the new file under a buffer whose flush failed all replay to the same pending map |
| `WriteAheadLog.ReopenedSound` | src/nexus/storageBridge.ts:131-162 | a new process starts with a sound log and an id counter above everything in the file |
| `WriteAheadLog.MaxIdOccurs` | src/nexus/storageBridge.ts:495-502 | the counter of a new process is the highest id of the file, or zero |
| `WriteAheadLog.FailedFlushIsRepeated` | src/nexus/storageBridge.ts:358-388 | a failed write keeps the whole buffer, the next one that succeeds writes all of it, and each write is counted once, as a flush or a failure |
| `StorageBridge.BootedSound` | src/nexus/storageBridge.ts:407-434 | after boot the queue is the replayed pending map, in order, without repeated ids |
| `StorageFlush.WorkIsScheduled` | src/nexus/storageBridge.ts:272-300 | in every run an idle bridge with storage and queued work has a flush scheduled, unless an attempt at its front has failed, and a flush that starts runs that front |
| `StorageFlush.ScheduledIff` | src/nexus/storageBridge.ts:272-279 | which steps arm and disarm the timer, and nothing else does |
| `StorageFlush.StorageDecides` | src/nexus/storageBridge.ts:104-109 | storage is what was last set; a flush starts, and an attempt is made, only with it |
| `StorageFlush.WaitsForStorage` | src/nexus/storageBridge.ts:131-162 | a new process does nothing with the store until storage is set |
| `StorageFlush.FlushEndsCompacted` | src/nexus/storageBridge.ts:312-319 | in every run a flush that ends with an empty queue ends by a rename; if that succeeded the file holds one record for each pending operation, in order, and if the write before it did the buffer is empty |
| `StorageFlush.FileGrowsWhileBusy` | src/nexus/storageBridge.ts:312-314 | with work left the file is only appended to |
| `StorageFlush.NothingLeftPending` | src/nexus/storageBridge.ts:335-345 | a process with nothing left to do and nothing given up has nothing pending, and its compacted file is empty |
| `StorageFlush.BufferBelowBatch` | src/nexus/storageBridge.ts:347-356 | with successful writes the buffer never holds a full batch, of one record at least |
| `StorageRuns.StepTodo` | src/nexus/storageBridge.ts:281-320 | every step conserves work: what was left and what came in is what finished and what is left, in order |
| `StorageRuns.StepLog` | src/nexus/storageBridge.ts:322-475 | what each step does to the pending map, and that a replaced log file replays to it |
| `StorageRuns.StepInOrder` | src/nexus/storageBridge.ts:227-240 | operations are taken on with fresh increasing ids and finished in that order |
| `StorageRuns.StepSound` | src/nexus/storageBridge.ts:322-388 | every step keeps log, ids and queue consistent |
| `StorageRuns.StepBlock` | src/nexus/storageBridge.ts:286-310 | an attempt belongs to the operation at the front, and only that one has been tried, fewer than three times |
| `StorageRuns.StepPending` | src/nexus/storageBridge.ts:335-345 | an operation leaves the pending map only after a successful run |
| `StorageRuns.StepKept` | src/nexus/storageBridge.ts:286-311 | what reached the log file is acknowledged or still replayed, after every step and every crash |
| `StorageRuns.LogReplaysToPending` | src/nexus/storageBridge.ts:322-434 | in every reachable state file plus buffer replay to the pending map, order included, and the next id is new |
| `StorageRuns.AttemptsComeInBlocks` | src/nexus/storageBridge.ts:281-320 | the attempts of a process are one to three of its first operation, then of its second, and so on, and the counters add up to what was taken on |
| `StorageRuns.EveryAttemptCounts` | src/nexus/storageBridge.ts:286-300 | every attempt of a process is counted as a success or a failure, but for the one under way |
| `StorageRuns.EffectRows` | src/nexus/storageBridge.ts:257-270 | which rows an operation writes: a task its own; a session its own, one for each saved event and one for the appended event |
| `StorageRuns.GivenUpPending` | src/nexus/storageBridge.ts:301-306 | an operation given up is still pending and never counted as acknowledged |
| `StorageRuns.DurableOperationsSurvive` | src/nexus/storageBridge.ts:286-345 | for any batch size and any run, a durable operation has succeeded or is queued by the next process, and so is one that was given up |
| `StorageRecovery.PartialWrite` | src/nexus/storageBridge.ts:257-270 | a run cut short half-way through its writes is absorbed by running the operation again |
| `StorageRecovery.StepFold` | src/nexus/storageBridge.ts:257-320 | each step keeps: finishing the work left gives the fold of all operations in order |
| `StorageRecovery.StoreIsTheFoldOfEverything` | src/nexus/storageBridge.ts:257-320 | with or without a log and through any number of crashes, with nothing given up and no record lost in the buffer, an idle store is the fold of all operations ever enqueued (with a log, `StorageReplay.LastWriteWinsIff` gives the exact condition) |
| `StorageRecovery.CrashAtAnyMoment` | src/nexus/storageBridge.ts:281-434 | with batch size one and successful log writes a crash at any moment leaves exactly the work that was left, the running operation first, and its completion gives the fold of everything |
| `StorageRecovery.EnqueueSurvivesIff` | src/nexus/storageBridge.ts:347-388 | an operation outlives an immediate crash exactly if its record filled the batch and reached the file |
| `StorageRecovery.FailedAttemptArmsNoTimer` | src/nexus/storageBridge.ts:272-300 | a failed attempt leaves the operation first and arms no timer of its own |
| `StorageRecovery.GivingUpLosesNothingIff` | src/nexus/storageBridge.ts:301-306 | without a crash, giving an operation up leaves its process on the way to the right store exactly if all it writes is overwritten by the rest of the queue or stored already |
| `StorageReplay.WritesLastIff` | src/nexus/storageBridge.ts:257-270 | in terms of operations: the last operation that writes a row agrees on it with the last of all operations that does |
| `StorageReplay.RowIff` | src/nexus/storageBridge.ts:257-270 | carrying operations out gives a row the value that all operations in order give it, exactly if they write it last as it was to be written last, or do not write it and it is stored |
| `StorageReplay.StepRow` | src/nexus/storageBridge.ts:281-345 | every step but a crash keeps of each row: it holds its last write unless a pending operation writes it, and the work left writes it last as it was to be written last; a new write of the row restores this |
| `StorageReplay.CrashIff` | src/nexus/storageBridge.ts:407-434 | a crash and its replay leave the last write of a row exactly if it is not stale, and then keep that invariant |
| `StorageReplay.CompletedIff` | src/nexus/storageBridge.ts:281-320 | the process itself leaves the last write of a row exactly if what it gave up of the row, and does not write again, is stored already |
| `StorageReplay.RowWinsIff` | src/nexus/storageBridge.ts:257-434 | both conditions for any row, in every run whose crashes found the row in order since an operation that writes it was last taken on: any batch size, any failed log writes, any number of operations given up, any number of crashes |
| `StorageReplay.LastWriteWinsIff` | src/nexus/storageBridge.ts:257-434 | the same for all rows together |
| `StorageReplay.FirstCrashIff` | src/nexus/storageBridge.ts:281-434 | with batch size one and successful log writes, the first crash leaves the last write of every row exactly if the pending map, given-up operations included, writes last what was logged last |
| `StorageLastWrite.LastWriteLost` | src/nexus/storageBridge.ts:301-311 | a run with successful log writes after which the store holds the older of two writes to one task |
| `StorageBridgeProcess.Process.constructor` | src/nexus/storageBridge.ts:131-162 | configuring the log and replaying it gives the booted state |
| `StorageBridgeProcess.Process.ReplayWal` | src/nexus/storageBridge.ts:407-434 | the loop over the file gives the replayed map and the highest id, and queues the map |
| `StorageBridgeProcess.Process.RequeuePending` | src/nexus/storageBridge.ts:431-440 | every pending operation is queued once, in order, with no attempts |
| `StorageBridgeProcess.Process.FlushWalBuffer` | src/nexus/storageBridge.ts:358-388 | the whole state after a flush, for each of its three outcomes |
| `StorageBridgeProcess.Process.AppendWalRecord` | src/nexus/storageBridge.ts:347-356 | a record is buffered, and a full batch is flushed |
| `StorageBridgeProcess.Process.AppendWalOperation` | src/nexus/storageBridge.ts:322-333 | an operation is logged and pending, with a log |
| `StorageBridgeProcess.Process.AppendWalAck` | src/nexus/storageBridge.ts:335-345 | only a pending id is acknowledged |
| `StorageBridgeProcess.Process.ScheduleFlush` | src/nexus/storageBridge.ts:272-279 | a timer is armed only with storage, without another timer and while no flush runs |
| `StorageBridgeProcess.Process.EnqueueOperation` | src/nexus/storageBridge.ts:227-234 | the whole state after an enqueue: fresh id, logged, queued last, and the timer armed on an idle bridge with storage |
| `StorageBridgeProcess.Process.CompactWal` | src/nexus/storageBridge.ts:436-475 | the whole state after a compaction, for every outcome of its two writes; after a rename that succeeded the file holds one record for each pending operation |
| `StorageBridgeProcess.Process.Drain` | src/nexus/storageBridge.ts:285-319 | from the head of the loop to the next suspension or the end; if it ends with an empty queue it has compacted the log |
| `StorageBridgeProcess.Process.FlushQueue` | src/nexus/storageBridge.ts:281-319 | a flush starts only if none runs and storage is attached, and if it ends with an empty queue it has compacted the log |
| `StorageBridgeProcess.Process.FireTimer` | src/nexus/storageBridge.ts:274-277 | the timer clears itself and flushes, with a compaction if the queue is empty |
| `StorageBridgeProcess.Process.SetNexusStorage` | src/nexus/storageBridge.ts:104-109 | storage is as set, and attaching it to an idle bridge arms the timer |
| `StorageBridgeProcess.Process.RetryOrGiveUp` | src/nexus/storageBridge.ts:293-306 | back to the front before the third failure, given up with it |
| `StorageBridgeProcess.Process.Resume` | src/nexus/storageBridge.ts:288-319 | what follows the end of a run, stored or thrown, up to the next suspension, or to the end with a compaction |
| `StorageBridgeCalls.RunBridge` | src/nexus/storageBridge.ts:227-475 | the bridge of a system runs by itself, without store and history |
| `StorageBridgeCalls.DrainedRun` | src/nexus/storageBridge.ts:285-319 | the stretch from the head of the loop to its next suspension or end is the run of three steps, with a crash possible between any two |
| `StorageBridgeCalls.Perform` | src/nexus/storageBridge.ts:104-388 | every call of a process changes it as a run of listed steps changes the bridge of any system, so what holds of all runs holds of all calls |
| `StorageBridgeCalls.Restart` | src/nexus/storageBridge.ts:131-162 | a process started on the file of another is that one after a crash |
| `TaskQueue.Queue.Create` | src/nexus/taskQueue.ts:50-85 | a new task gets the next id and goes to the end |
| `TaskQueue.Queue.Claim` | src/nexus/taskQueue.ts:160-196 | the first task that is pending, unowned and has all it depends on completed is in progress and owned; without one nothing changes |
| `TaskQueue.Queue.Complete` | src/nexus/taskQueue.ts:198-247 | completes the task and unblocks exactly the tasks whose dependencies are now all completed |
| `TaskQueue.Queue.Update` | src/nexus/taskQueue.ts:111-158 | replaces the task, and if it failed exactly those that wait for it, directly or not, fail too |
| `TaskQueue.Queue.PropagateFailures` | src/nexus/taskQueue.ts:414-447 | the loop fails exactly the open tasks that wait, directly or not, for a failed one |
| `TaskQueue.Queue.CreateSubTasks` | src/nexus/taskQueue.ts:249-299 | new pending tasks at the end, and the parent blocked and unowned, depending on what it did and on all of them, each once |
| `TaskQueue.SpreadDone` | src/nexus/taskQueue.ts:414-447 | once a pass finds nothing to fail, everything doomed has failed |
| `TaskQueue.WithoutRepeats` | src/nexus/taskQueue.ts:290-290 | the dependencies as a set: the same elements, none twice |
| `TaskQueue.FirstOccurrences` | src/nexus/taskQueue.ts:290-290 | they come in order of insertion |
| `TaskQueue.NewTaskIsFresh` | src/nexus/taskQueue.ts:50-85 | a new task is pending, or blocked if it depends on any other, unowned and never tried |
| `TaskQueue.ReadyIsClaimable` | src/nexus/taskQueue.ts:384-394 | a task can be claimed exactly if it is pending, unowned and everything it depends on is in the queue and completed |
| `TaskQueue.UnblockedCompletes` | src/nexus/taskQueue.ts:396-412 | after a completion a blocked task is pending exactly if nothing it depends on is open |
| `TaskQueue.WaitingHandsOver` | src/nexus/taskQueue.ts:249-299 | a parent depends on its new tasks and on what it depended on before, and on nothing else |
| `TaskQueue.SpreadFailsWaiting` | src/nexus/taskQueue.ts:414-447 | only open tasks fail with another, each for one it depends on, and none is left that depends on a failed one |
| `AgentLoop.PotentialNew` | src/nexus/agentLoop.ts:335-346 | planned tasks add at most max(1, maxRetries) attempts each to those the queue has left |
| `AgentLoop.PotentialZero` | src/nexus/agentLoop.ts:351-357 | with no attempts left the queue is settled |
| `AgentLoop.GoodAt` | src/nexus/agentLoop.ts:350-960 | every event of a good log was justified by the events before it |
| `AgentLoopRun.Session.TryStash` | src/nexus/agentLoop.ts:420-427 | stashes only if nothing is stashed, and remembers whether it did |
| `AgentLoopRun.Session.RequireApproval` | src/nexus/agentLoopWorktree.ts:76-103 | passes exactly if in-place work is allowed or confirmed, and records which |
| `AgentLoopRun.Session.Prepare` | src/nexus/agentLoop.ts:383-428 | whether the task gets a worktree, whether it needs approval, that without either it throws, and what is recorded of it |
| `AgentLoopRun.Session.WorkInPlace` | src/nexus/agentLoop.ts:411-428 | in-place work of an optimizer is approved, and then what was there is stashed, once |
| `AgentLoopRun.Session.Execute` | src/nexus/agentLoop.ts:439-695 | what the executor or sub-session gives back, and when hooks throw |
| `AgentLoopRun.Session.Attempt` | src/nexus/agentLoop.ts:376-695 | an iteration until its executor has returned: when it throws, where it works, and what it has recorded |
| `AgentLoopRun.Session.RecordConflict` | src/nexus/agentLoop.ts:962-1003 | the task failed and awaits recovery, failures spread, the session waits for the user |
| `AgentLoopRun.Session.MergeTree` | src/nexus/agentLoop.ts:781-812 | merge and removal, or a conflict that keeps the worktree, or an error that changes nothing |
| `AgentLoopRun.Session.CompleteTask` | src/nexus/agentLoop.ts:834-842 | a task completes only with accepted and, if isolated, merged work that was not rolled back |
| `AgentLoopRun.Session.RejectTask` | src/nexus/agentLoop.ts:868-882 | one more retry counted, failed at the limit, and fewer attempts left; accepted work only if its merge failed |
| `AgentLoopRun.Session.Undo` | src/nexus/agentLoop.ts:886-906 | worktree removed, or changes rolled back, and nothing else |
| `AgentLoopRun.Session.HandBack` | src/nexus/agentLoop.ts:886-931 | undone and handed back, for a failed execution and for a refused one |
| `AgentLoopRun.Session.Split` | src/nexus/agentLoop.ts:1037-1051 | delegation to new tasks only with sub-agents enabled and a successful execution |
| `AgentLoopRun.Session.HandOver` | src/nexus/agentLoop.ts:697-739 | work is delegated and, if it was isolated, merged, with exactly these events |
| `AgentLoopRun.Session.MergeHandedOver` | src/nexus/agentLoop.ts:697-739 | the merge of delegated work: a conflict awaits recovery, an error leaves the queue as it is |
| `AgentLoopRun.Session.Delegate` | src/nexus/agentLoop.ts:697-739 | delegated work is merged if it can be, a conflict ends the loop, an error does not |
| `AgentLoopRun.Session.Review` | src/nexus/agentLoop.ts:741-779 | approved exactly if no review is needed, approval is automatic, or the critic approves without throwing |
| `AgentLoopRun.Session.Accept` | src/nexus/agentLoop.ts:781-844 | approved work is merged or committed and its task completed, or the merge refuses it |
| `AgentLoopRun.Session.Commit` | src/nexus/agentLoop.ts:815-832 | only work in place of an optimizer is committed |
| `AgentLoopRun.Session.Finish` | src/nexus/agentLoop.ts:814-843 | committed if need be, then completed |
| `AgentLoopRun.Session.Conclude` | src/nexus/agentLoop.ts:781-885 | completion or rejection follows the approval and the merge, as `EndingOf` says |
| `AgentLoopRun.Session.Resolve` | src/nexus/agentLoop.ts:697-885 | what follows a successful execution, for queue, log and phase |
| `AgentLoopRun.Session.Follow` | src/nexus/agentLoop.ts:694-931 | what follows any execution, cancelled ones included |
| `AgentLoopRun.Session.Turn` | src/nexus/agentLoop.ts:376-931 | an iteration ends as `TurnOf` says of its answers, leaves a worktree over exactly as `LeftOver` says, and has that effect on queue, log and phase |
| `AgentLoopRun.Session.Cleanup` | src/nexus/agentLoop.ts:932-940 | a worktree left over is removed once more |
| `AgentLoopRun.Session.Iterate` | src/nexus/agentLoop.ts:370-948 | one iteration keeps all rules for its log, its queue and its phase; without an approving critic, a waived review or automatic approval no task is completed but a sub-agent's; its worktree had a removal attempted or a conflict recorded, and without delegation the attempts left decrease |
| `AgentLoopRun.Session.ClaimNext` | src/nexus/agentLoop.ts:359-372 | claims and records the first claimable task |
| `AgentLoopRun.Session.TakeTurn` | src/nexus/agentLoop.ts:350-945 | one turn of the loop: a task claimed and worked on with fewer attempts left after it, or none claimable and the session failed |
| `AgentLoopRun.Session.Work` | src/nexus/agentLoop.ts:350-945 | every iteration keeps the rules; without sub-agents the loop ends within the attempts the queue allows; it ends cancelled exactly if its last iteration kept a cancellation; accepted work is completed, delegated, in conflict or refused as the log shows |
| `AgentLoopRun.Session.PopStash` | src/nexus/agentLoop.ts:948-957 | the stash is popped, last of all |
| `AgentLoopRun.Session.CreateTasks` | src/nexus/agentLoop.ts:335-346 | one task for each planned one, in order, behind those the queue has |
| `AgentLoopRun.Session.Run` | src/nexus/agentLoop.ts:270-960 | a whole session, on any queue: every iteration keeps the rules, nothing gets past the critic, tasks complete in the order of their dependencies; completed exactly if all tasks are, cancelled exactly if the plan was rejected or the last iteration kept a cancellation, accepted work refused exactly if its merge failed without a conflict, every worktree closed, the stash popped exactly if one was made, and without sub-agents at most as many iterations as the queue's tasks have attempts left plus max(1, maxRetries) per planned task |
| `AgentLoopTurn.AfterTurn` | src/nexus/agentLoop.ts:351-353 | which endings go on and which end the session, and in which phase |
| `AgentLoopTurn.KeptIffFinal` | src/nexus/agentLoop.ts:694-940 | what an iteration's answers make of a cancellation, its `finally` included, agrees with what its log shows: which worktree, which result, which merge |
| `AgentLoopTurn.LedgerNext` | src/nexus/agentLoop.ts:351-353 | what the log shows of earlier iterations stays true: none of them kept a cancellation, and their accepted work ended as it should |
| `AgentLoopTurn.RejectionMatches` | src/nexus/agentLoop.ts:868-882 | a rejection keeps the retry counts equal to the rejections logged, and uses up one of the task's attempts |
| `AgentLoopRules.IterationRules` | src/nexus/agentLoop.ts:370-940 | by configuration, task and answers alone: when a worktree is made, approval asked and given, the executor started and what it returned, work handed over, the critic asked, merged, committed, rolled back, and the task completed or given back; a missing answer about review means yes |
| `AgentLoopRules.QueueKeepsRules` | src/nexus/agentLoop.ts:697-931 | what each ending does to the queue, field by field: a task given back counts one more retry and fails with the last of them or with a cancelled sub-session |
| `AgentLoopRules.PhaseKeepsRules` | src/nexus/agentLoop.ts:694-948 | an iteration that throws fails the session, a conflict waits for the user, a kept cancellation cancels it, and any other goes on executing |
| `AgentLoopRules.UnapprovedIsNotCompleted` | src/nexus/agentLoop.ts:741-779 | an executor's work completes no task without a waived review, automatic approval or an approving critic |
| `AgentLoopRules.NothingUnreviewed` | src/nexus/agentLoop.ts:741-843 | the same for all iterations of a session |
| `AgentLoopRules.RuledNext` | src/nexus/agentLoop.ts:350-372 | what the rules said of earlier iterations stays true as log and queue grow |
| `AgentLoopRules.QueueKeepsOrder` | src/nexus/taskQueue.ts:384-412 | whatever an iteration does, all that is under way or completed has everything it depends on completed |
| `AgentLoopSafety.CompletedIsAccepted` | src/nexus/agentLoop.ts:741-843 | in every session log a completed task was claimed, accepted and, if isolated, merged in the same iteration |
| `AgentLoopSafety.CompletedSession` | src/nexus/agentLoop.ts:943-945 | a session that ends completed has had every task accepted that was not completed before |
| `AgentLoopSafety.GivenBackAtMost` | src/nexus/agentLoop.ts:868-882 | no task is given back more often than it has attempts left at the start, or a new one has, once at the least |
| `AgentLoopSafety.OptimizerWasApproved` | src/nexus/agentLoop.ts:411-428 | an optimizer works on a git workspace in place only with an approval of that iteration |
| `AgentLoopSafety.TreeBeforeStart` | src/nexus/agentLoop.ts:383-410 | a worktree is made before the work of its iteration starts |
| `AgentLoopSafety.ConflictKeepsTree` | src/nexus/agentLoop.ts:798-808 | after a merge conflict the worktree is never removed and the loop does nothing more |
| `AgentLoopSafety.OneStashOnePop` | src/nexus/agentLoop.ts:420-427 | one successful stash at most, popped at most once and only after it was made |
| `AgentLoopSafety.AcceptedWorkEnds` | src/nexus/agentLoop.ts:697-885 | accepted work that is not cancelled is completed exactly if it is not delegated and, if isolated, merged; it is refused exactly if it was isolated, is not delegated, and its merge failed without a conflict |
| `AgentLoopSafety.RefusedThoughAccepted` | src/nexus/agentLoop.ts:797-882 | work that is refused although it was accepted was isolated, and is never merged or completed in its iteration |
| `LcsDiff.ComputeLcs` | src/cli/diffLcs.ts:6-37 | the diff reproduces both inputs, keeps a longest common subsequence, is a shortest script, puts removals before additions, and of all such scripts is the one that keeps equal lines wherever the walk back meets them |
| `LcsDiff.ScriptIsUnique` | src/cli/diffLcs.ts:21-36 | there is only one script that is chosen like that |
| `LcsDiff.FillTable` | src/cli/diffLcs.ts:9-19 | the table holds the recurrence's value for all prefixes |
| `LcsDiff.FillRow` | src/cli/diffLcs.ts:12-18 | one row extends the table by one prefix of the old lines |
| `LcsDiff.LcsBounds` | src/cli/diffLcs.ts:11-19 | no common subsequence of two prefixes is longer than their table entry |
| `LcsDiff.CommonLines` | src/cli/diffLcs.ts:21-36 | the common lines of any script are a common subsequence of its inputs |
| `LcsDiff.NoShorterScript` | src/cli/diffLcs.ts:9-36 | every edit script changes at least m + n - 2 LCS lines |
| `McpFraming.DecimalRoundTrip` | src/mcp/McpClient.ts:164-169 | the decimal number a header carries is read back as it was written |
| `McpFraming.Reader.OnData` | src/mcp/McpClient.ts:150-177 | the loop over the buffer delivers exactly what parsing the old buffer and the chunk gives, and keeps the rest |
| `McpReading.DecimalIsWorth` | src/mcp/McpClient.ts:198-203 | a length is printed in decimal figures that stand for it, without leading zeros |
| `McpReading.SerializedAs` | src/mcp/McpClient.ts:198-203 | the exact bytes the client writes, in both framings |
| `McpReading.ContentLengthIs` | src/mcp/McpClient.ts:163-169 | in any header the length read is that of the first length field, in any case of letters, after other fields and blanks or not |
| `McpReading.ReadsLine` | src/mcp/McpClient.ts:205-213 | from any buffer the first line is read exactly if it begins, after blanks, with a brace and no blank line comes before its end |
| `McpReading.ReadsFrame` | src/mcp/McpClient.ts:158-176 | otherwise what follows the first blank line, with carriage returns or without, is read as a body of the header's length once it is all there, and a header without a length is dropped |
| `McpReading.ReadsNothing` | src/mcp/McpClient.ts:158-163 | without a blank line the reader waits |
| `McpRoundTrip.HeaderLength` | src/mcp/McpClient.ts:163-169 | the header search finds the length that was printed |
| `McpRoundTrip.FrameRead` | src/mcp/McpClient.ts:150-213 | a complete frame at the front is read as its payload, whatever follows |
| `McpRoundTrip.FrameWaits` | src/mcp/McpClient.ts:150-213 | an incomplete frame is not taken for anything else |
| `McpRoundTrip.PieceRead` | src/mcp/McpClient.ts:150-177 | any beginning of a stream delivers its complete frames and keeps the beginning of the next |
| `McpRoundTrip.RoundTrip` | src/mcp/McpClient.ts:150-213 | any payloads, each framed in either of the client's ways or as a line with a carriage return, cut into any chunks, arrive in order with an empty buffer at the end |
| `McpRoundTrip.CrlfLineRead` | src/mcp/McpClient.ts:205-213 | a line that ends in a carriage return and a newline is read as its payload exactly if no second such pair follows it in the buffer |
| `McpCrlfLines.StreamThen` | src/mcp/McpClient.ts:150-177 | what follows a stream in the same read is parsed after all of it has been delivered |
| `McpCrlfLines.DeliveredWeight` | src/mcp/McpClient.ts:150-213 | whatever bytes are read, messages that could be lines are together no longer than what the bytes hold besides line ends |
| `McpCrlfLines.Delivered` | src/mcp/McpClient.ts:150-213 | blank lines in pairs at the beginning, and then lines, are delivered wherever the chunks are cut |
| `McpCrlfLines.NotDelivered` | src/mcp/McpClient.ts:150-213 | with blank lines anywhere else, one read of the whole loses a line |
| `McpCrlfLines.LastLineLost` | src/mcp/McpClient.ts:158-175 | a line and a blank line in one read: the line is taken for a header and not delivered |
| `McpCrlfLines.CrlfStreamIff` | src/mcp/McpClient.ts:150-213 | lines with carriage returns, and blank lines anywhere among them, are delivered under every chunking exactly if no blank line follows a line and those at the beginning come in pairs, or there are only blank ones |
| `McpRequests.StepSound` | src/mcp/McpClient.ts:116-196 | every step keeps each request made either open or settled, and what is settled unchanged |
| `McpRequests.EveryRequest` | src/mcp/McpClient.ts:116-196 | in every run no request is lost or settled twice |
| `McpRequests.AnswersTheirOwn` | src/mcp/McpClient.ts:179-189 | an answer settles its own open request and no other |
| `McpRequests.StepSettles` | src/mcp/McpClient.ts:59-63 | which step ends an open request, and how: an answer as it is, a failed write, an error of the child, an exit with a code and the end of a shutdown each by rejecting it |
| `McpRequests.SettledWhy` | src/mcp/McpClient.ts:116-196 | in every run a request has ended as the one step says that found it open |
| `McpRequests.ResolvedWasAnswered` | src/mcp/McpClient.ts:179-189 | in every run a request is resolved only if an answer with that result arrived for it while it was open |
| `McpRequests.RequestOpens` | src/mcp/McpClient.ts:116-136 | a request of a connected client is opened last under a new id, and without a connection none is |
| `McpRequests.FirstShutdown` | src/mcp/McpClient.ts:93-106 | the first shutdown asks if the client is connected, and is over at once if not |
| `McpRequests.ShutdownAsksOnce` | src/mcp/McpClient.ts:93-97 | in every run later shutdowns change nothing |
| `McpRequests.ExitSettlesIff` | src/mcp/McpClient.ts:59-63 | an exit settles the open requests exactly if its code is not zero |
| `McpRequests.Client.Request` | src/mcp/McpClient.ts:116-136 | a request gets an id never used before, and is open last |
| `McpRequests.Client.FailWrite` | src/mcp/McpClient.ts:130-134 | a failed write rejects its request for that reason, without touching an earlier answer |
| `McpRequests.Client.HandleMessage` | src/mcp/McpClient.ts:179-189 | an answer settles the open request with its id as it says; messages without an id, or with one that is not open, change nothing |
| `McpRequests.Client.RejectAll` | src/mcp/McpClient.ts:191-196 | the loop rejects every open request for the reason given, closes all, and leaves what was settled |
| `McpRequests.Client.OnExit` | src/mcp/McpClient.ts:59-63 | an exit with a code rejects every open request, a clean one changes nothing |
| `McpRequests.ShutdownSettlesAll` | src/mcp/McpClient.ts:99-114 | when a shutdown is over every request made before is settled |
| `McpRequests.Client.BeginShutdown` | src/mcp/McpClient.ts:93-106 | the first shutdown of a connected client makes one last request, later ones nothing |
| `McpRequests.Client.EndShutdown` | src/mcp/McpClient.ts:109-113 | then what is open is rejected, as shutting down, and the client disconnects |
| `ExecutionTimeouts.BudgetIsNew` | src/nexus/executionTimeoutEvents.ts:270-271 | whenever the cycle fires its budget has not been reported, so the check for duplicates never strikes |
| `ExecutionTimeouts.FiredCycle` | src/nexus/executionTimeoutEvents.ts:170-181 | each firing adds the next event of the schedule, no earlier than its budget |
| `ExecutionTimeouts.WentOnCycle` | src/nexus/executionTimeoutEvents.ts:182-204 | each continuation adds the next extension, stops, or arms the next timer |
| `ExecutionTimeouts.StepCycle` | src/nexus/executionTimeoutEvents.ts:153-217 | no step of any writer disturbs the cycle's schedule |
| `ExecutionTimeouts.StepSound` | src/nexus/executionTimeoutEvents.ts:110-217 | every step keeps array and storage calls equal, one warning at most, and error reports right |
| `ExecutionTimeouts.EveryExecution` | src/nexus/executionTimeoutEvents.ts:110-308 | under any interleaving: storage calls equal the array, at most one warning, cycle events a beginning of the schedule, and watchdog errors count the cycle events before them |
| `ExecutionTimeouts.UndisturbedRun` | src/nexus/executionTimeoutEvents.ts:153-211 | with timers on time the k-th extension ends exactly at its budget, counted from when the execution was ready |
| `ExecutionTimeouts.WholeScheduleIff` | src/nexus/executionPreparation.ts:146-154 | the whole schedule can be reported before the watchdog is due exactly if it fits, the time from arming the watchdog to starting the cycle included |
| `ExecutionTimeouts.WarningMissesIff` | src/nexus/executionPreparation.ts:146-154 | the logged warning misses exactly the executions prepared for longer, once the watchdog is armed, than the room left; it never warns of one that fits |
| `ExecutionTimeouts.DefaultRoomIff` | src/nexus/executionPreparation.ts:135-162 | when default budgets fit the whole schedule, for any instants of arming and readiness |
| `ExecutionTimeouts.NearTimerOnTimeIff` | src/nexus/executionTimeoutEvents.ts:105-151 | a warning timer that is on time warns exactly if the preparation took time or the limit is a multiple of five |
| `ExecutionTimeouts.QuietAfterCancel` | src/nexus/executionTimeoutEvents.ts:55-61 | after the cancellation no step adds an event |
| `ExecutionTimeoutLaws.DecisionFollowsRequest` | src/nexus/executionPreparation.ts:135-162 | every field a request gives is honoured; a fatal one without a watchdog is cut off at its limit and never extended, and what else is missing follows from the limit |
| `ExecutionTimeoutLaws.WatchdogOnRequest` | src/nexus/executionPreparation.ts:232-247 | in every run of a request its watchdog fires from its time after arming on, and not before, unless it has fired or the execution is over |
| `ExecutionTimeoutLaws.FatalIsFinal` | src/nexus/executionTimeoutEvents.ts:34-49 | in every run of a fatal request no budget is reported, no extension granted and no timeout told apart |
| `ExecutionTimeoutLaws.OneEvent` | src/nexus/executionStreamLoop.ts:42-75 | one event of the runtime: stored, its cache health after it, then a warning if one is due; and whether the loop reads on |
| `ExecutionTimeoutLaws.AfterWrite` | src/nexus/executionStreamLoop.ts:54-75 | after a write that fails the loop is done, after its warning it goes on unless the event was the last |
| `ExecutionTimeoutLaws.DoneStaysDone` | src/nexus/executionStreamLoop.ts:33-76 | a loop that is done reads nothing more |
| `ExecutionTimeoutLaws.NearTimerWarns` | src/nexus/executionTimeoutEvents.ts:134-151 | the near-timeout timer warns exactly if four fifths of the budget are used up, there is evidence and no warning yet, and is spent |
| `ExecutionTimeoutLaws.WarningsHaveEvidence` | src/nexus/executionTimeoutEvents.ts:110-132 | in every run every warning comes after evidence |
| `ExecutionTimeoutLaws.NoTimerIsEarly` | src/nexus/executionTimeoutEvents.ts:134-180 | no timer does anything before it is due or when it is not armed |
| `ExecutionTimeoutLaws.CycleEndsIff` | src/nexus/executionTimeoutEvents.ts:170-204 | the cycle ends when a write fails, when it is cancelled and with its last budget; otherwise it goes on with an extension and a timer for it |
| `ExecutionTimeoutLaws.CycleStaysOver` | src/nexus/executionTimeoutEvents.ts:170-217 | once it has ended none of its events is added any more |
| `ExecutionTimeoutControls.Execution.constructor` | src/nexus/executeHttpRoute.ts:89-127 | request taken up, watchdog armed in preparation, other timers armed when ready; the decision honours the request |
| `ExecutionTimeoutControls.Execution.AppendNearTimeoutWarning` | src/nexus/executionTimeoutEvents.ts:110-132 | warns exactly if not warned before, near the limit and with evidence |
| `ExecutionTimeoutControls.Execution.FireNearTimer` | src/nexus/executionTimeoutEvents.ts:134-151 | the timer's step |
| `ExecutionTimeoutControls.Execution.Fire` | src/nexus/executionTimeoutEvents.ts:170-181 | the first stretch of a firing |
| `ExecutionTimeoutControls.Execution.GoOn` | src/nexus/executionTimeoutEvents.ts:182-204 | the stretches after its suspensions |
| `ExecutionTimeoutControls.Execution.FireWatchdog` | src/nexus/executionPreparation.ts:232-247 | the watchdog marks itself as fired |
| `ExecutionTimeoutControls.Execution.ProcessEvent` | src/nexus/executionEventProcessing.ts:16-35 | an event is decorated, pushed and stored |
| `ExecutionTimeoutControls.Execution.ContinueStream` | src/nexus/executionStreamLoop.ts:54-83 | the stream loop after a suspension |
| `ExecutionTimeoutControls.Execution.CancelTimers` | src/nexus/executionTimeoutEvents.ts:55-61 | all timers are stopped |
| `EverCoreRuntime.AcquiredSound` | src/nexus/everCoreRuntimeManager.ts:37-59 | acquiring keeps counts equal to leases, for shared, replaced and uncached entries |
| `EverCoreRuntime.AcquireLeases` | src/nexus/everCoreRuntimeManager.ts:37-59 | an acquire leases the current entry exactly if that has its key and can be shared, and otherwise a new one with its key, unless the configuration throws |
| `EverCoreRuntime.LeasedKey` | src/nexus/everCoreRuntimeManager.ts:37-59 | in every run whoever acquired with a key holds a lease on an entry configured for it |
| `EverCoreRuntime.MakesWayIffUnused` | src/nexus/everCoreRuntimeManager.ts:44-59 | an entry that cannot be shared is disposed and replaced exactly if nobody uses it, even if the new configuration throws |
| `EverCoreRuntime.AcquiredAgain` | src/nexus/everCoreRuntimeManager.ts:39-43 | a second acquire with the same key shares the value of the first |
| `EverCoreRuntime.ReleasedSound` | src/nexus/everCoreRuntimeManager.ts:75-108 | releasing, once or again, keeps them too |
| `EverCoreRuntime.LastReleaseDisposes` | src/nexus/everCoreRuntimeManager.ts:80-108 | the last release disposes a value of one's own at once, and the shared one at once without an idle time, and else arms its timer |
| `EverCoreRuntime.OtherReleases` | src/nexus/everCoreRuntimeManager.ts:80-86 | an earlier release and a repeated one dispose nothing |
| `EverCoreRuntime.ExpiredSound` | src/nexus/everCoreRuntimeManager.ts:110-114 | a timer disposes only what nobody uses |
| `EverCoreRuntime.TimerDisposes` | src/nexus/everCoreRuntimeManager.ts:110-114 | a timer that fires is that of the shared value, disposes it and forgets it |
| `EverCoreRuntime.NoIdleTimers` | src/nexus/everCoreRuntimeManager.ts:98-103 | without an idle time no timer is ever armed |
| `EverCoreRuntime.ShutDownSoundIff` | src/nexus/everCoreRuntimeManager.ts:68-73 | shutting down keeps counts and disposals in order exactly if the shared entry is not leased |
| `EverCoreRuntime.ShutDownDisposesUnderLeaseIff` | src/nexus/everCoreRuntimeManager.ts:68-73 | shutting down disposes a value that somebody holds a lease on exactly if the shared entry is leased |
| `EverCoreRuntime.DisposedAgain` | src/nexus/everCoreRuntimeManager.ts:68-126 | the first holder to release it then has it disposed a second time, at once or when its timer fires |
| `EverCoreRuntime.DisposedTwice` | src/nexus/everCoreRuntimeManager.ts:68-126 | acquire, shut down, release: one value, disposed twice |
| `EverCoreRuntime.EveryRun` | src/nexus/everCoreRuntimeManager.ts:37-126 | in every run counts are exact, shared leases share one value, nothing is disposed under a lease or twice, and once all is released and timers have fired everything has been disposed |
| `EverCoreRuntimeManager.RuntimeManager.Acquire` | src/nexus/everCoreRuntimeManager.ts:37-59 | the whole state after an acquire, when there is no lease, that the entry leased has the key, and that the current one is leased if it has the key and can be shared |
| `EverCoreRuntimeManager.RuntimeManager.Release` | src/nexus/everCoreRuntimeManager.ts:80-90 | the whole state after a release |
| `EverCoreRuntimeManager.RuntimeManager.ScheduleIdleDispose` | src/nexus/everCoreRuntimeManager.ts:98-108 | a timer, or disposal at once if there is no idle time |
| `EverCoreRuntimeManager.RuntimeManager.DisposeIdleEntry` | src/nexus/everCoreRuntimeManager.ts:110-114 | an entry in use is left alone, an unused one disposed and forgotten |
| `EverCoreRuntimeManager.RuntimeManager.DisposeEntry` | src/nexus/everCoreRuntimeManager.ts:122-126 | timer cancelled, count cleared, value disposed once |
| `EverCoreRuntimeManager.RuntimeManager.Shutdown` | src/nexus/everCoreRuntimeManager.ts:68-73 | the whole state after a shutdown, and that it disposes under a lease exactly if the shared entry is leased |
| `CacheHealthDedup.RepeatsAreFarApart` | src/nexus/cacheHealth.ts:437-452 | two acceptances of one id have at least the cap of others between them |
| `CacheHealthDedup.WindowIsASet` | src/nexus/cacheHealth.ts:439-449 | the remembered ids are distinct |
| `CacheHealthDedup.Registry.ShouldEmit` | src/nexus/cacheHealth.ts:437-452 | a call is refused exactly if a warning for its session and request was sent and fewer than the cap of the session since; the set stays exactly the last ids sent |
| `CacheHealthDedup.WindowIsRecent` | src/nexus/cacheHealth.ts:439-449 | the set holds exactly the requests sent so recently |
| `CacheHealthDedup.Registry.Evict` | src/nexus/cacheHealth.ts:445-449 | the eviction loop leaves the most recent ids |
| `ContextBudget.Budget` | src/nexus/contextAssemblePreview.ts:282-301 | the loop keeps exactly what is pinned or fits beside what was kept before; it reports a drop exactly if anything is dropped, and otherwise that it is too full exactly if what is kept exceeds the budget |
| `ContextBudget.ChoiceIsUnique` | src/nexus/contextAssemblePreview.ts:289-301 | that determines the outcome |
| `ContextBudget.BudgetMeans` | src/nexus/contextAssemblePreview.ts:282-301 | every section is kept or dropped, pinned ones are kept, the total stays within the budget unless only pinned ones are kept, and nothing dropped would fit in the end |
| `ContextBudget.PinnedFirstIsAPermutation` | src/nexus/contextAssemblePreview.ts:282-282 | the sort loses and invents nothing |
| `ContextBudget.PinnedFirstIsStable` | src/nexus/contextAssemblePreview.ts:282-282 | the sort puts pinned sections first and changes no other order |
| `ContextBudget.TotalIsTokens` | src/nexus/contextAssemblePreview.ts:284-293 | what is used up is the tokens of what is kept |

## Left out

- Time between suspension points, delays and timer handles of the storage bridge: a timer may fire whenever it is armed.
- The log's own flush timer: a flush of the buffer may happen between any two steps.
- Torn or malformed log lines, reconfiguring the log in mid-run and `resetStorageBridgeForTest`.
- StorageReplay.RowWinsIff: of a row that a crash has found stale it says nothing until an operation that writes it is taken on.
- SQLite itself: the store is a map from rows to contents, and saving a session, its events and an appended event are row writes. In SQLite one column of a session's row, `origin_cwd`, keeps what the insert wrote (`src/storage/SqliteStorage.ts:142-158`), and appending a `session_started` event rewrites `cwd`; neither is modelled.
- The inside of a sub-session of the agent loop: its result is an input. Executor metadata that overrides a task's scheduling keys is not modelled.
- Termination of the agent loop with sub-agents: a parent may delegate again without its retry count moving.
- Titles, descriptions, results and review texts of tasks; `normalizeSubTasks` (the list of sub-tasks is taken after it).
- Cancellation while a session is still planning or between iterations.
- JSON parsing: a body that is not JSON throws in the original and ends its turn of the loop; here every delivered body counts as handled.
- Text encodings, and regular-expression white space beyond ASCII.
- Events written when an execution is settled (partial result, summary), and the texts and identifiers inside events.
- Overlapping calls of the EverCore manager while it awaits a disposal, and `stableFingerprint` (keys are opaque strings).
- Which sections a context is assembled from, and the estimation of tokens.
- Providers, routers, process spawning, the file system, git itself, the CLI and its themes, metrics and benchmarks.
