/** When the queue of a storage bridge is flushed, and what a flush leaves behind. */
module StorageFlush {
  import opened Options
  import opened WriteAheadLog
  import opened StorageBridge
  import opened StorageRuns
  import opened StorageRecovery

  // ---------------------------------------------------------------- when work is flushed

  /** Queued work has a timer, unless its front was tried and failed; and a compaction under
      way has found the queue empty. */
  ghost predicate Awake(b: Bridge) {
    && (b.phase == Idle && b.attached && b.queue != [] && !b.scheduled ==> b.queue[0].attempt > 0)
    && (b.phase == Compacting || b.phase == Renaming ==> b.queue == [] && b.log.on)
  }

  lemma StepAwake(b: Bridge, s: Step)
    requires Awake(b)
    ensures Awake(BridgeNext(b, s))
  {
    hide Logged, Acked, Compacted, Replay, MaxId;
  }

  lemma {:induction false} RunAwake(on: bool, batchSize: nat, store: Store, steps: seq<Step>)
    ensures Awake(Run(Start(on, batchSize, store), steps).bridge)
  {
    hide Awake, BridgeNext, HistoryNext, StoreNext;
    if steps != [] {
      var y := Run(Start(on, batchSize, store), steps[..|steps| - 1]);
      RunAwake(on, batchSize, store, steps[..|steps| - 1]);
      StepAwake(y.bridge, steps[|steps| - 1]);
    } else {
      StartAwake(on, batchSize, store);
    }
  }

  lemma StartAwake(on: bool, batchSize: nat, store: Store)
    ensures Awake(Start(on, batchSize, store).bridge)
  {
  }

  /** In every run, an idle bridge with storage and queued work has a flush scheduled, unless
      an attempt at its front has failed; and when that flush starts, or any other, the front
      is what it runs. */
  lemma {:induction false} WorkIsScheduled(on: bool, batchSize: nat, store: Store, steps: seq<Step>)
    ensures var y := Run(Start(on, batchSize, store), steps); var b := y.bridge;
      b.phase == Idle && b.attached && b.queue != [] ==>
        && (b.scheduled || b.queue[0].attempt > 0)
        && (b.scheduled ==> Run(y, [Timer, Advance]).bridge.phase == Running(b.queue[0]))
        && Run(y, [FlushQueue, Advance]).bridge.phase == Running(b.queue[0])
        && Run(y, [FlushQueue, Advance]).bridge.queue == b.queue[1..]
  {
    var y := Run(Start(on, batchSize, store), steps);
    RunAwake(on, batchSize, store, steps);
    hide Run;
    TwoSteps(y, Timer, Advance);
    TwoSteps(y, FlushQueue, Advance);
    hide HistoryNext, StoreNext;
  }

  lemma TwoSteps(y: System, s: Step, t: Step)
    ensures Run(y, [s, t]) == Next(Next(y, s), t)
  {
    hide Next;
    assert [s, t][..1] == [s] && [s][..0] == [];
    assert Run(y, [s]) == Next(Run(y, []), s);
  }

  /** Attaching storage arms a timer on an idle bridge, and taking work on does, with storage;
      nothing else does, and only the timer that fires and a crash disarm it. */
  lemma ScheduledIff(b: Bridge, s: Step)
    requires !s.Crash?
    ensures var c := BridgeNext(b, s);
      c.scheduled <==>
        if s.Timer? && Interruptible(b) then false
        else b.scheduled || (b.phase == Idle && ((s.SetStorage? && s.on) || (s.Enqueue? && b.attached)))
  {
    hide Logged, Acked, Flushed, Compacted;
  }

  /** Storage is what was last set, a flush starts only with it, and so does an attempt. */
  lemma StorageDecides(b: Bridge, s: Step)
    requires !s.Crash?
    ensures var c := BridgeNext(b, s);
      && c.attached == (if s.SetStorage? && Interruptible(b) then s.on else b.attached)
      && (b.phase == Idle && c.phase != Idle ==> b.attached && (s.FlushQueue? || (s.Timer? && b.scheduled)))
      && (!b.phase.Running? && c.phase.Running? ==> b.attached && b.queue != [] && c.phase.op == b.queue[0])
  {
    hide Logged, Acked, Flushed, Compacted;
  }

  /** A new process is idle, without storage and without a timer, until storage is set. */
  lemma {:induction false} WaitsForStorage(b: Bridge, steps: seq<Step>, y: System)
    requires y.bridge == BridgeNext(b, Crash) && forall s :: s in steps ==> !s.SetStorage?
    ensures var c := Run(y, steps).bridge; c.phase == Idle && !c.attached && !c.scheduled
  {
    if steps != [] {
      var n := |steps| - 1;
      assert steps[n] in steps && forall s :: s in steps[..n] ==> s in steps;
      WaitsForStorage(b, steps[..n], y);
      hide Logged, Acked, Flushed, Compacted, HistoryNext, StoreNext, Replay, MaxId;
    }
  }

  // ---------------------------------------------------------------- what a flush leaves behind

  /** Step `k` wrote the buffer before the file is replaced, and `c` is as that left the buffer. */
  ghost predicate BufferWrittenAt(y: System, steps: seq<Step>, k: nat, c: Bridge)
    requires k < |steps|
  {
    && steps[k].CompactFlush? && Run(y, steps[..k]).bridge.phase == Compacting
    && (steps[k].write == WriteSucceeds ==> c.log.buffer == [])
  }

  lemma {:induction false} RenamingSince(y: System, steps: seq<Step>)
    requires y.bridge.phase != Renaming && Run(y, steps).bridge.phase == Renaming && y.bridge.log.on
    requires forall k :: 0 <= k <= |steps| ==> Run(y, steps[..k]).bridge.log.on
    ensures exists k :: 0 <= k < |steps| && BufferWrittenAt(y, steps, k, Run(y, steps).bridge)
  {
    var n := |steps| - 1;
    var b, s := Run(y, steps[..n]).bridge, steps[n];
    var c := Run(y, steps).bridge;
    assert forall k :: 0 <= k <= n ==> steps[..n][..k] == steps[..k];
    assert c == BridgeNext(b, s);
    RenamingFrom(b, s);
    hide BridgeNext, Run;
    if b.phase == Renaming {
      RenamingSince(y, steps[..n]);
      var k :| 0 <= k < n && BufferWrittenAt(y, steps[..n], k, b);
      assert BufferWrittenAt(y, steps, k, c);
    } else {
      assert BufferWrittenAt(y, steps, n, c);
    }
  }

  lemma RenamingFrom(b: Bridge, s: Step)
    requires BridgeNext(b, s).phase == Renaming && b.log.on
    ensures b.phase == Renaming ==> BridgeNext(b, s) == b
    ensures b.phase != Renaming ==> b.phase == Compacting && s.CompactFlush?
    ensures b.phase != Renaming && s.write == WriteSucceeds ==> BridgeNext(b, s).log.buffer == []
  {
    hide Replay, MaxId;
  }

  /** However a flush got there: if it ends with an empty queue, it ends with a compaction. Its
      rename, if it succeeds, leaves one record in the file for each pending operation, in
      order; and the write before it, if it succeeded, has left nothing in the buffer. */
  lemma {:induction false} FlushEndsCompacted(batchSize: nat, store: Store, steps: seq<Step>, s: Step)
    requires Run(Start(true, batchSize, store), steps).bridge.phase != Idle && !s.Crash?
    requires var c := Run(Start(true, batchSize, store), steps + [s]).bridge; c.phase == Idle && c.queue == []
    ensures s.CompactRename?
    ensures var y := Start(true, batchSize, store); var c := Run(y, steps + [s]).bridge;
      && (s.CompactRename? && s.ok ==> OneRecordEach(c.log.disk, c.log.pending))
      && exists k :: 0 <= k < |steps| && BufferWrittenAt(y, steps, k, c)
  {
    var y := Start(true, batchSize, store);
    assert (steps + [s])[..|steps|] == steps;
    var b, c := Run(y, steps).bridge, Run(y, steps + [s]).bridge;
    assert c == BridgeNext(b, s) && y.bridge.phase == Idle && y.bridge.log.on;
    StartGood(true, batchSize, store);
    forall k | 0 <= k <= |steps| ensures Run(y, steps[..k]).bridge.log.on {
      RunGood(y, steps[..k]);
    }
    assert steps[..|steps|] == steps;
    hide Run, Start;
    EndsByRename(b, s);
    RenamingSince(y, steps);
    var k :| 0 <= k < |steps| && BufferWrittenAt(y, steps, k, b);
    assert BufferWrittenAt(y, steps, k, c);
  }

  lemma EndsByRename(b: Bridge, s: Step)
    requires b.phase != Idle && !s.Crash? && b.log.on
    requires BridgeNext(b, s).phase == Idle && BridgeNext(b, s).queue == []
    ensures b.phase == Renaming && s.CompactRename? && BridgeNext(b, s).log.buffer == b.log.buffer
    ensures s.CompactRename? && s.ok ==> OneRecordEach(BridgeNext(b, s).log.disk, BridgeNext(b, s).log.pending)
  {
    hide Logged, Acked, Flushed;
  }

  /** While anything is queued or running, the file is only appended to. */
  lemma FileGrowsWhileBusy(b: Bridge, s: Step)
    requires Awake(b) && Todo(b) != []
    ensures b.log.disk <= BridgeNext(b, s).log.disk
  {
    hide Put, Remove, Replay, MaxId, OpRecords;
  }

  /** Pending are the operations of this process that have not succeeded. */
  ghost predicate PendingOpen(y: System) {
    y.bridge.log.on ==>
      forall e :: e in y.bridge.log.pending ==> e in y.hist.order && !Acknowledged(y.hist, e)
  }

  lemma StepPendingOpen(y: System, s: Step)
    requires Good(y) && PendingOpen(y)
    ensures PendingOpen(Next(y, s))
  {
    var b, h, z := y.bridge, y.hist, Next(y, s);
    assert Sound(b) && InOrder(b, h);
    if b.log.on && !s.Crash? {
      StepLog(b, s);
      RemoveMembers(b.log.pending, if b.phase.Running? then b.phase.op.id else 0);
      forall e | e in z.bridge.log.pending ensures e in z.hist.order && !Acknowledged(z.hist, e) {
        PendingStaysOpen(y, s, e);
      }
    } else if s.Crash? {
      assert z.hist.finished == [] && z.hist.order == z.bridge.log.pending;
    } else {
      StepGood(y, s);
    }
  }

  lemma PendingStaysOpen(y: System, s: Step, e: Entry)
    requires Good(y) && PendingOpen(y) && y.bridge.log.on && !s.Crash?
    requires if s.Resolve? && y.bridge.phase.Running? then e in y.bridge.log.pending && e.id != y.bridge.phase.op.id
      else e in y.bridge.log.pending + TakenOn(y.bridge, s)
    ensures e in Next(y, s).hist.order && !Acknowledged(Next(y, s).hist, e)
  {
    var b, h, g := y.bridge, y.hist, Next(y, s).hist;
    assert g.order == h.order + TakenOn(b, s) && g.finished == h.finished + LeftBehind(b, s);
    assert InOrder(b, h);
    hide Sound, Counted, Traced, Kept, Todo, Next, BridgeNext;
    forall f | f in g.finished && f.entry == e ensures !f.ok {
      if f in h.finished {
        var i :| 0 <= i < |h.finished| && h.finished[i] == f;
        assert h.order[i] == e && e in h.order;
        assert f.ok ==> Acknowledged(h, e);
        assert e in b.log.pending || e in TakenOn(b, s);
      }
    }
  }

  lemma {:induction false} RunPendingOpen(batchSize: nat, store: Store, steps: seq<Step>)
    ensures PendingOpen(Run(Start(true, batchSize, store), steps))
  {
    var y := Start(true, batchSize, store);
    if steps != [] {
      RunPendingOpen(batchSize, store, steps[..|steps| - 1]);
      StartGood(true, batchSize, store);
      RunGood(y, steps[..|steps| - 1]);
      hide Good, Next, PendingOpen;
      StepPendingOpen(Run(y, steps[..|steps| - 1]), steps[|steps| - 1]);
    } else {
      assert y.bridge.log.pending == [];
    }
  }

  lemma {:induction false} AllOk(fs: seq<Finished>)
    requires CountOk(fs) == |fs|
    ensures forall f :: f in fs ==> f.ok
  {
    if fs != [] {
      var n := |fs| - 1;
      CountOkBound(fs[..n]);
      AllOk(fs[..n]);
      assert fs == fs[..n] + [fs[n]];
    }
  }

  lemma {:induction false} CountOkBound(fs: seq<Finished>)
    ensures CountOk(fs) <= |fs|
  {
    if fs != [] {
      CountOkBound(fs[..|fs| - 1]);
    }
  }

  /** A process that has given nothing up and has nothing left to do has nothing pending: so
      the file that its flush has compacted is empty. */
  lemma {:induction false} NothingLeftPending(batchSize: nat, store: Store, steps: seq<Step>)
    ensures var b := Run(Start(true, batchSize, store), steps).bridge;
      Todo(b) == [] && b.permanentFailures == 0 ==>
        b.log.pending == [] && (OneRecordEach(b.log.disk, b.log.pending) ==> b.log.disk == [])
  {
    var y := Run(Start(true, batchSize, store), steps);
    var b, h := y.bridge, y.hist;
    StartGood(true, batchSize, store);
    RunGood(Start(true, batchSize, store), steps);
    RunPendingOpen(batchSize, store, steps);
    assert InOrder(b, h) && Counted(b, h) && b.log.on;
    hide Run, Start, Todo;
    assert b.log.pending != [] ==> b.log.pending[0] in b.log.pending;
    if Todo(b) == [] && b.permanentFailures == 0 {
      AllAcknowledged(b, h);
    }
  }

  lemma AllAcknowledged(b: Bridge, h: History)
    requires InOrder(b, h) && Counted(b, h) && Todo(b) == [] && b.permanentFailures == 0
    ensures forall e :: e in h.order ==> Acknowledged(h, e)
  {
    AllOk(h.finished);
    hide Todo;
    forall e | e in h.order ensures Acknowledged(h, e) {
      var i :| 0 <= i < |h.order| && h.order[i] == e;
      assert h.finished[i] in h.finished && h.finished[i].entry == e;
    }
  }

  // ---------------------------------------------------------------- batches

  /** A write is due as soon as a batch is full, so with writes that succeed the buffer never
      holds one. */
  ghost predicate BelowBatch(b: Bridge) {
    |b.log.buffer| < b.log.batchSize
  }

  lemma StepBelowBatch(b: Bridge, s: Step)
    requires BelowBatch(b) && WritesSucceed([s])
    ensures BelowBatch(BridgeNext(b, s)) && BridgeNext(b, s).log.batchSize == b.log.batchSize
  {
    assert s in [s];
    hide Put, Remove, OpRecords, Replay, MaxId;
  }

  lemma {:induction false} BufferBelowBatch(on: bool, batchSize: nat, store: Store, steps: seq<Step>)
    requires WritesSucceed(steps)
    ensures var b := Run(Start(on, batchSize, store), steps).bridge;
      BelowBatch(b) && b.log.batchSize == if batchSize > 1 then batchSize else 1
  {
    hide BridgeNext, HistoryNext, StoreNext, BelowBatch;
    if steps != [] {
      var n := |steps| - 1;
      assert steps[n] in steps && forall s :: s in steps[..n] ==> s in steps;
      assert forall s :: s in [steps[n]] ==> s == steps[n];
      BufferBelowBatch(on, batchSize, store, steps[..n]);
      StepBelowBatch(Run(Start(on, batchSize, store), steps[..n]).bridge, steps[n]);
    } else {
      StartBelowBatch(on, batchSize, store);
    }
  }

  lemma StartBelowBatch(on: bool, batchSize: nat, store: Store)
    ensures var b := Start(on, batchSize, store).bridge;
      BelowBatch(b) && b.log.batchSize == if batchSize > 1 then batchSize else 1
  {
  }
}
