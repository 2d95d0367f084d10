/** The storage bridge as the program keeps it: variables changed in place. Every method
    does to them what the function of the same stretch of code says. */
module StorageBridgeProcess {
  import opened WriteAheadLog
  import opened StorageBridge

  /** From the head of the queue loop to the next suspension point, or to the end. */
  function Drained(b: Bridge, flush: Write, renameOk: bool): Bridge
    requires b.phase == Draining
  {
    var c := Advanced(b);
    if c.phase == Compacting then Renamed(CompactFlushed(c, flush), renameOk) else c
  }

  /** What one suspension of `flushQueue` ends with. */
  datatype Outcome = Stored(ack: Write) | Threw

  class Process {
    var walPath: bool
    var batchSize: nat
    var file: seq<Record>
    var walBuffer: seq<Record>
    var walPending: seq<Entry>
    var walFlushes: nat
    var walWriteFailures: nat
    var attached: bool
    var scheduled: bool
    var phase: Phase
    var nextOperationId: nat
    var queue: seq<Operation>
    var succeeded: nat
    var failed: nat
    var permanentFailures: nat

    function WalState(): Log
      reads this
    {
      Log(walPath, batchSize, file, walBuffer, walPending, walFlushes, walWriteFailures)
    }

    function State(): Bridge
      reads this
    {
      Bridge(WalState(), attached, scheduled, phase, nextOperationId, queue, succeeded, failed, permanentFailures)
    }

    /** A flush that has ended with an empty queue has compacted the log: if the rename succeeded,
        the file holds one record for each pending operation, in order, and if the write before
        it did, the buffer is empty. */
    ghost predicate FlushedOut(flush: Write, renameOk: bool)
      reads this
    {
      phase == Idle && queue == [] && walPath ==>
        (renameOk ==> OneRecordEach(file, walPending)) && (flush == WriteSucceeds ==> walBuffer == [])
    }

    /** `configureStorageBridgeWal` and `replayWal` at boot. */
    constructor (on: bool, batchSize: nat, disk: seq<Record>)
      ensures State() == Booted(on, batchSize, disk)
    {
      walPath, this.batchSize, file := on, if batchSize > 0 then batchSize else 1, disk;
      walBuffer, walPending, walFlushes, walWriteFailures := [], [], 0, 0;
      attached, scheduled, phase, nextOperationId, queue := false, false, Idle, 0, [];
      succeeded, failed, permanentFailures := 0, 0, 0;
      new;
      if on {
        ReplayWal();
      }
    }

    method ReplayWal()
      requires walPending == [] && queue == [] && nextOperationId == 0
      modifies this`walPending, this`queue, this`nextOperationId
      ensures walPending == Replay(file) && nextOperationId == MaxId(file) && queue == OperationsOf(walPending)
    {
      for i := 0 to |file|
        invariant walPending == Replay(file[..i]) && nextOperationId == MaxId(file[..i])
        invariant queue == []
      {
        var record := file[i];
        assert file[..i + 1][..i] == file[..i];
        walPending := ApplyRecord(walPending, record);
        nextOperationId := if record.id > nextOperationId then record.id else nextOperationId;
      }
      assert file[..|file|] == file;
      RequeuePending();
    }

    /** The second loop of `replayWal`. */
    method RequeuePending()
      requires walPending == Replay(file) && queue == []
      modifies this`queue
      ensures queue == OperationsOf(walPending)
    {
      ReplayShape(file);
      hide Replay;
      for j := 0 to |walPending|
        invariant queue == OperationsOf(walPending[..j])
      {
        var e := walPending[j];
        assert forall o :: o in queue ==> o.id != e.id;
        if forall o :: o in queue ==> o.id != e.id {
          queue := queue + [Operation(e.id, 0, e.payload)];
        }
      }
    }

    method FlushWalBuffer(write: Write)
      modifies this`file, this`walBuffer, this`walFlushes, this`walWriteFailures
      ensures State() == old(State()).(log := Flushed(old(WalState()), write))
    {
      if !walPath || walBuffer == [] {
        return;
      }
      var records := walBuffer;
      walBuffer := [];
      if write != WriteFails {
        file := file + records;
      }
      if write == WriteSucceeds {
        walFlushes := walFlushes + 1;
      } else {
        walWriteFailures := walWriteFailures + 1;
        walBuffer := records + walBuffer;
      }
    }

    method AppendWalRecord(record: Record, write: Write)
      modifies this`file, this`walBuffer, this`walFlushes, this`walWriteFailures
      ensures State() == old(State()).(log := Appended(old(WalState()), record, write))
    {
      if !walPath {
        return;
      }
      walBuffer := walBuffer + [record];
      if |walBuffer| >= batchSize {
        FlushWalBuffer(write);
      }
    }

    method AppendWalOperation(id: nat, payload: Payload, write: Write)
      modifies this`file, this`walBuffer, this`walFlushes, this`walWriteFailures, this`walPending
      ensures State() == old(State()).(log := Logged(old(WalState()), Entry(id, payload), write))
    {
      if !walPath {
        return;
      }
      AppendWalRecord(OpRecord(id, payload), write);
      walPending := Put(walPending, Entry(id, payload));
    }

    method AppendWalAck(id: nat, write: Write)
      modifies this`file, this`walBuffer, this`walFlushes, this`walWriteFailures, this`walPending
      ensures State() == old(State()).(log := Acked(old(WalState()), id, write))
    {
      if !walPath || id !in Ids(walPending) {
        return;
      }
      AppendWalRecord(AckRecord(id), write);
      walPending := Remove(walPending, id);
    }

    method ScheduleFlush()
      modifies this`scheduled
      ensures State() == Scheduled(old(State()))
      ensures scheduled == (old(scheduled) || (attached && phase == Idle))
    {
      if attached && !scheduled && phase == Idle {
        scheduled := true;
      }
    }

    method EnqueueOperation(payload: Payload, write: Write)
      modifies this
      ensures State() == Enqueued(old(State()), payload, write)
      ensures nextOperationId == old(nextOperationId) + 1 && queue == old(queue) + [Operation(nextOperationId, 0, payload)]
      ensures old(phase) == Idle && old(attached) ==> scheduled
    {
      hide Logged, Scheduled;
      nextOperationId := nextOperationId + 1;
      var id := nextOperationId;
      AppendWalOperation(id, payload, write);
      queue := queue + [Operation(id, 0, payload)];
      ScheduleFlush();
    }

    method CompactWal(flush: Write, renameOk: bool)
      requires phase == Compacting && walPath
      modifies this
      ensures State() == Renamed(CompactFlushed(old(State()), flush), renameOk)
      ensures phase == Idle && FlushedOut(flush, renameOk)
    {
      FlushWalBuffer(flush);
      var records := OpRecords(walPending);
      if renameOk {
        file := records;
      }
      phase := Idle;
    }

    /** The loop of `flushQueue`, up to its next `await` or its `finally`. */
    method Drain(flush: Write, renameOk: bool)
      requires phase == Draining
      modifies this
      ensures State() == Drained(old(State()), flush, renameOk)
      ensures FlushedOut(flush, renameOk) && (phase == Idle ==> queue == [] || !attached)
      ensures old(queue) != [] ==> file == old(file)
    {
      if queue != [] && attached {
        var operation := queue[0];
        queue := queue[1..];
        phase := Running(operation);
      } else if queue == [] && walPath {
        phase := Compacting;
        CompactWal(flush, renameOk);
      } else {
        phase := Idle;
      }
    }

    method FlushQueue(flush: Write, renameOk: bool)
      modifies this
      ensures State() == if old(State()).phase != Idle || !old(State()).attached then old(State())
                         else Drained(Started(old(State())), flush, renameOk)
      ensures old(phase) == Idle && old(attached) ==> FlushedOut(flush, renameOk)
    {
      if phase != Idle || !attached {
        return;
      }
      phase := Draining;
      Drain(flush, renameOk);
    }

    /** The timer of `scheduleFlush`. */
    method FireTimer(flush: Write, renameOk: bool)
      modifies this
      ensures var b := TimerFired(old(State()));
        State() == if old(phase) == Idle && b.phase == Draining then Drained(b, flush, renameOk) else b
      ensures !scheduled
      ensures old(scheduled) && old(phase) == Idle && old(attached) ==> FlushedOut(flush, renameOk)
    {
      if scheduled {
        scheduled := false;
        FlushQueue(flush, renameOk);
      }
    }

    method SetNexusStorage(on: bool)
      modifies this`attached, this`scheduled
      ensures State() == Attached(old(State()), on)
      ensures attached == on && (on && phase == Idle ==> scheduled)
    {
      attached := on;
      if on {
        ScheduleFlush();
      }
    }

    /** `flushQueue` resumed after the running operation's `await`. */
    method Resume(outcome: Outcome, flush: Write, renameOk: bool)
      requires phase.Running?
      modifies this
      ensures var b := if outcome.Stored? then Resolved(old(State()), outcome.ack) else Rejected(old(State()));
        State() == if b.phase == Draining then Drained(b, flush, renameOk) else b
      ensures FlushedOut(flush, renameOk)
    {
      hide Drained, Acked, OneRecordEach;
      var operation := phase.op;
      match outcome
      case Stored(ack) =>
        AppendWalAck(operation.id, ack);
        succeeded := succeeded + 1;
        phase := Draining;
        Drain(flush, renameOk);
      case Threw =>
        operation := operation.(attempt := operation.attempt + 1);
        failed := failed + 1;
        RetryOrGiveUp(operation);
        if phase == Draining {
          Drain(flush, renameOk);
        }
    }

    /** An operation whose attempt has failed. The flush is still under way when the retry is scheduled. */
    method RetryOrGiveUp(operation: Operation)
      requires phase.Running?
      modifies this`queue, this`scheduled, this`phase, this`permanentFailures
      ensures operation.attempt < MAX_ATTEMPTS ==>
        State() == Scheduled(old(State()).(queue := [operation] + old(queue))).(phase := Idle)
      ensures operation.attempt >= MAX_ATTEMPTS ==>
        State() == old(State()).(permanentFailures := old(permanentFailures) + 1, phase := Draining)
    {
      if operation.attempt < MAX_ATTEMPTS {
        queue := [operation] + queue;
        ScheduleFlush();
        phase := Idle;
      } else {
        permanentFailures := permanentFailures + 1;
        phase := Draining;
      }
    }
  }
}
