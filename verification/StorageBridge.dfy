/** The storage bridge of one process: a FIFO persistence queue behind a write-ahead log.

    `Bridge` is the bridge's whole state as a value; the functions on it say what each
    stretch of code between two suspension points does. */
module StorageBridge {
  import opened WriteAheadLog

  const MAX_ATTEMPTS: nat := 3

  datatype Operation = Operation(id: nat, attempt: nat, payload: Payload)

  /** Where the queue flush stands. `Running` is suspended in the operation's own run;
      `Draining`, `Compacting` and `Renaming` are points inside one uninterrupted
      stretch of code, where only a crash can intervene. */
  datatype Phase = Idle | Draining | Running(op: Operation) | Compacting | Renaming

  datatype Bridge = Bridge(
    log: Log,
    attached: bool,
    scheduled: bool,
    phase: Phase,
    nextId: nat,
    queue: seq<Operation>,
    succeeded: nat,
    failed: nat,
    permanentFailures: nat)

  /** `scheduleFlush`. */
  function Scheduled(b: Bridge): Bridge {
    if !b.attached || b.scheduled || b.phase != Idle then b else b.(scheduled := true)
  }

  /** `enqueueOperation`. */
  function Enqueued(b: Bridge, payload: Payload, write: Write): Bridge {
    var e := Entry(b.nextId + 1, payload);
    Scheduled(b.(nextId := e.id, log := Logged(b.log, e, write), queue := b.queue + [Operation(e.id, 0, payload)]))
  }

  /** The entry of `flushQueue`. */
  function Started(b: Bridge): Bridge {
    if b.phase != Idle || !b.attached then b else b.(phase := Draining)
  }

  /** The head of the loop in `flushQueue`, and its way out. */
  function Advanced(b: Bridge): Bridge
    requires b.phase == Draining
  {
    if b.queue != [] && b.attached then b.(phase := Running(b.queue[0]), queue := b.queue[1..])
    else if b.queue == [] && b.log.on then b.(phase := Compacting)
    else b.(phase := Idle)
  }

  /** The running operation has been stored. */
  function Resolved(b: Bridge, write: Write): Bridge
    requires b.phase.Running?
  {
    b.(log := Acked(b.log, b.phase.op.id, write), succeeded := b.succeeded + 1, phase := Draining)
  }

  /** The running operation has thrown: it goes back to the front, or is given up. The
      flush is still under way when a retry is scheduled. */
  function Rejected(b: Bridge): Bridge
    requires b.phase.Running?
  {
    var op := b.phase.op.(attempt := b.phase.op.attempt + 1);
    var c := b.(failed := b.failed + 1);
    if op.attempt < MAX_ATTEMPTS then Scheduled(c.(queue := [op] + c.queue)).(phase := Idle)
    else c.(permanentFailures := c.permanentFailures + 1, phase := Draining)
  }

  /** The two disk writes of `compactWal`. */
  function CompactFlushed(b: Bridge, write: Write): Bridge {
    b.(log := Flushed(b.log, write), phase := Renaming)
  }

  function Renamed(b: Bridge, ok: bool): Bridge {
    b.(log := Compacted(b.log, ok), phase := Idle)
  }

  /** The timer of `scheduleFlush`. */
  function TimerFired(b: Bridge): Bridge {
    if b.scheduled then Started(b.(scheduled := false)) else b
  }

  /** `setNexusStorage`. */
  function Attached(b: Bridge, on: bool): Bridge {
    if on then Scheduled(b.(attached := true)) else b.(attached := false)
  }

  function OperationsOf(m: seq<Entry>): (q: seq<Operation>)
    ensures |q| == |m|
    ensures forall i :: 0 <= i < |m| ==> q[i] == Operation(m[i].id, 0, m[i].payload)
  {
    seq(|m|, i requires 0 <= i < |m| => Operation(m[i].id, 0, m[i].payload))
  }

  /** A new process whose log file holds `disk`. */
  function Booted(on: bool, batchSize: nat, disk: seq<Record>): Bridge {
    var log := Reopened(on, batchSize, disk);
    Bridge(log, false, false, Idle, if on then MaxId(disk) else 0, OperationsOf(log.pending), 0, 0, 0)
  }

  function EntriesOf(q: seq<Operation>): (m: seq<Entry>)
    ensures |m| == |q|
    ensures forall i :: 0 <= i < |q| ==> m[i] == Entry(q[i].id, q[i].payload)
  {
    seq(|q|, i requires 0 <= i < |q| => Entry(q[i].id, q[i].payload))
  }

  /** What this process still has to do: the running operation and the queue behind it. */
  function Todo(b: Bridge): seq<Entry> {
    (if b.phase.Running? then [Entry(b.phase.op.id, b.phase.op.payload)] else []) + EntriesOf(b.queue)
  }

  ghost predicate Sound(b: Bridge) {
    && LogSound(b.log, b.nextId)
    && forall e :: e in Todo(b) ==> e.id <= b.nextId
  }

  lemma BootedSound(on: bool, batchSize: nat, disk: seq<Record>)
    ensures var b := Booted(on, batchSize, disk);
      && Sound(b)
      && Todo(b) == b.log.pending
      && Distinct(Todo(b))
  {
    var b := Booted(on, batchSize, disk);
    ReopenedSound(on, batchSize, disk);
    PendingBelow(b.log, b.nextId);
    assert Todo(b) == EntriesOf(OperationsOf(b.log.pending)) == b.log.pending;
  }
}
