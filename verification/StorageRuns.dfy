/** Whole runs of the storage bridge: any interleaving of enqueues, flushes, storage
    outcomes, failed log writes, compactions and crashes with the replay that follows. */
module StorageRuns {
  import opened Options
  import opened WriteAheadLog
  import opened StorageBridge

  // ---------------------------------------------------------------- storage

  datatype Key = SessionKey(session: string) | TaskKey(task: string) | EventKey(owner: string, event: string)

  datatype Cell = Row(body: string) | Present

  type Store = map<Key, Cell>

  /** Everything one operation writes; a run cut short has written a part of it. */
  function Effect(p: Payload): Store {
    match p
    case Task(id, body) => map[TaskKey(id) := Row(body)]
    case TaskSession(s, event) =>
      var saved := map e | e in s.events :: EventKey(s.id, e) := Present;
      var appended := if event.Some? then map[EventKey(s.id, event.value) := Present] else map[];
      saved + appended + map[SessionKey(s.id) := Row(s.body)]
  }

  /** A task is one row. A session is its own row, and one for each of its events, those it was
      saved with and the one appended. */
  lemma EffectRows(p: Payload, k: Key)
    ensures k in Effect(p) <==>
      match p
      case Task(id, _) => k == TaskKey(id)
      case TaskSession(s, event) =>
        || k == SessionKey(s.id)
        || (k.EventKey? && k.owner == s.id && (k.event in s.events || event == Some(k.event)))
    ensures p.Task? ==> Effect(p)[TaskKey(p.id)] == Row(p.body)
    ensures p.TaskSession? ==> Effect(p)[SessionKey(p.session.id)] == Row(p.session.body)
    ensures k in Effect(p) && k.EventKey? ==> Effect(p)[k] == Present
  {
  }

  /** The operations applied in order, later writes winning. */
  function Fold(store: Store, ps: seq<Payload>): Store {
    if ps == [] then store else Fold(store, ps[..|ps| - 1]) + Effect(ps[|ps| - 1])
  }

  // ---------------------------------------------------------------- steps

  datatype Step =
    | Enqueue(payload: Payload, write: Write)
    | FlushWal(write: Write)
    | SetStorage(on: bool)
    | Timer
    | FlushQueue
    | Advance
    | StoreWrite(part: Store)
    | Resolve(write: Write)
    | Reject
    | CompactFlush(write: Write)
    | CompactRename(ok: bool)
    | Crash

  /** Other code runs only while the flush is idle or suspended. */
  predicate Interruptible(b: Bridge) {
    b.phase.Idle? || b.phase.Running?
  }

  /** A step that is not possible in a state leaves it alone. */
  predicate Possible(b: Bridge, s: Step) {
    match s
    case Enqueue(_, _) => Interruptible(b)
    case FlushWal(_) => Interruptible(b)
    case SetStorage(_) => Interruptible(b)
    case Timer => Interruptible(b)
    case FlushQueue => Interruptible(b)
    case Advance => b.phase == Draining
    case StoreWrite(_) => b.phase.Running?
    case Resolve(_) => b.phase.Running?
    case Reject => b.phase.Running?
    case CompactFlush(_) => b.phase == Compacting
    case CompactRename(_) => b.phase == Renaming
    case Crash => true
  }

  function BridgeNext(b: Bridge, s: Step): Bridge {
    if !Possible(b, s) then b
    else
      match s
      case Enqueue(payload, write) => Enqueued(b, payload, write)
      case FlushWal(write) => b.(log := Flushed(b.log, write))
      case SetStorage(on) => Attached(b, on)
      case Timer => TimerFired(b)
      case FlushQueue => Started(b)
      case Advance => Advanced(b)
      case StoreWrite(_) => b
      case Resolve(write) => Resolved(b, write)
      case Reject => Rejected(b)
      case CompactFlush(write) => CompactFlushed(b, write)
      case CompactRename(ok) => Renamed(b, ok)
      case Crash => Booted(b.log.on, b.log.batchSize, b.log.disk)
  }

  datatype Finished = Finished(entry: Entry, attempts: nat, ok: bool)

  /** What an observer notes. `log` and `unwritten` outlive the process; the rest is about
      the current one: what it took on, in order, every attempt it started, and what it
      finished. `durable` is what has reached the log file. */
  datatype History = History(
    log: seq<Payload>,
    unwritten: seq<Payload>,
    order: seq<Entry>,
    finished: seq<Finished>,
    trace: seq<nat>,
    durable: set<Entry>)

  datatype System = System(bridge: Bridge, store: Store, hist: History)

  function InFlight(b: Bridge): Entry
    requires b.phase.Running?
  {
    Entry(b.phase.op.id, b.phase.op.payload)
  }

  /** The operation a step takes on, and the one it leaves behind for good. */
  function TakenOn(b: Bridge, s: Step): seq<Entry> {
    if s.Enqueue? && Possible(b, s) then [Entry(b.nextId + 1, s.payload)] else []
  }

  function LeftBehind(b: Bridge, s: Step): seq<Finished> {
    if !b.phase.Running? then []
    else if s.Resolve? then [Finished(InFlight(b), b.phase.op.attempt + 1, true)]
    else if s.Reject? && b.phase.op.attempt + 1 >= MAX_ATTEMPTS then
      [Finished(InFlight(b), b.phase.op.attempt + 1, false)]
    else []
  }

  function Attempted(b: Bridge, c: Bridge): seq<nat> {
    if !b.phase.Running? && c.phase.Running? then [c.phase.op.id] else []
  }

  function HistoryNext(b: Bridge, s: Step, h: History): History {
    var c := BridgeNext(b, s);
    if s.Crash? then
      h.(unwritten := [], order := c.log.pending, finished := [], trace := [], durable := set e | e in c.log.pending)
    else
      var order := h.order + TakenOn(b, s);
      h.(log := h.log + Payloads(TakenOn(b, s)),
         unwritten := if c.log.disk != b.log.disk then [] else h.unwritten + Payloads(TakenOn(b, s)),
         order := order,
         finished := h.finished + LeftBehind(b, s),
         trace := h.trace + Attempted(b, c),
         durable := if c.log.disk == b.log.disk then h.durable
                    else h.durable + set e | e in order && OpRecord(e.id, e.payload) in c.log.disk)
  }

  function StoreNext(b: Bridge, s: Step, store: Store): Store {
    if s.StoreWrite? && Possible(b, s) then
      store + map k | k in s.part && k in Effect(b.phase.op.payload) :: Effect(b.phase.op.payload)[k]
    else if s.Resolve? && Possible(b, s) then store + Effect(b.phase.op.payload)
    else store
  }

  function Next(y: System, s: Step): System {
    System(BridgeNext(y.bridge, s), StoreNext(y.bridge, s, y.store), HistoryNext(y.bridge, s, y.hist))
  }

  function Start(wal: bool, batchSize: nat, store: Store): System {
    System(Booted(wal, batchSize, []), store, History([], [], [], [], [], {}))
  }

  function Run(y: System, steps: seq<Step>): System {
    if steps == [] then y else Next(Run(y, steps[..|steps| - 1]), steps[|steps| - 1])
  }

  // ---------------------------------------------------------------- what each step does

  lemma SameTodo(b: Bridge, c: Bridge)
    requires c.queue == b.queue && c.phase.Running? == b.phase.Running?
    requires c.phase.Running? ==> c.phase == b.phase
    ensures Todo(c) == Todo(b)
  {
  }

  lemma AdvancedTodo(b: Bridge)
    requires b.phase == Draining
    ensures Todo(Advanced(b)) == Todo(b)
  {
    var q := EntriesOf(b.queue);
    if b.queue != [] {
      assert q == [q[0]] + EntriesOf(b.queue[1..]);
    }
  }

  lemma RejectedTodo(b: Bridge)
    requires b.phase.Running?
    ensures var c := Rejected(b);
      if b.phase.op.attempt + 1 < MAX_ATTEMPTS then Todo(c) == Todo(b) else Todo(b) == [InFlight(b)] + Todo(c)
  {
    var c := Rejected(b);
    assert b.phase.op.attempt + 1 < MAX_ATTEMPTS ==> EntriesOf(c.queue) == [InFlight(b)] + EntriesOf(b.queue);
  }

  lemma EnqueuedTodo(b: Bridge, payload: Payload, write: Write)
    ensures Todo(Enqueued(b, payload, write)) == Todo(b) + [Entry(b.nextId + 1, payload)]
  {
    hide Logged;
    var c := Enqueued(b, payload, write);
    assert EntriesOf(c.queue) == EntriesOf(b.queue) + [Entry(b.nextId + 1, payload)];
  }

  /** Work is conserved: what there was and what came in is what left and what remains. */
  lemma {:induction false} StepTodo(b: Bridge, s: Step)
    requires !s.Crash?
    ensures Todo(b) + TakenOn(b, s) == EntriesFinished(LeftBehind(b, s)) + Todo(BridgeNext(b, s))
    ensures BridgeNext(b, s).nextId == b.nextId + |TakenOn(b, s)|
  {
    hide Logged, Flushed, Acked, Compacted, Todo, EntriesOf;
    var c := BridgeNext(b, s);
    assert [] + Todo(c) == Todo(c) && Todo(b) + [] == Todo(b);
    if !Possible(b, s) {
      return;
    }
    match s {
      case Enqueue(payload, write) => EnqueuedTodo(b, payload, write);
      case Advance => AdvancedTodo(b);
      case Reject =>
        RejectedTodo(b);
        assert LeftBehind(b, s) != [] ==> EntriesFinished(LeftBehind(b, s)) == [InFlight(b)];
      case Resolve(write) =>
        assert EntriesFinished(LeftBehind(b, s)) == [InFlight(b)];
        ResolvedTodo(b, write);
      case _ => SameTodo(b, c);
    }
  }

  lemma ResolvedTodo(b: Bridge, write: Write)
    requires b.phase.Running?
    ensures Todo(b) == [InFlight(b)] + Todo(Resolved(b, write))
  {
  }

  /** Every step keeps the log sound, and whatever replaces the log file replays to the
      pending map of that moment. */
  lemma StepLog(b: Bridge, s: Step)
    requires Sound(b)
    ensures var c := BridgeNext(b, s);
      && LogSound(c.log, c.nextId)
      && c.log.on == b.log.on
      && Settled(b.log, c.log)
      && (!s.Crash? && b.log.on ==>
            c.log.pending == if s.Resolve? && b.phase.Running? then Remove(b.log.pending, b.phase.op.id)
                             else b.log.pending + TakenOn(b, s))
  {
    hide LogSound, Flushed, Acked, Logged, Compacted, ApplyRecords;
    if Possible(b, s) {
      match s
      case Enqueue(payload, write) => LoggedSound(b.log, Entry(b.nextId + 1, payload), write, b.nextId);
      case FlushWal(write) => FlushedSound(b.log, write, b.nextId);
      case Resolve(write) => assert InFlight(b) in Todo(b); AckedSound(b.log, b.phase.op.id, write, b.nextId);
      case CompactFlush(write) => FlushedSound(b.log, write, b.nextId);
      case CompactRename(ok) => CompactedSound(b.log, ok, b.nextId);
      case Crash => ReopenedSound(b.log.on, b.log.batchSize, b.log.disk);
      case _ =>
    }
  }

  // ---------------------------------------------------------------- what one process does

  function EntriesFinished(fs: seq<Finished>): (m: seq<Entry>)
    ensures |m| == |fs|
    ensures forall i :: 0 <= i < |fs| ==> m[i] == fs[i].entry
  {
    seq(|fs|, i requires 0 <= i < |fs| => fs[i].entry)
  }

  function Repeat(id: nat, n: nat): (r: seq<nat>)
    ensures |r| == n
    ensures forall i :: 0 <= i < n ==> r[i] == id
  {
    seq(n, i => id)
  }

  /** All the attempts of one operation, then all those of the next, and so on. */
  function Blocks(fs: seq<Finished>): seq<nat> {
    if fs == [] then []
    else Blocks(fs[..|fs| - 1]) + Repeat(fs[|fs| - 1].entry.id, fs[|fs| - 1].attempts)
  }

  function CountOk(fs: seq<Finished>): nat {
    if fs == [] then 0
    else CountOk(fs[..|fs| - 1]) + if fs[|fs| - 1].ok then 1 else 0
  }

  /** The attempts made so far on the operation that is running or at the front. */
  function CurrentBlock(b: Bridge): seq<nat> {
    if b.phase.Running? then Repeat(b.phase.op.id, b.phase.op.attempt + 1)
    else if b.queue != [] then Repeat(b.queue[0].id, b.queue[0].attempt)
    else []
  }

  /** Only the front or running operation has been tried, and fewer than three times. */
  ghost predicate OnlyFrontTried(b: Bridge) {
    && (b.phase.Running? ==> b.phase.op.attempt < MAX_ATTEMPTS && forall o :: o in b.queue ==> o.attempt == 0)
    && (b.queue != [] ==> b.queue[0].attempt < MAX_ATTEMPTS && forall o :: o in b.queue[1..] ==> o.attempt == 0)
  }

  ghost predicate InOrder(b: Bridge, h: History) {
    && h.order == EntriesFinished(h.finished) + Todo(b)
    && Distinct(h.order)
    && forall e :: e in h.order ==> e.id <= b.nextId
  }

  ghost predicate Counted(b: Bridge, h: History) {
    && b.succeeded == CountOk(h.finished)
    && b.succeeded + b.permanentFailures == |h.finished|
    && forall f :: f in h.finished ==> 1 <= f.attempts <= MAX_ATTEMPTS && (!f.ok ==> f.attempts == MAX_ATTEMPTS)
  }

  ghost predicate Traced(b: Bridge, h: History) {
    && OnlyFrontTried(b)
    && h.trace == Blocks(h.finished) + CurrentBlock(b)
  }

  /** What came in at one end, and what went over at the other. */
  lemma Shift<T>(whole: seq<T>, left: seq<T>, right: seq<T>, more: seq<T>, moved: seq<T>, rest: seq<T>)
    requires whole == left + right
    requires right + more == moved + rest
    ensures whole + more == (left + moved) + rest
  {
    assert whole + more == left + (right + more);
    assert left + (moved + rest) == (left + moved) + rest;
  }

  lemma FinishedConcat(fs: seq<Finished>, gs: seq<Finished>)
    requires |gs| <= 1
    ensures Blocks(fs + gs) == Blocks(fs) + Blocks(gs)
    ensures CountOk(fs + gs) == CountOk(fs) + CountOk(gs)
    ensures EntriesFinished(fs + gs) == EntriesFinished(fs) + EntriesFinished(gs)
  {
    if gs == [] {
      assert fs + gs == fs;
    } else {
      assert (fs + gs)[..|fs|] == fs && (fs + gs)[|fs|] == gs[0];
      assert gs[..0] == [] && Blocks([]) == [];
      assert Blocks(gs) == Blocks(gs[..0]) + Repeat(gs[0].entry.id, gs[0].attempts);
    }
  }

  lemma TakenIsNew(b: Bridge, s: Step, order: seq<Entry>)
    requires Distinct(order) && forall e :: e in order ==> e.id <= b.nextId
    ensures Distinct(order + TakenOn(b, s))
    ensures forall e :: e in order + TakenOn(b, s) ==> e.id <= b.nextId + |TakenOn(b, s)|
  {
    hide Possible;
    assert forall i :: 0 <= i < |order| ==> order[i] in order;
  }

  lemma {:induction false} StepInOrder(b: Bridge, s: Step, h: History)
    requires Sound(b) && InOrder(b, h)
    ensures InOrder(BridgeNext(b, s), HistoryNext(b, s, h))
  {
    var c, g := BridgeNext(b, s), HistoryNext(b, s, h);
    hide Todo, Distinct;
    if s.Crash? {
      BootedSound(b.log.on, b.log.batchSize, b.log.disk);
      assert EntriesFinished([]) + Todo(c) == Todo(c);
      hide Replay, Booted;
    } else {
      hide BridgeNext;
      StepTodo(b, s);
      TakenIsNew(b, s, h.order);
      FinishedConcat(h.finished, LeftBehind(b, s));
      Shift(h.order, EntriesFinished(h.finished), Todo(b), TakenOn(b, s), EntriesFinished(LeftBehind(b, s)), Todo(c));
    }
  }

  lemma {:induction false} StepSound(b: Bridge, s: Step, h: History)
    requires Sound(b) && InOrder(b, h)
    ensures Sound(BridgeNext(b, s)) && BridgeNext(b, s).log.on == b.log.on
  {
    hide BridgeNext, HistoryNext, LogSound, Todo;
    StepLog(b, s);
    StepInOrder(b, s, h);
    var c, g := BridgeNext(b, s), HistoryNext(b, s, h);
    forall e | e in Todo(c) ensures e.id <= c.nextId {
      assert e in g.order;
    }
  }

  lemma StepCounts(b: Bridge, s: Step)
    requires !s.Crash?
    ensures var c := BridgeNext(b, s);
      && c.succeeded == b.succeeded + CountOk(LeftBehind(b, s))
      && c.succeeded + c.permanentFailures == b.succeeded + b.permanentFailures + |LeftBehind(b, s)|
  {
    hide Logged, Flushed, Acked, Compacted;
    if LeftBehind(b, s) != [] {
      assert LeftBehind(b, s)[..0] == [];
    }
  }

  lemma LeftBehindTried(b: Bridge, s: Step)
    requires OnlyFrontTried(b)
    ensures |LeftBehind(b, s)| <= 1
    ensures forall f :: f in LeftBehind(b, s) ==> 1 <= f.attempts <= MAX_ATTEMPTS && (!f.ok ==> f.attempts == MAX_ATTEMPTS)
  {
  }

  lemma StepCounted(b: Bridge, s: Step, h: History)
    requires Counted(b, h) && OnlyFrontTried(b)
    ensures Counted(BridgeNext(b, s), HistoryNext(b, s, h))
  {
    if s.Crash? {
      assert HistoryNext(b, s, h).finished == [];
    } else {
      StepCounts(b, s);
      LeftBehindTried(b, s);
      assert HistoryNext(b, s, h).finished == h.finished + LeftBehind(b, s);
      hide BridgeNext, HistoryNext, LeftBehind, OnlyFrontTried;
      FinishedConcat(h.finished, LeftBehind(b, s));
      hide CountOk;
    }
  }

  /** A step moves the current block on by the attempt it starts, and cuts it off where an
      operation is left behind. */
  ghost predicate BlockMoves(b: Bridge, s: Step, c: Bridge) {
    && OnlyFrontTried(c)
    && CurrentBlock(b) + Attempted(b, c) == Blocks(LeftBehind(b, s)) + CurrentBlock(c)
  }

  lemma RejectedBlock(b: Bridge)
    requires OnlyFrontTried(b) && b.phase.Running?
    ensures BlockMoves(b, Reject, Rejected(b))
  {
    var left := LeftBehind(b, Reject);
    if left != [] {
      assert left[..0] == [];
    }
  }

  lemma ResolvedBlock(b: Bridge, write: Write)
    requires OnlyFrontTried(b) && b.phase.Running?
    ensures BlockMoves(b, Resolve(write), Resolved(b, write))
  {
    hide Acked;
    var c, left := Resolved(b, write), LeftBehind(b, Resolve(write));
    assert left[..0] == [];
    assert c.queue != [] ==> c.queue[0] in b.queue && forall o :: o in c.queue[1..] ==> o in b.queue;
    assert CurrentBlock(c) == [] && Blocks(left) == CurrentBlock(b);
  }

  lemma AdvancedBlock(b: Bridge)
    requires OnlyFrontTried(b) && b.phase == Draining
    ensures BlockMoves(b, Advance, Advanced(b))
  {
    if b.queue != [] {
      var op := b.queue[0];
      assert Repeat(op.id, op.attempt) + [op.id] == Repeat(op.id, op.attempt + 1);
      assert b.queue[1..] != [] ==> b.queue[1] in b.queue[1..];
    }
  }

  lemma EnqueuedBlock(b: Bridge, payload: Payload, write: Write)
    requires OnlyFrontTried(b)
    ensures BlockMoves(b, Enqueue(payload, write), Enqueued(b, payload, write))
  {
    hide Logged;
    if b.queue != [] {
      assert Enqueued(b, payload, write).queue[1..] == b.queue[1..] + [Operation(b.nextId + 1, 0, payload)];
    }
  }

  /** A step that starts and finishes nothing. */
  lemma QuietBlock(b: Bridge, s: Step, c: Bridge)
    requires OnlyFrontTried(b) && LeftBehind(b, s) == [] && c.queue == b.queue
    requires c.phase == b.phase || (!c.phase.Running? && !b.phase.Running?)
    ensures BlockMoves(b, s, c)
  {
  }

  lemma {:induction false} StepBlock(b: Bridge, s: Step)
    requires OnlyFrontTried(b) && !s.Crash?
    ensures BlockMoves(b, s, BridgeNext(b, s))
  {
    hide BlockMoves, OnlyFrontTried, Logged, Flushed, Acked, Compacted, Enqueued, Resolved, Rejected, Advanced;
    if !Possible(b, s) {
      QuietBlock(b, s, b);
      return;
    }
    match s {
      case Enqueue(payload, write) => EnqueuedBlock(b, payload, write);
      case Resolve(write) => ResolvedBlock(b, write);
      case Reject => RejectedBlock(b);
      case Advance => AdvancedBlock(b);
      case _ => QuietBlock(b, s, BridgeNext(b, s));
    }
  }

  lemma StepTraced(b: Bridge, s: Step, h: History)
    requires Traced(b, h)
    ensures Traced(BridgeNext(b, s), HistoryNext(b, s, h))
  {
    var c, g := BridgeNext(b, s), HistoryNext(b, s, h);
    if s.Crash? {
      assert g.trace == [] && g.finished == [] && CurrentBlock(c) == [];
    } else {
      hide BridgeNext, OnlyFrontTried, CurrentBlock, Blocks, LeftBehind;
      StepBlock(b, s);
      FinishedConcat(h.finished, LeftBehind(b, s));
      Shift(h.trace, Blocks(h.finished), CurrentBlock(b), Attempted(b, c), Blocks(LeftBehind(b, s)), CurrentBlock(c));
    }
  }

  // ---------------------------------------------------------------- nothing durable is lost

  ghost predicate Acknowledged(h: History, e: Entry) {
    exists f :: f in h.finished && f.entry == e && f.ok
  }

  /** An operation leaves the pending map only by succeeding, and what reached the log file
      stays in its replay until then. */
  ghost predicate Kept(b: Bridge, h: History) {
    b.log.on ==>
      && (forall e :: e in h.order ==> Acknowledged(h, e) || e in b.log.pending)
      && (forall e :: e in h.durable ==> e in h.order && (Acknowledged(h, e) || e in Replay(b.log.disk)))
  }

  lemma StillAcknowledged(b: Bridge, s: Step, h: History, e: Entry)
    requires Acknowledged(h, e) && !s.Crash?
    ensures Acknowledged(HistoryNext(b, s, h), e)
  {
    hide BridgeNext, LeftBehind, TakenOn;
    var f :| f in h.finished && f.entry == e && f.ok;
    assert f in HistoryNext(b, s, h).finished;
  }

  /** The one entry that an acknowledgement removes has just succeeded. */
  lemma ResolvedPending(b: Bridge, s: Step, h: History, e: Entry)
    requires InOrder(b, h) && s.Resolve? && b.phase.Running? && e in h.order && e in b.log.pending
    ensures Acknowledged(HistoryNext(b, s, h), e) || e in Remove(b.log.pending, b.phase.op.id)
  {
    RemoveMembers(b.log.pending, b.phase.op.id);
    if e.id == b.phase.op.id {
      assert InFlight(b) in Todo(b) && InFlight(b) in h.order;
      hide BridgeNext, Todo, Remove;
      assert LeftBehind(b, s)[0] in HistoryNext(b, s, h).finished;
    }
  }

  lemma {:induction false} StepPending(b: Bridge, s: Step, h: History, e: Entry)
    requires Sound(b) && InOrder(b, h) && Kept(b, h) && b.log.on && !s.Crash?
    requires e in HistoryNext(b, s, h).order
    ensures Acknowledged(HistoryNext(b, s, h), e) || e in BridgeNext(b, s).log.pending
  {
    assert e in h.order || e in TakenOn(b, s);
    StepLog(b, s);
    hide BridgeNext, HistoryNext, LogSound, Replay, Acknowledged, Remove, InOrder;
    if e in h.order {
      if Acknowledged(h, e) {
        StillAcknowledged(b, s, h, e);
      } else if s.Resolve? && b.phase.Running? {
        ResolvedPending(b, s, h, e);
      }
    }
  }

  lemma StepKept(b: Bridge, s: Step, h: History)
    requires Sound(b) && InOrder(b, h) && Kept(b, h)
    ensures Kept(BridgeNext(b, s), HistoryNext(b, s, h))
  {
    var c, g := BridgeNext(b, s), HistoryNext(b, s, h);
    if s.Crash? {
      assert b.log.on ==> c.log.pending == Replay(c.log.disk);
    } else {
      hide BridgeNext, LogSound, Replay, LeftBehind;
      StepLog(b, s);
      if b.log.on {
        forall e | e in g.order ensures Acknowledged(g, e) || e in c.log.pending {
          StepPending(b, s, h, e);
        }
        forall e | e in h.durable && Acknowledged(h, e) ensures Acknowledged(g, e) {
          var f :| f in h.finished && f.entry == e && f.ok;
          assert f in g.finished;
        }
      }
    }
  }

  // ---------------------------------------------------------------- whole runs

  ghost predicate Good(y: System) {
    && Sound(y.bridge)
    && InOrder(y.bridge, y.hist)
    && Counted(y.bridge, y.hist)
    && Traced(y.bridge, y.hist)
    && Kept(y.bridge, y.hist)
  }

  lemma {:induction false} StepGood(y: System, s: Step)
    requires Good(y)
    ensures Good(Next(y, s)) && Next(y, s).bridge.log.on == y.bridge.log.on
  {
    hide BridgeNext, HistoryNext, StoreNext, Sound, InOrder, Counted, Kept;
    assert OnlyFrontTried(y.bridge);
    hide Traced;
    StepSound(y.bridge, s, y.hist);
    StepInOrder(y.bridge, s, y.hist);
    StepCounted(y.bridge, s, y.hist);
    StepTraced(y.bridge, s, y.hist);
    StepKept(y.bridge, s, y.hist);
  }

  lemma StartGood(on: bool, batchSize: nat, store: Store)
    ensures Good(Start(on, batchSize, store))
  {
    BootedSound(on, batchSize, []);
    var y := Start(on, batchSize, store);
    assert y.hist.order == EntriesFinished(y.hist.finished) + Todo(y.bridge);
    assert y.hist.trace == Blocks(y.hist.finished) + CurrentBlock(y.bridge);
  }

  lemma {:induction false} RunGood(y: System, steps: seq<Step>)
    requires Good(y)
    ensures Good(Run(y, steps)) && Run(y, steps).bridge.log.on == y.bridge.log.on
  {
    hide Good, Next;
    if steps != [] {
      RunGood(y, steps[..|steps| - 1]);
      StepGood(Run(y, steps[..|steps| - 1]), steps[|steps| - 1]);
    }
  }

  /** After any run at all, the log file followed by the unwritten buffer replays to exactly
      the pending map, in its order, and the next id is new to all of it. */
  lemma {:induction false} LogReplaysToPending(on: bool, batchSize: nat, store: Store, steps: seq<Step>)
    ensures var b := Run(Start(on, batchSize, store), steps).bridge;
      && (on ==> Replay(b.log.disk + b.log.buffer) == b.log.pending)
      && (on ==> forall r :: r in b.log.disk + b.log.buffer ==> r.id < b.nextId + 1)
      && (forall e :: e in Todo(b) ==> e.id < b.nextId + 1)
  {
    hide Run;
    StartGood(on, batchSize, store);
    RunGood(Start(on, batchSize, store), steps);
  }

  /** The attempts of one process are those of its first operation, then those of its second,
      and so on, one to three each, in the order it took them on; and none goes missing. */
  lemma {:induction false} AttemptsComeInBlocks(on: bool, batchSize: nat, store: Store, steps: seq<Step>)
    ensures var y := Run(Start(on, batchSize, store), steps); var b, h := y.bridge, y.hist;
      && h.order == EntriesFinished(h.finished) + Todo(b)
      && h.trace == Blocks(h.finished) + CurrentBlock(b)
      && |CurrentBlock(b)| <= 3
      && (forall f :: f in h.finished ==> 1 <= f.attempts <= 3 && (!f.ok ==> f.attempts == 3))
      && OnlyFrontTried(b)
      && b.succeeded + b.permanentFailures + |b.queue| + (if b.phase.Running? then 1 else 0) == |h.order|
  {
    hide Run;
    StartGood(on, batchSize, store);
    RunGood(Start(on, batchSize, store), steps);
  }

  /** Every attempt ends as a success or a failure, but for the one under way. */
  ghost predicate AttemptsCounted(y: System) {
    AttemptCount(y.bridge) == |y.hist.trace|
  }

  function AttemptCount(b: Bridge): nat {
    b.succeeded + b.failed + if b.phase.Running? then 1 else 0
  }

  lemma StepAttemptCount(b: Bridge, s: Step)
    ensures var c := BridgeNext(b, s);
      AttemptCount(c) == if s.Crash? then 0 else AttemptCount(b) + |Attempted(b, c)|
  {
    hide Logged, Acked, Flushed, Compacted, Replay, MaxId;
  }

  lemma {:induction false} EveryAttemptCounts(on: bool, batchSize: nat, store: Store, steps: seq<Step>)
    ensures AttemptsCounted(Run(Start(on, batchSize, store), steps))
  {
    if steps != [] {
      var y, s := Run(Start(on, batchSize, store), steps[..|steps| - 1]), steps[|steps| - 1];
      EveryAttemptCounts(on, batchSize, store, steps[..|steps| - 1]);
      StepAttemptCount(y.bridge, s);
      hide BridgeNext, StoreNext, TakenOn, LeftBehind, AttemptCount, Attempted, Start;
    }
  }

  /** An operation that was given up was never acknowledged. */
  lemma GivenUpPending(b: Bridge, h: History, f: Finished)
    requires InOrder(b, h) && Kept(b, h) && b.log.on && f in h.finished && !f.ok
    ensures f.entry in b.log.pending && !Acknowledged(h, f.entry)
  {
    hide Replay, Todo;
    var i :| 0 <= i < |h.finished| && h.finished[i] == f;
    assert h.order[i] == f.entry;
    forall g | g in h.finished && g.entry == f.entry ensures !g.ok {
      var j :| 0 <= j < |h.finished| && h.finished[j] == g;
      assert h.order[j] == g.entry;
    }
  }

  /** Whatever happens, an operation whose record reached the log file has succeeded or is
      queued again by the next process, and one that was given up is queued again. */
  lemma {:induction false} DurableOperationsSurvive(batchSize: nat, store: Store, steps: seq<Step>)
    ensures var y := Run(Start(true, batchSize, store), steps); var next := Next(y, Crash).bridge;
      && (forall e :: e in y.hist.durable ==> Acknowledged(y.hist, e) || e in Todo(next))
      && (forall f :: f in y.hist.finished && !f.ok ==>
            f.entry in y.bridge.log.pending && (f.entry in y.hist.durable ==> f.entry in Todo(next)))
  {
    hide Run, Sound, Counted, Traced, InOrder, Todo, Acknowledged;
    StartGood(true, batchSize, store);
    RunGood(Start(true, batchSize, store), steps);
    var y := Run(Start(true, batchSize, store), steps);
    BootedSound(true, y.bridge.log.batchSize, y.bridge.log.disk);
    forall f | f in y.hist.finished && !f.ok
      ensures f.entry in y.bridge.log.pending && !Acknowledged(y.hist, f.entry)
    {
      GivenUpPending(y.bridge, y.hist, f);
    }
  }
}
