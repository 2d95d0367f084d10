/** What a crash and the replay after it leave in the store. */
module StorageRecovery {
  import opened WriteAheadLog
  import opened StorageBridge
  import opened StorageRuns

  // ---------------------------------------------------------------- later writes win

  lemma {:induction false} FoldConcat(store: Store, a: seq<Payload>, b: seq<Payload>)
    ensures Fold(store, a + b) == Fold(Fold(store, a), b)
  {
    if b == [] {
      assert a + b == a;
    } else {
      var front := b[..|b| - 1];
      assert (a + b)[..|a + b| - 1] == a + front;
      FoldConcat(store, a, front);
    }
  }

  lemma FoldCons(store: Store, p: Payload, ps: seq<Payload>)
    ensures Fold(store, [p] + ps) == Fold(store + Effect(p), ps)
  {
    FoldConcat(store, [p], ps);
    assert [p][..0] == [];
    assert Fold(store, [p][..0]) == store;
  }

  lemma {:induction false} FoldKeys(store: Store, ps: seq<Payload>, p: Payload)
    requires p in ps
    ensures Effect(p).Keys <= Fold(store, ps).Keys
  {
    var front, last := ps[..|ps| - 1], ps[|ps| - 1];
    assert ps == front + [last];
    if p != last {
      FoldKeys(store, front, p);
    }
  }

  /** What is about to be overwritten does not matter. */
  lemma {:induction false} FoldAbsorbs(store: Store, part: Store, ps: seq<Payload>)
    requires part.Keys <= Fold(map[], ps).Keys
    ensures Fold(store + part, ps) == Fold(store, ps)
  {
    FoldOverlay(store + part, ps);
    FoldOverlay(store, ps);
  }

  lemma {:induction false} FoldOverlay(store: Store, ps: seq<Payload>)
    ensures Fold(store, ps) == store + Fold(map[], ps)
  {
    if ps != [] {
      FoldOverlay(store, ps[..|ps| - 1]);
    }
  }

  lemma PartialWrite(store: Store, part: Store, ps: seq<Payload>, p: Payload)
    requires p in ps && part.Keys <= Effect(p).Keys
    ensures Fold(store + part, ps) == Fold(store, ps)
  {
    FoldKeys(map[], ps, p);
    FoldAbsorbs(store, part, ps);
  }

  // ---------------------------------------------------------------- the invariant

  /** The operations a crash at this moment would not lose. */
  function Safe(y: System): seq<Payload> {
    Payloads(Replay(y.bridge.log.disk)) + y.hist.unwritten
  }

  ghost predicate Buffered(l: Log, p: Payload) {
    exists r :: r in l.buffer && r.OpRecord? && r.payload == p
  }

  /** The store once everything that is left has been finished. */
  function Completed(y: System): Store {
    Fold(y.store, Payloads(Todo(y.bridge)))
  }

  /** What file and buffer hold suffices to recover. */
  ghost predicate LogCovers(y: System, init: Store) {
    && y.bridge.log.pending == Todo(y.bridge)
    && Fold(y.store, Safe(y)) == Fold(init, y.hist.log)
    && (forall e :: e in y.bridge.log.pending ==> e.payload in Safe(y))
    && (forall p :: p in y.hist.unwritten ==> Buffered(y.bridge.log, p))
  }

  /** Finishing what is left gives the store that all operations in order would have given;
      with a log, so does replaying what the log file and the buffer hold. */
  ghost predicate Recoverable(y: System, init: Store) {
    && Completed(y) == Fold(init, y.hist.log)
    && (y.bridge.log.on ==> LogCovers(y, init))
  }

  /** The two things the result excludes: giving an operation up, and crashing while an
      operation's record waits in the buffer (or, without a log, while any work is left). */
  predicate Harmless(b: Bridge, s: Step) {
    match s
    case Reject => b.phase.Running? ==> b.phase.op.attempt + 1 < MAX_ATTEMPTS
    case Crash => if b.log.on then forall r :: r in b.log.buffer ==> r.AckRecord? else Todo(b) == []
    case _ => true
  }

  lemma PayloadsConcat(a: seq<Entry>, b: seq<Entry>)
    ensures Payloads(a + b) == Payloads(a) + Payloads(b)
  {
  }

  lemma PayloadIn(m: seq<Entry>, e: Entry)
    requires e in m
    ensures e.payload in Payloads(m)
  {
    var i :| 0 <= i < |m| && m[i] == e;
    assert Payloads(m)[i] == e.payload;
  }

  /** What a step puts into the store. */
  function Written(b: Bridge, s: Step): Store {
    if s.StoreWrite? && b.phase.Running? then
      map k | k in s.part && k in Effect(b.phase.op.payload) :: Effect(b.phase.op.payload)[k]
    else if s.Resolve? && b.phase.Running? then Effect(b.phase.op.payload)
    else map[]
  }

  lemma StoreGrows(y: System, s: Step)
    ensures Next(y, s).store == y.store + Written(y.bridge, s)
    ensures !y.bridge.phase.Running? ==> Next(y, s).store == y.store
    ensures y.bridge.phase.Running? ==> Written(y.bridge, s).Keys <= Effect(y.bridge.phase.op.payload).Keys
  {
    hide BridgeNext, HistoryNext, Effect;
  }

  /** The work still to do, done on top of what the store holds, gives what it always did. */
  lemma StepFold(y: System, init: Store, s: Step)
    requires Harmless(y.bridge, s) && !s.Crash?
    requires Completed(y) == Fold(init, y.hist.log)
    ensures Completed(Next(y, s)) == Fold(init, Next(y, s).hist.log)
  {
    var b, z := y.bridge, Next(y, s);
    var taken := TakenOn(b, s);
    WorkMoves(b, s);
    StoreGrows(y, s);
    assert z.bridge == BridgeNext(b, s) && z.hist.log == y.hist.log + Payloads(taken);
    assert taken == [] ==> z.hist.log == y.hist.log;
    assert LeftBehind(b, s) != [] ==> s.Resolve? && Payloads([InFlight(b)]) == [b.phase.op.payload];
    hide BridgeNext, TakenOn, Todo, Written, StoreNext, HistoryNext, Harmless, Next, Effect, Fold;
    if taken != [] {
      PayloadsConcat(Todo(b), taken);
      FoldConcat(y.store, Payloads(Todo(b)), Payloads(taken));
      FoldConcat(init, y.hist.log, Payloads(taken));
    } else if LeftBehind(b, s) != [] {
      hide LeftBehind;
      PayloadsConcat([InFlight(b)], Todo(z.bridge));
      FoldCons(y.store, b.phase.op.payload, Payloads(Todo(z.bridge)));
    } else {
      if b.phase.Running? {
        RunningPayload(b);
        PartialWrite(y.store, Written(b, s), Payloads(Todo(b)), b.phase.op.payload);
      }
    }
  }

  /** A step other than a crash takes an operation on, leaves one behind, or leaves the work as it is. */
  lemma WorkMoves(b: Bridge, s: Step)
    requires !s.Crash?
    ensures var c := BridgeNext(b, s);
      && (TakenOn(b, s) != [] ==>
            |TakenOn(b, s)| == 1 && Todo(c) == Todo(b) + TakenOn(b, s) && Written(b, s) == map[])
      && (LeftBehind(b, s) != [] ==>
            && TakenOn(b, s) == [] && b.phase.Running? && Todo(b) == [InFlight(b)] + Todo(c)
            && Written(b, s) == if s.Resolve? then Effect(b.phase.op.payload) else map[])
      && (TakenOn(b, s) == [] && LeftBehind(b, s) == [] ==> Todo(c) == Todo(b) && !(s.Resolve? && b.phase.Running?))
  {
    StepTodo(b, s);
    var c := BridgeNext(b, s);
    assert TakenOn(b, s) == [] || LeftBehind(b, s) == [];
    assert Todo(b) + [] == Todo(b) && [] + Todo(c) == Todo(c);
    hide BridgeNext, Todo, Effect;
    if LeftBehind(b, s) != [] {
      assert EntriesFinished(LeftBehind(b, s)) == [InFlight(b)];
    }
  }

  lemma RunningPayload(b: Bridge)
    requires b.phase.Running?
    ensures InFlight(b) in Todo(b) && b.phase.op.payload in Payloads(Todo(b))
  {
    assert Todo(b)[0] == InFlight(b);
    PayloadIn(Todo(b), InFlight(b));
  }

  lemma RemoveFirst(m: seq<Entry>, e: Entry, rest: seq<Entry>)
    requires Distinct(m) && m == [e] + rest
    ensures Remove(m, e.id) == rest
  {
    assert m[0] == e;
    forall x | x in rest ensures x.id != e.id {
      var i :| 0 <= i < |rest| && rest[i] == x;
      assert m[i + 1] == x;
    }
    assert m[1..] == rest;
    RemoveAbsent(rest, e.id);
  }

  /** While nothing is given up, the pending map is exactly the work that is left. */
  lemma StepPendingTodo(b: Bridge, s: Step)
    requires Sound(b) && Distinct(Todo(b)) && Harmless(b, s) && b.log.on
    requires !s.Crash? && b.log.pending == Todo(b)
    ensures BridgeNext(b, s).log.pending == Todo(BridgeNext(b, s))
  {
    WorkMoves(b, s);
    StepLog(b, s);
    assert (LeftBehind(b, s) != []) == (s.Resolve? && b.phase.Running?);
    assert b.log.pending + [] == b.log.pending && (LeftBehind(b, s) != [] ==> b.phase.op.id == InFlight(b).id);
    hide *;
    if LeftBehind(b, s) != [] {
      RemoveFirst(Todo(b), InFlight(b), Todo(BridgeNext(b, s)));
    }
  }

  /** The log file is replaced by something that replays to the pending map, or what was
      safe stays safe and new work joins it. */
  lemma {:induction false} StepSafe(y: System, s: Step)
    requires Sound(y.bridge) && y.bridge.log.on && !s.Crash?
    ensures var z := Next(y, s);
      && z.hist.log == y.hist.log + Payloads(TakenOn(y.bridge, s))
      && (Safe(z) == Payloads(z.bridge.log.pending) || Safe(z) == Safe(y) + Payloads(TakenOn(y.bridge, s)))
  {
    StepLog(y.bridge, s);
    hide BridgeNext, StoreNext, Sound, LogSound, Todo, ApplyRecords, LeftBehind;
  }

  /** Every pending operation is still safe after the step. */
  lemma StepMembers(y: System, s: Step, e: Entry)
    requires Sound(y.bridge) && y.bridge.log.on && !s.Crash?
    requires forall x :: x in y.bridge.log.pending ==> x.payload in Safe(y)
    requires e in Next(y, s).bridge.log.pending
    ensures e.payload in Safe(Next(y, s))
  {
    var b, taken := y.bridge, TakenOn(y.bridge, s);
    StepSafe(y, s);
    StepLog(b, s);
    RemoveMembers(b.log.pending, if b.phase.Running? then b.phase.op.id else 0);
    assert Next(y, s).bridge == BridgeNext(b, s);
    assert e in b.log.pending || e in taken;
    hide *;
    PayloadIn(Next(y, s).bridge.log.pending, e);
    if e in taken {
      PayloadIn(taken, e);
    }
  }

  lemma {:induction false} StepSafeFold(y: System, init: Store, s: Step)
    requires Sound(y.bridge) && y.bridge.log.on && !s.Crash?
    requires y.bridge.log.pending == Todo(y.bridge) && Next(y, s).bridge.log.pending == Todo(Next(y, s).bridge)
    requires forall e :: e in y.bridge.log.pending ==> e.payload in Safe(y)
    requires Fold(y.store, Safe(y)) == Fold(init, y.hist.log)
    requires Completed(Next(y, s)) == Fold(init, Next(y, s).hist.log)
    ensures Fold(Next(y, s).store, Safe(Next(y, s))) == Fold(init, Next(y, s).hist.log)
  {
    assert Completed(Next(y, s)) == Fold(Next(y, s).store, Payloads(Todo(Next(y, s).bridge)));
    hide *;
    StepSafe(y, s);
    StoreSafe(y, s);
    FoldConcat(Next(y, s).store, Safe(y), Payloads(TakenOn(y.bridge, s)));
    FoldConcat(init, y.hist.log, Payloads(TakenOn(y.bridge, s)));
  }

  /** The running operation is safe, so writing it makes no difference to the recovery. */
  lemma StoreSafe(y: System, s: Step)
    requires y.bridge.log.on && y.bridge.log.pending == Todo(y.bridge)
    requires forall e :: e in y.bridge.log.pending ==> e.payload in Safe(y)
    ensures Fold(Next(y, s).store, Safe(y)) == Fold(y.store, Safe(y))
  {
    StoreGrows(y, s);
    var b := y.bridge;
    if b.phase.Running? {
      RunningPayload(b);
      hide Next, Fold, Effect, Written, Safe;
      assert InFlight(b).payload in Safe(y);
      PartialWrite(y.store, Written(b, s), Safe(y), b.phase.op.payload);
    }
  }

  /** An operation that is not in the log file yet is still in the buffer. */
  lemma StepBuffered(y: System, s: Step)
    requires y.bridge.log.on && forall p :: p in y.hist.unwritten ==> Buffered(y.bridge.log, p)
    ensures forall p :: p in Next(y, s).hist.unwritten ==> Buffered(Next(y, s).bridge.log, p)
  {
    hide StoreNext, LeftBehind, Put, Remove, OpRecords, Replay, MaxId;
    var b, z := y.bridge, Next(y, s);
    if z.bridge.log.disk == b.log.disk && !s.Crash? {
      BufferGrows(b, s);
      forall p | p in z.hist.unwritten ensures Buffered(z.bridge.log, p) {
        if p in y.hist.unwritten {
          var r :| r in b.log.buffer && r.OpRecord? && r.payload == p;
          assert r in z.bridge.log.buffer;
        } else {
          assert OpRecord(b.nextId + 1, p) in z.bridge.log.buffer;
        }
      }
    }
  }

  lemma BufferGrows(b: Bridge, s: Step)
    requires b.log.on && !s.Crash? && BridgeNext(b, s).log.disk == b.log.disk
    ensures forall r :: r in b.log.buffer ==> r in BridgeNext(b, s).log.buffer
    ensures s.Enqueue? && Possible(b, s) ==> OpRecord(b.nextId + 1, s.payload) in BridgeNext(b, s).log.buffer
  {
    hide Put, Remove, OpRecords;
    if Possible(b, s) && (s.Enqueue? || s.Resolve?) {
      var r := if s.Enqueue? then OpRecord(b.nextId + 1, s.payload) else AckRecord(b.phase.op.id);
      var l := b.log.(buffer := b.log.buffer + [r]);
      assert r in l.buffer;
    }
  }

  lemma {:induction false} StepRecoverable(y: System, init: Store, s: Step)
    requires Good(y) && Recoverable(y, init) && Harmless(y.bridge, s)
    ensures Recoverable(Next(y, s), init)
  {
    if s.Crash? {
      CrashRecoverable(y, init);
    } else {
      TodoDistinct(y);
      GoodStep(y, s);
      hide Good, Next, Todo, Safe, Fold, Completed, BridgeNext, Harmless, Sound, Distinct, Buffered;
      StepFold(y, init, s);
      if y.bridge.log.on {
        StepLogged(y, init, s);
      }
    }
  }

  lemma {:induction false} StepLogged(y: System, init: Store, s: Step)
    requires Sound(y.bridge) && Distinct(Todo(y.bridge)) && y.bridge.log.on && LogCovers(y, init)
    requires Harmless(y.bridge, s) && !s.Crash? && Completed(Next(y, s)) == Fold(init, Next(y, s).hist.log)
    ensures LogCovers(Next(y, s), init)
  {
    var z := Next(y, s);
    assert z.bridge == BridgeNext(y.bridge, s);
    hide Next, Todo, Safe, Fold, Completed, BridgeNext, Harmless, Sound, Distinct, Buffered;
    StepPendingTodo(y.bridge, s);
    StepSafeFold(y, init, s);
    forall e | e in z.bridge.log.pending ensures e.payload in Safe(z) {
      StepMembers(y, s, e);
    }
    StepBuffered(y, s);
  }

  lemma GoodStep(y: System, s: Step)
    requires Good(y)
    ensures Sound(y.bridge) && Next(y, s).bridge.log.on == y.bridge.log.on
  {
    hide Sound, InOrder, Counted, Kept, Traced;
    StepGood(y, s);
  }

  lemma TodoDistinct(y: System)
    requires Good(y)
    ensures Distinct(Todo(y.bridge))
  {
    hide Todo, Sound, Counted, Kept, Traced;
    var m, n := y.hist.order, |y.hist.finished|;
    forall i, j | 0 <= i < j < |Todo(y.bridge)| ensures Todo(y.bridge)[i].id != Todo(y.bridge)[j].id {
      assert m[n + i] == Todo(y.bridge)[i] && m[n + j] == Todo(y.bridge)[j];
    }
  }

  lemma NothingUnwritten(y: System)
    requires forall p :: p in y.hist.unwritten ==> Buffered(y.bridge.log, p)
    requires forall r :: r in y.bridge.log.buffer ==> r.AckRecord?
    ensures y.hist.unwritten == []
  {
    assert y.hist.unwritten != [] ==> Buffered(y.bridge.log, y.hist.unwritten[0]);
  }

  lemma {:induction false} CrashRecoverable(y: System, init: Store)
    requires Recoverable(y, init) && Harmless(y.bridge, Crash)
    ensures Recoverable(Next(y, Crash), init)
  {
    var l, z := y.bridge.log, Next(y, Crash);
    BootedSound(l.on, l.batchSize, l.disk);
    hide Sound, Todo, Fold, MaxId, Effect;
    if l.on {
      NothingUnwritten(y);
      assert Safe(y) == Payloads(Replay(l.disk)) == Payloads(Todo(z.bridge)) == Safe(z);
      forall e | e in z.bridge.log.pending ensures e.payload in Safe(z) {
        PayloadIn(z.bridge.log.pending, e);
      }
    }
  }

  // ---------------------------------------------------------------- the result

  ghost predicate HarmlessRun(y: System, steps: seq<Step>) {
    steps != [] ==>
      && HarmlessRun(y, steps[..|steps| - 1])
      && Harmless(Run(y, steps[..|steps| - 1]).bridge, steps[|steps| - 1])
  }

  lemma {:induction false} RunRecoverable(y: System, init: Store, steps: seq<Step>)
    requires Good(y) && Recoverable(y, init) && HarmlessRun(y, steps)
    ensures Recoverable(Run(y, steps), init)
  {
    hide Good, Next, Recoverable, Harmless;
    if steps != [] {
      var front := steps[..|steps| - 1];
      RunRecoverable(y, init, front);
      RunGood(y, front);
      StepRecoverable(Run(y, front), init, steps[|steps| - 1]);
    }
  }

  lemma StartRecoverable(on: bool, batchSize: nat, store: Store)
    ensures Recoverable(Start(on, batchSize, store), store)
  {
    var y := Start(on, batchSize, store);
    BootedSound(on, batchSize, []);
    assert y.bridge.log.pending == [] && Safe(y) == [];
  }

  /** Through any number of crashes, finishing the work that is left, or with nothing left
      the store itself, is what all operations ever enqueued give when applied in order. */
  lemma {:induction false} StoreIsTheFoldOfEverything(on: bool, batchSize: nat, store: Store, steps: seq<Step>)
    requires HarmlessRun(Start(on, batchSize, store), steps)
    ensures var y := Run(Start(on, batchSize, store), steps);
      && Completed(y) == Fold(store, y.hist.log)
      && (Todo(y.bridge) == [] ==> y.store == Completed(y))
  {
    var y := Start(on, batchSize, store);
    StartGood(on, batchSize, store);
    StartRecoverable(on, batchSize, store);
    hide Good, Run, HarmlessRun, Fold;
    RunRecoverable(y, store, steps);
    if Todo(Run(y, steps).bridge) == [] {
      assert Payloads(Todo(Run(y, steps).bridge)) == [];
      FoldNothing(Run(y, steps).store);
    }
  }

  lemma FoldNothing(store: Store)
    ensures Fold(store, []) == store
  {
  }

  // ---------------------------------------------------------------- records written at once

  predicate WritesSucceed(steps: seq<Step>) {
    forall s :: s in steps ==>
      (s.Enqueue? || s.FlushWal? || s.Resolve? || s.CompactFlush? ==> s.write == WriteSucceeds)
      && (s.CompactRename? ==> s.ok)
  }

  predicate NothingBuffered(b: Bridge) {
    b.log.batchSize == 1 && b.log.buffer == []
  }

  lemma StepUnbuffered(y: System, s: Step)
    requires NothingBuffered(y.bridge) && WritesSucceed([s])
    ensures NothingBuffered(Next(y, s).bridge)
  {
    hide HistoryNext, StoreNext, Put, Remove, OpRecords, Replay, MaxId;
    assert s in [s];
  }

  lemma {:induction false} RunUnbuffered(y: System, steps: seq<Step>)
    requires NothingBuffered(y.bridge) && WritesSucceed(steps)
    ensures NothingBuffered(Run(y, steps).bridge)
  {
    hide Next, NothingBuffered;
    if steps != [] {
      var n := |steps| - 1;
      assert steps[n] in steps && forall s :: s in steps[..n] ==> s in steps;
      assert forall s :: s in [steps[n]] ==> s == steps[n];
      RunUnbuffered(y, steps[..n]);
      StepUnbuffered(Run(y, steps[..n]), steps[n]);
    }
  }

  ghost predicate NoneGivenUp(y: System, steps: seq<Step>) {
    steps != [] ==>
      var front, last := steps[..|steps| - 1], steps[|steps| - 1];
      NoneGivenUp(y, front) && (last.Reject? ==> Harmless(Run(y, front).bridge, last))
  }

  lemma {:induction false} UnbufferedHarmless(y: System, steps: seq<Step>)
    requires y.bridge.log.on && NothingBuffered(y.bridge) && WritesSucceed(steps) && NoneGivenUp(y, steps) && Good(y)
    ensures HarmlessRun(y, steps)
  {
    hide Good, Run, Todo;
    if steps != [] {
      var front := steps[..|steps| - 1];
      assert forall s :: s in front ==> s in steps;
      UnbufferedHarmless(y, front);
      RunUnbuffered(y, front);
      RunGood(y, front);
    }
  }

  lemma WrittenLogIsPending(l: Log, n: nat)
    requires LogSound(l, n) && l.on && l.buffer == []
    ensures Replay(l.disk) == l.pending
  {
    hide Replay, Distinct;
    assert l.disk + l.buffer == l.disk;
  }

  lemma {:induction false} CrashKeepsTodo(y: System, init: Store)
    requires Good(y) && Recoverable(y, init) && y.bridge.log.on && y.bridge.log.buffer == []
    ensures var z := Next(y, Crash);
      && Todo(z.bridge) == Todo(y.bridge)
      && Completed(z) == Fold(init, y.hist.log)
  {
    var l := y.bridge.log;
    BootedSound(true, l.batchSize, l.disk);
    hide Todo, Fold, Safe, InOrder, Counted, Traced, Kept, MaxId, LogSound, Replay;
    WrittenLogIsPending(l, y.bridge.nextId);
  }

  /** With a batch size of one and log writes that succeed, a crash at any moment leaves the
      next process exactly the work that was left, the operation in flight first, and
      finishing it gives the store that all operations in order would have given. */
  lemma {:induction false} CrashAtAnyMoment(store: Store, steps: seq<Step>)
    requires WritesSucceed(steps) && NoneGivenUp(Start(true, 1, store), steps)
    ensures var y := Run(Start(true, 1, store), steps); var z := Next(y, Crash);
      && Todo(z.bridge) == Todo(y.bridge)
      && Completed(z) == Fold(store, y.hist.log)
  {
    var y0 := Start(true, 1, store);
    StartGood(true, 1, store);
    StartRecoverable(true, 1, store);
    assert y0.bridge.log.on && NothingBuffered(y0.bridge);
    hide Start, Run, Good, Recoverable, Next;
    UnbufferedHarmless(y0, steps);
    RunGood(y0, steps);
    RunUnbuffered(y0, steps);
    RunRecoverable(y0, store, steps);
    CrashKeepsTodo(Run(y0, steps), store);
  }

  /** Exactly when an operation just taken on outlives an immediate crash: its record filled
      the batch and the write succeeded. */
  lemma EnqueueSurvivesIff(y: System, payload: Payload, write: Write)
    requires Good(y) && y.bridge.log.on && Possible(y.bridge, Enqueue(payload, write))
    ensures var z := Next(Next(y, Enqueue(payload, write)), Crash);
      (Entry(y.bridge.nextId + 1, payload) in Todo(z.bridge))
      == (write != WriteFails && |y.bridge.log.buffer| + 1 >= y.bridge.log.batchSize)
  {
    var b, e := y.bridge, Entry(y.bridge.nextId + 1, payload);
    assert LogSound(b.log, b.nextId);
    EnqueueThenCrash(y, payload, write);
    hide *;
    LoggedDisk(b.log, e, write, b.nextId);
  }

  lemma EnqueueThenCrash(y: System, payload: Payload, write: Write)
    requires y.bridge.log.on && Possible(y.bridge, Enqueue(payload, write))
    ensures Todo(Next(Next(y, Enqueue(payload, write)), Crash).bridge)
         == Replay(Logged(y.bridge.log, Entry(y.bridge.nextId + 1, payload), write).disk)
  {
    hide HistoryNext, StoreNext, Todo, Replay, Logged;
    var l := Next(y, Enqueue(payload, write)).bridge.log;
    LoggedOn(y.bridge.log, Entry(y.bridge.nextId + 1, payload), write);
    BootedSound(true, l.batchSize, l.disk);
  }

  lemma LoggedOn(l: Log, e: Entry, write: Write)
    ensures Logged(l, e, write).on == l.on
  {
  }

  lemma LoggedDisk(l: Log, e: Entry, write: Write, n: nat)
    requires l.on && LogSound(l, n) && e.id == n + 1
    ensures (e in Replay(Logged(l, e, write).disk)) == (write != WriteFails && |l.buffer| + 1 >= l.batchSize)
  {
    LoggedSound(l, e, write, n);
    ReplayShape(l.disk);
    hide Replay, Reflected, Distinct, Put;
    assert OpRecord(e.id, e.payload) in l.buffer + [OpRecord(e.id, e.payload)];
  }

  /** Everything `p` writes is overwritten by `rest`, or stored already. */
  predicate Superfluous(p: Payload, store: Store, rest: seq<Payload>) {
    forall k :: k in Effect(p) ==> k in Fold(map[], rest) || (k in store && store[k] == Effect(p)[k])
  }

  lemma OverlayIff(store: Store, effect: Store, later: Store)
    ensures (store + effect + later == store + later)
      == (forall k :: k in effect ==> k in later || (k in store && store[k] == effect[k]))
  {
    var with, without := store + effect + later, store + later;
    if forall k :: k in effect ==> k in later || (k in store && store[k] == effect[k]) {
      assert forall k :: k in with <==> k in without;
    } else {
      var k :| k in effect && k !in later && !(k in store && store[k] == effect[k]);
      assert k in with && with[k] == effect[k];
      assert !(k in without && without[k] == effect[k]);
    }
  }

  /** Giving an operation up leaves this process on its way to the right store exactly if
      the operation was superfluous: overtaken by the rest of the queue, or stored already. */
  lemma {:induction false} GivingUpLosesNothingIff(y: System, init: Store)
    requires y.bridge.phase.Running? && y.bridge.phase.op.attempt + 1 >= MAX_ATTEMPTS
    requires Completed(y) == Fold(init, y.hist.log)
    ensures var z := Next(y, Reject);
      (Completed(z) == Fold(init, z.hist.log))
      == Superfluous(y.bridge.phase.op.payload, y.store, Payloads(Todo(z.bridge)))
  {
    var b, p, z := y.bridge, y.bridge.phase.op.payload, Next(y, Reject);
    var rest := Payloads(Todo(z.bridge));
    RejectedTodo(b);
    assert z.bridge == Rejected(b) && z.store == y.store && z.hist.log == y.hist.log + Payloads([]);
    assert z.hist.log == y.hist.log && Payloads([InFlight(b)]) == [p];
    hide Todo, Effect, Next, Rejected;
    PayloadsConcat([InFlight(b)], Todo(z.bridge));
    FoldCons(y.store, p, rest);
    FoldOverlay(y.store + Effect(p), rest);
    FoldOverlay(y.store, rest);
    hide Fold, Payloads;
    OverlayIff(y.store, Effect(p), Fold(map[], rest));
  }

  /** A failed attempt schedules no retry of its own: a timer is armed afterwards only if one
      was before, and otherwise timers change nothing until something else starts a flush. */
  lemma {:induction false} FailedAttemptArmsNoTimer(y: System)
    requires y.bridge.phase.Running? && y.bridge.phase.op.attempt + 1 < MAX_ATTEMPTS
    ensures var z := Next(y, Reject);
      && z.bridge.phase == Idle
      && z.bridge.queue != [] && z.bridge.queue[0] == y.bridge.phase.op.(attempt := y.bridge.phase.op.attempt + 1)
      && z.bridge.scheduled == y.bridge.scheduled
      && (Next(z, Timer).bridge != z.bridge <==> y.bridge.scheduled)
  {
  }
}
