/** Why giving an operation up is excluded from the recovery result: it comes back. */
module StorageLastWrite {
  import opened Options
  import opened WriteAheadLog
  import opened StorageBridge
  import opened StorageRuns
  import opened StorageRecovery

  const OLDER: Payload := Task("t", "older")
  const NEWER: Payload := Task("t", "newer")

  // The states the run goes through.

  const BEGIN: System := Start(true, 1, map[])
  const NEW_PROCESS: Bridge := Bridge(Log(true, 1, [], [], [], 0, 0), false, false, Idle, 0, [], 0, 0, 0)
  const OLDER_LOG: Log := Log(true, 1, [OpRecord(1, OLDER)], [], [Entry(1, OLDER)], 1, 0)
  const BASE: Bridge := Bridge(OLDER_LOG, true, false, Idle, 1, [], 0, 0, 0)
  const GIVEN_UP: Bridge := BASE.(failed := 3, permanentFailures := 1)
  const BOTH_LOG: Log :=
    Log(true, 1, [OpRecord(1, OLDER), OpRecord(2, NEWER)], [], [Entry(1, OLDER), Entry(2, NEWER)], 2, 0)
  const ACKED_LOG: Log :=
    Log(true, 1, [OpRecord(1, OLDER), OpRecord(2, NEWER), AckRecord(2)], [], [Entry(1, OLDER)], 3, 0)
  const QUEUED: Bridge := GIVEN_UP.(log := BOTH_LOG, nextId := 2, queue := [Operation(2, 0, NEWER)], scheduled := true)
  const FLUSHING: Bridge := QUEUED.(phase := Draining, scheduled := false)
  const STORING: Bridge := FLUSHING.(phase := Running(Operation(2, 0, NEWER)), queue := [])
  const STORED: Bridge := GIVEN_UP.(log := ACKED_LOG, nextId := 2, succeeded := 1, phase := Draining)
  const AGAIN: Bridge :=
    Bridge(Log(true, 1, ACKED_LOG.disk, [], [Entry(1, OLDER)], 0, 0), false, false, Idle, 2, [Operation(1, 0, OLDER)], 0, 0, 0)

  /** The parts of a system the story is about. */
  ghost predicate At(y: System, b: Bridge, store: Store, log: seq<Payload>) {
    y.bridge == b && y.store == store && y.hist.log == log
  }

  lemma NextAt(y: System, s: Step)
    ensures At(Next(y, s), BridgeNext(y.bridge, s), StoreNext(y.bridge, s, y.store),
               y.hist.log + if s.Crash? then [] else Payloads(TakenOn(y.bridge, s)))
  {
    hide BridgeNext, StoreNext, TakenOn, LeftBehind, Attempted;
  }

  lemma RunSplit(y: System, a: seq<Step>, s: Step)
    ensures Run(y, a + [s]) == Next(Run(y, a), s)
  {
    assert (a + [s])[..|a|] == a;
  }

  /** A step that takes nothing on and stores nothing. */
  lemma QuietStep(y: System, s: Step, b: Bridge, store: Store, log: seq<Payload>)
    requires At(y, b, store, log)
    requires s.SetStorage? || s.Timer? || s.FlushQueue? || s.Advance? || s.Reject? || s.CompactFlush? || s.CompactRename? || s.Crash?
    ensures At(Next(y, s), BridgeNext(b, s), store, log)
  {
    NextAt(y, s);
    hide BridgeNext;
    assert log + [] == log;
  }

  function Front(b: Bridge, attempt: nat): Bridge {
    b.(queue := [Operation(1, attempt, OLDER)], failed := attempt, phase := Idle, scheduled := false)
  }

  lemma WritesThatSucceed()
    ensures forall s: Step ::
      (s.Enqueue? || s.FlushWal? || s.Resolve? || s.CompactFlush? ==> s.write == WriteSucceeds) && (s.CompactRename? ==> s.ok)
      ==> WritesSucceed([s])
  {
  }

  lemma SucceedMore(steps: seq<Step>, s: Step)
    requires WritesSucceed(steps) && WritesSucceed([s])
    ensures WritesSucceed(steps + [s])
  {
    assert s in [s];
  }

  /** One step more of a run, to where it is known to lead. */
  lemma More(steps: seq<Step>, s: Step, b: Bridge, store: Store, log: seq<Payload>)
    requires At(Run(BEGIN, steps), b, store, log) && WritesSucceed(steps) && WritesSucceed([s])
    requires s.SetStorage? || s.Timer? || s.FlushQueue? || s.Advance? || s.Reject? || s.CompactFlush? || s.CompactRename? || s.Crash?
    ensures At(Run(BEGIN, steps + [s]), BridgeNext(b, s), store, log) && WritesSucceed(steps + [s])
  {
    SucceedMore(steps, s);
    RunSplit(BEGIN, steps, s);
    QuietStep(Run(BEGIN, steps), s, b, store, log);
  }

  lemma MoreWork(steps: seq<Step>, s: Step, b: Bridge, store: Store, log: seq<Payload>)
    requires At(Run(BEGIN, steps), b, store, log) && (s.Enqueue? || s.Resolve?) && WritesSucceed(steps) && WritesSucceed([s])
    ensures At(Run(BEGIN, steps + [s]), BridgeNext(b, s), StoreNext(b, s, store), log + Payloads(TakenOn(b, s)))
    ensures WritesSucceed(steps + [s])
  {
    SucceedMore(steps, s);
    RunSplit(BEGIN, steps, s);
    NextAt(Run(BEGIN, steps), s);
  }

  /** The older operation is given up after three attempts. */
  lemma GivenUp() returns (steps: seq<Step>)
    ensures WritesSucceed(steps)
    ensures At(Run(BEGIN, steps), BASE.(failed := 3, permanentFailures := 1, phase := Draining), map[], [OLDER])
  {
    hide Run;
    var b1 := NEW_PROCESS.(attached := true, scheduled := true);
    var b2 := BASE.(queue := [Operation(1, 0, OLDER)], scheduled := true);
    assert Booted(true, 1, []) == NEW_PROCESS;
    assert At(Run(BEGIN, []), NEW_PROCESS, map[], []) by { EmptyRun(); }
    assert BridgeNext(NEW_PROCESS, SetStorage(true)) == b1;
    More([], SetStorage(true), NEW_PROCESS, map[], []);
    steps := [] + [SetStorage(true)];
    assert BridgeNext(b1, Enqueue(OLDER, WriteSucceeds)) == b2;
    assert [] + Payloads(TakenOn(b1, Enqueue(OLDER, WriteSucceeds))) == [OLDER];
    MoreWork(steps, Enqueue(OLDER, WriteSucceeds), b1, map[], []);
    steps := steps + [Enqueue(OLDER, WriteSucceeds)];
    hide BridgeNext;
    steps := ThreeAttempts(steps, b2);
  }

  lemma EmptyRun()
    ensures At(Run(BEGIN, []), NEW_PROCESS, map[], [])
  {
    assert OperationsOf([]) == [];
  }

  lemma ThreeAttempts(before: seq<Step>, b: Bridge) returns (steps: seq<Step>)
    requires b == BASE.(queue := [Operation(1, 0, OLDER)], scheduled := true)
    requires WritesSucceed(before)
    requires At(Run(BEGIN, before), b, map[], [OLDER])
    ensures WritesSucceed(steps)
    ensures At(Run(BEGIN, steps), BASE.(failed := 3, permanentFailures := 1, phase := Draining), map[], [OLDER])
  {
    hide Run;
    steps := before;
    steps := Fails(steps, b, Timer);
    steps := Fails(steps, Front(BASE, 1), FlushQueue);
    steps := Fails(steps, Front(BASE, 2), FlushQueue);
  }

  lemma {:induction false} Fails(before: seq<Step>, b: Bridge, start: Step) returns (steps: seq<Step>)
    requires WritesSucceed(before)
    requires At(Run(BEGIN, before), b, map[], [OLDER])
    requires b.failed < 3 && b.(scheduled := false) == Front(BASE, b.failed)
    requires if b.scheduled then start == Timer else start == FlushQueue
    ensures WritesSucceed(steps)
    ensures At(Run(BEGIN, steps),
               if b.failed == 2 then BASE.(failed := 3, permanentFailures := 1, phase := Draining) else Front(BASE, b.failed + 1),
               map[], [OLDER])
  {
    hide Run;
    var b1 := b.(phase := Draining, scheduled := false);
    var b2 := b1.(phase := Running(Operation(1, b.failed, OLDER)), queue := []);
    assert b.queue[1..] == [];
    assert BridgeNext(b, start) == b1 && BridgeNext(b1, Advance) == b2;
    assert BridgeNext(b2, Reject) ==
      if b.failed == 2 then BASE.(failed := 3, permanentFailures := 1, phase := Draining) else Front(BASE, b.failed + 1);
    More(before, start, b, map[], [OLDER]);
    More(before + [start], Advance, b1, map[], [OLDER]);
    More(before + [start] + [Advance], Reject, b2, map[], [OLDER]);
    steps := before + [start] + [Advance] + [Reject];
  }

  /** The newer operation is stored. */
  lemma Overtaken() returns (steps: seq<Step>)
    ensures WritesSucceed(steps)
    ensures At(Run(BEGIN, steps), STORED, map[TaskKey("t") := Row("newer")], [OLDER, NEWER])
  {
    hide Run;
    steps := GivenUp();
    var b0 := GIVEN_UP.(phase := Draining);
    CompactsToItself();
    assert BridgeNext(b0, Advance) == GIVEN_UP.(phase := Compacting);
    More(steps, Advance, b0, map[], [OLDER]);
    steps := steps + [Advance];
    More(steps, CompactFlush(WriteSucceeds), GIVEN_UP.(phase := Compacting), map[], [OLDER]);
    steps := steps + [CompactFlush(WriteSucceeds)];
    More(steps, CompactRename(true), GIVEN_UP.(phase := Renaming), map[], [OLDER]);
    steps := steps + [CompactRename(true)];
    hide BridgeNext;
    steps := Stores(steps);
  }

  lemma CompactsToItself()
    ensures BridgeNext(GIVEN_UP.(phase := Compacting), CompactFlush(WriteSucceeds)) == GIVEN_UP.(phase := Renaming)
    ensures BridgeNext(GIVEN_UP.(phase := Renaming), CompactRename(true)) == GIVEN_UP
  {
    assert OpRecords([Entry(1, OLDER)]) == [OpRecord(1, OLDER)];
  }

  lemma NewerMoves()
    ensures BridgeNext(GIVEN_UP, Enqueue(NEWER, WriteSucceeds)) == QUEUED
    ensures TakenOn(GIVEN_UP, Enqueue(NEWER, WriteSucceeds)) == [Entry(2, NEWER)] && TakenOn(STORING, Resolve(WriteSucceeds)) == []
    ensures BridgeNext(QUEUED, Timer) == FLUSHING && BridgeNext(FLUSHING, Advance) == STORING
    ensures BridgeNext(STORING, Resolve(WriteSucceeds)) == STORED
    ensures StoreNext(STORING, Resolve(WriteSucceeds), map[]) == map[TaskKey("t") := Row("newer")]
  {
    BothLogged();
    hide Logged, Acked;
    assert QUEUED.queue[1..] == [];
  }

  lemma Stores(before: seq<Step>) returns (steps: seq<Step>)
    requires WritesSucceed(before)
    requires At(Run(BEGIN, before), GIVEN_UP, map[], [OLDER])
    ensures WritesSucceed(steps)
    ensures At(Run(BEGIN, steps), STORED, map[TaskKey("t") := Row("newer")], [OLDER, NEWER])
  {
    NewerMoves();
    WritesThatSucceed();
    assert [OLDER] + Payloads([Entry(2, NEWER)]) == [OLDER, NEWER] && [OLDER, NEWER] + Payloads([]) == [OLDER, NEWER];
    hide Run, WritesSucceed, BridgeNext, StoreNext, TakenOn;
    MoreWork(before, Enqueue(NEWER, WriteSucceeds), GIVEN_UP, map[], [OLDER]);
    steps := before + [Enqueue(NEWER, WriteSucceeds)];
    More(steps, Timer, QUEUED, map[], [OLDER, NEWER]);
    More(steps + [Timer], Advance, FLUSHING, map[], [OLDER, NEWER]);
    steps := steps + [Timer] + [Advance];
    MoreWork(steps, Resolve(WriteSucceeds), STORING, map[], [OLDER, NEWER]);
    steps := steps + [Resolve(WriteSucceeds)];
  }

  lemma RemoveSecond(e: Entry, f: Entry)
    requires e.id != f.id
    ensures Remove([e, f], f.id) == [e]
  {
    assert [e, f][1..] == [f] && [f][1..] == [];
    assert Remove([f], f.id) == Remove([f][1..], f.id) == [];
  }

  lemma BothLogged()
    ensures Logged(OLDER_LOG, Entry(2, NEWER), WriteSucceeds) == BOTH_LOG && Acked(BOTH_LOG, 2, WriteSucceeds) == ACKED_LOG
  {
    PutFresh([Entry(1, OLDER)], Entry(2, NEWER));
    RemoveSecond(Entry(1, OLDER), Entry(2, NEWER));
    var m := BOTH_LOG.pending;
    assert m[1] in m;
    hide Put, Remove;
  }

  lemma BootedAgain()
    ensures Booted(true, 1, ACKED_LOG.disk) == AGAIN
  {
    var older, newer, ack := OpRecord(1, OLDER), OpRecord(2, NEWER), AckRecord(2);
    assert [] + [older] == [older] && [older] + [newer] == [older, newer] && [older, newer] + [ack] == ACKED_LOG.disk;
    ApplySnoc([], [], older);
    ApplySnoc([], [older], newer);
    ApplySnoc([], [older, newer], ack);
    PutFresh([Entry(1, OLDER)], Entry(2, NEWER));
    RemoveSecond(Entry(1, OLDER), Entry(2, NEWER));
    assert Put([], Entry(1, OLDER)) == [Entry(1, OLDER)];
    hide ApplyRecords, Put, Remove;
    assert Replay(ACKED_LOG.disk) == [Entry(1, OLDER)];
    HighestId();
    hide MaxId;
    assert OperationsOf([Entry(1, OLDER)]) == [Operation(1, 0, OLDER)];
  }

  lemma HighestId()
    ensures MaxId(ACKED_LOG.disk) == 2
  {
    var d := ACKED_LOG.disk;
    assert d[..2] == [OpRecord(1, OLDER), OpRecord(2, NEWER)];
    assert MaxId(d) >= d[2].id;
    assert d[..2][..1] == [OpRecord(1, OLDER)] && d[..2][..1][..0] == [];
    assert MaxId(d[..2][..1]) == 1;
  }

  lemma OlderStored()
    ensures Acked(AGAIN.log, 1, WriteSucceeds).pending == [] && Effect(OLDER) == map[TaskKey("t") := Row("older")]
  {
    assert [Entry(1, OLDER)][1..] == [] && Remove([], 1) == [];
    assert Remove([Entry(1, OLDER)], 1) == Remove([Entry(1, OLDER)][1..], 1);
    assert AGAIN.log.pending[0] in AGAIN.log.pending;
  }

  lemma FoldBoth()
    ensures Fold(map[], [OLDER, NEWER]) == map[TaskKey("t") := Row("newer")]
  {
    assert [OLDER, NEWER][..1] == [OLDER] && [OLDER][..0] == [];
    assert Fold(map[], [OLDER]) == map[TaskKey("t") := Row("older")];
  }

  /** Although every log write succeeds and nothing is left to do, the older of two writes
      to one task is what the store holds: the operation that was given up came back. */
  lemma LastWriteLost() returns (steps: seq<Step>)
    ensures var y := Run(Start(true, 1, map[]), steps);
      && WritesSucceed(steps)
      && Todo(y.bridge) == [] && y.hist.log == [OLDER, NEWER]
      && y.store == map[TaskKey("t") := Row("older")]
      && Fold(map[], y.hist.log) == map[TaskKey("t") := Row("newer")]
  {
    hide Run, Fold;
    WritesThatSucceed();
    FoldBoth();
    hide WritesSucceed, Logged, Acked;
    OlderStored();
    BootedAgain();
    steps := Overtaken();
    var newer, log := map[TaskKey("t") := Row("newer")], [OLDER, NEWER];
    var b2 := AGAIN.(attached := true, scheduled := true);
    var b3 := AGAIN.(attached := true, phase := Draining);
    var b4 := b3.(phase := Running(Operation(1, 0, OLDER)), queue := []);
    hide Acked, Booted, Effect;
    assert BridgeNext(STORED, Crash) == AGAIN && BridgeNext(AGAIN, SetStorage(true)) == b2;
    assert BridgeNext(b2, Timer) == b3 && BridgeNext(b3, Advance) == b4;
    assert log + Payloads(TakenOn(b4, Resolve(WriteSucceeds))) == log;
    assert StoreNext(b4, Resolve(WriteSucceeds), newer) == map[TaskKey("t") := Row("older")];
    assert Todo(BridgeNext(b4, Resolve(WriteSucceeds))) == [];
    hide BridgeNext, StoreNext, TakenOn;
    More(steps, Crash, STORED, newer, log);
    steps := steps + [Crash];
    More(steps, SetStorage(true), AGAIN, newer, log);
    steps := steps + [SetStorage(true)];
    More(steps, Timer, b2, newer, log);
    steps := steps + [Timer];
    More(steps, Advance, b3, newer, log);
    steps := steps + [Advance];
    MoreWork(steps, Resolve(WriteSucceeds), b4, newer, log);
    steps := steps + [Resolve(WriteSucceeds)];
  }
}
