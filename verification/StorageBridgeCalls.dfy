/** What the methods of a process do, as runs of the storage bridge: whatever is proved of all
    runs holds of every sequence of calls. */
module StorageBridgeCalls {
  import opened WriteAheadLog
  import opened StorageBridge
  import opened StorageRuns
  import opened StorageBridgeProcess

  /** A call from outside, or the return of the storage call that a flush is suspended in. */
  datatype Call =
    | EnqueueOperation(payload: Payload, write: Write)
    | FlushWalBuffer(write: Write)
    | SetNexusStorage(on: bool)
    | FireTimer(flush: Write, renameOk: bool)
    | FlushNow(flush: Write, renameOk: bool)
    | Resume(outcome: Outcome, flush: Write, renameOk: bool)

  function StepsOf(c: Call): seq<Step> {
    match c
    case EnqueueOperation(p, w) => [Enqueue(p, w)]
    case FlushWalBuffer(w) => [FlushWal(w)]
    case SetNexusStorage(on) => [SetStorage(on)]
    case FireTimer(f, ok) => [Timer] + DrainSteps(f, ok)
    case FlushNow(f, ok) => [FlushQueue] + DrainSteps(f, ok)
    case Resume(o, f, ok) => [if o.Stored? then Resolve(o.ack) else Reject] + DrainSteps(f, ok)
  }

  function DrainSteps(flush: Write, renameOk: bool): seq<Step> {
    [Advance, CompactFlush(flush), CompactRename(renameOk)]
  }

  function BridgeRun(b: Bridge, steps: seq<Step>): Bridge
    decreases |steps|
  {
    if steps == [] then b else BridgeRun(BridgeNext(b, steps[0]), steps[1..])
  }

  lemma {:induction false} BridgeRunConcat(b: Bridge, s: seq<Step>, t: seq<Step>)
    ensures BridgeRun(b, s + t) == BridgeRun(BridgeRun(b, s), t)
    decreases |s|
  {
    if s == [] {
      assert s + t == t;
    } else {
      assert (s + t)[1..] == s[1..] + t;
      hide BridgeNext;
      BridgeRunConcat(BridgeNext(b, s[0]), s[1..], t);
    }
  }

  /** The bridge of a system runs by itself. */
  lemma {:induction false} RunBridge(y: System, steps: seq<Step>)
    ensures Run(y, steps).bridge == BridgeRun(y.bridge, steps)
  {
    if steps != [] {
      var n := |steps| - 1;
      hide BridgeNext;
      RunBridge(y, steps[..n]);
      assert steps == steps[..n] + [steps[n]] && [steps[n]][1..] == [];
      BridgeRunConcat(y.bridge, steps[..n], [steps[n]]);
      assert BridgeRun(BridgeRun(y.bridge, steps[..n]), [steps[n]]) == BridgeNext(BridgeRun(y.bridge, steps[..n]), steps[n]);
    }
  }

  lemma ThreeSteps(b: Bridge, s: Step, t: Step, u: Step)
    ensures BridgeRun(b, [s, t, u]) == BridgeNext(BridgeNext(BridgeNext(b, s), t), u)
  {
    var c := BridgeNext(b, s);
    var d := BridgeNext(c, t);
    hide BridgeNext;
    assert [s, t, u][1..] == [t, u] && [t, u][1..] == [u] && [u][1..] == [];
    assert BridgeRun(c, [t, u]) == BridgeRun(d, [u]);
  }

  lemma DrainedRun(b: Bridge, flush: Write, renameOk: bool)
    ensures var c := BridgeRun(b, DrainSteps(flush, renameOk));
      && (Interruptible(b) ==> c == b)
      && (b.phase == Draining ==> c == Drained(b, flush, renameOk) && Interruptible(c))
  {
    var f, r := CompactFlush(flush), CompactRename(renameOk);
    var c := BridgeNext(b, Advance);
    var d := BridgeNext(c, f);
    ThreeSteps(b, Advance, f, r);
    hide BridgeRun, Flushed, Compacted;
  }

  /** A call is its first step, and then the loop of the flush where that is reached. */
  lemma CallRun(b: Bridge, c: Call)
    requires Interruptible(b)
    ensures var n := BridgeNext(b, StepsOf(c)[0]);
      BridgeRun(b, StepsOf(c)) ==
        if (c.FireTimer? || c.FlushNow? || c.Resume?) && n.phase == Draining then Drained(n, c.flush, c.renameOk) else n
    ensures Interruptible(BridgeRun(b, StepsOf(c)))
  {
    var s, rest := StepsOf(c)[0], StepsOf(c)[1..];
    assert BridgeRun(b, StepsOf(c)) == BridgeRun(BridgeNext(b, s), rest);
    if c.FireTimer? || c.FlushNow? || c.Resume? {
      assert rest == DrainSteps(c.flush, c.renameOk);
      hide BridgeRun;
      DrainedRun(BridgeNext(b, s), c.flush, c.renameOk);
    }
  }

  /** Each call does to the process what its steps do to the bridge of any system, and leaves
      it idle or suspended in a storage call again. */
  method Perform(p: Process, c: Call)
    requires Interruptible(p.State()) && (c.Resume? ==> p.phase.Running?)
    modifies p
    ensures p.State() == BridgeRun(old(p.State()), StepsOf(c)) && Interruptible(p.State())
    ensures forall y: System :: y.bridge == old(p.State()) ==> Run(y, StepsOf(c)).bridge == p.State()
  {
    ghost var b := p.State();
    CallRun(b, c);
    forall y: System | y.bridge == b ensures Run(y, StepsOf(c)).bridge == BridgeRun(b, StepsOf(c)) {
      RunBridge(y, StepsOf(c));
    }
    hide Run, BridgeRun, StepsOf, Logged, Acked, Flushed, Compacted;
    match c
    case EnqueueOperation(payload, write) => p.EnqueueOperation(payload, write);
    case FlushWalBuffer(write) => p.FlushWalBuffer(write);
    case SetNexusStorage(on) => p.SetNexusStorage(on);
    case FireTimer(flush, ok) => p.FireTimer(flush, ok);
    case FlushNow(flush, ok) => p.FlushQueue(flush, ok);
    case Resume(outcome, flush, ok) => p.Resume(outcome, flush, ok);
  }

  /** A new process on the file that a crash left. */
  method Restart(p: Process) returns (q: Process)
    ensures q.State() == BridgeNext(p.State(), Crash)
  {
    q := new Process(p.walPath, p.batchSize, p.file);
  }
}
