/** Exactly when replaying the log leaves the last write of a row, whatever was given up
    before, whatever waited in the buffer, and through any number of crashes. */
module StorageReplay {
  import opened Options
  import opened WriteAheadLog
  import opened StorageBridge
  import opened StorageRuns
  import opened StorageRecovery

  // ---------------------------------------------------------------- rows

  /** What operations write, the last one winning. */
  function Result(ps: seq<Payload>): Store {
    Fold(map[], ps)
  }

  predicate SameRow(s: Store, t: Store, k: Key) {
    (k in s) == (k in t) && (k in s ==> s[k] == t[k])
  }

  predicate SomeWrites(ps: seq<Payload>, k: Key) {
    exists p :: p in ps && k in Effect(p)
  }

  /** The last of some operations that writes row `k`. */
  function LastWriter(ps: seq<Payload>, k: Key): (p: Payload)
    requires SomeWrites(ps, k)
    ensures p in ps && k in Effect(p)
  {
    var n := |ps| - 1;
    if k in Effect(ps[n]) then ps[n]
    else
      assert ps == ps[..n] + [ps[n]];
      LastWriter(ps[..n], k)
  }

  lemma {:induction false} ResultRow(ps: seq<Payload>, k: Key)
    ensures k in Result(ps) <==> SomeWrites(ps, k)
    ensures SomeWrites(ps, k) ==> Result(ps)[k] == Effect(LastWriter(ps, k))[k]
  {
    if ps != [] {
      var n := |ps| - 1;
      ResultRow(ps[..n], k);
      assert ps == ps[..n] + [ps[n]];
      assert SomeWrites(ps, k) <==> SomeWrites(ps[..n], k) || k in Effect(ps[n]);
    }
  }

  lemma ResultWithin(ps: seq<Payload>, qs: seq<Payload>, k: Key)
    requires k in Result(ps) && forall p :: p in ps ==> p in qs
    ensures k in Result(qs)
  {
    ResultRow(ps, k);
    ResultRow(qs, k);
  }

  /** If no pending operation writes the row, it is as all operations in order leave it. */
  ghost predicate Agrees(store: Store, init: Store, pending: seq<Payload>, log: seq<Payload>, k: Key) {
    k !in Result(pending) ==> SameRow(store, Fold(init, log), k)
  }

  /** If `ps` write the row, they write last what all operations write last. */
  ghost predicate WritesLast(ps: seq<Payload>, log: seq<Payload>, k: Key) {
    k in Result(ps) ==> k in Result(log) && Result(ps)[k] == Result(log)[k]
  }

  /** If the row is one of a pending operation, and `ps` do not write it, it is stored already. */
  ghost predicate RestStored(store: Store, pending: seq<Payload>, ps: seq<Payload>, log: seq<Payload>, k: Key) {
    k in Result(pending) && k !in Result(ps) ==> k in store && k in Result(log) && store[k] == Result(log)[k]
  }

  /** In terms of operations: the last of `ps` that writes the row agrees on it with the last
      of all operations that does. */
  lemma WritesLastIff(ps: seq<Payload>, log: seq<Payload>, k: Key)
    requires SomeWrites(ps, k) && SomeWrites(log, k)
    ensures WritesLast(ps, log, k) <==> Effect(LastWriter(ps, k))[k] == Effect(LastWriter(log, k))[k]
  {
    ResultRow(ps, k);
    ResultRow(log, k);
    hide Fold;
  }

  /** Carrying `ps` out leaves in the row what all operations in order leave there, exactly if
      `ps` write last what was to be written last, or else it is stored. */
  lemma RowIff(store: Store, init: Store, pending: seq<Payload>, ps: seq<Payload>, log: seq<Payload>, k: Key)
    requires Agrees(store, init, pending, log, k)
    requires k in Result(pending) || k in Result(ps) ==> k in Result(log)
    ensures SameRow(Fold(store, ps), Fold(init, log), k)
       <==> WritesLast(ps, log, k) && RestStored(store, pending, ps, log, k)
  {
    FoldOverlay(store, ps);
    FoldOverlay(init, log);
    hide Fold;
  }

  // ---------------------------------------------------------------- how a row changes

  lemma ResultPush(store: Store, ps: seq<Payload>, p: Payload)
    ensures Fold(store, ps + [p]) == Fold(store, ps) + Effect(p)
  {
    assert (ps + [p])[..|ps|] == ps;
  }

  /** A new operation keeps the row in order, and sets it right if it writes it. */
  lemma AddWork(store: Store, init: Store, pending: seq<Payload>, todo: seq<Payload>, log: seq<Payload>,
        p: Payload, k: Key)
    requires k in Effect(p) || (Agrees(store, init, pending, log, k) && WritesLast(todo, log, k))
    ensures Agrees(store, init, pending + [p], log + [p], k) && WritesLast(todo + [p], log + [p], k)
  {
    ResultPush(init, log, p);
    ResultPush(map[], log, p);
    ResultPush(map[], pending, p);
    ResultPush(map[], todo, p);
    hide Fold, Effect;
  }

  lemma ResultCons(p: Payload, ps: seq<Payload>)
    ensures Result([p] + ps) == Effect(p) + Result(ps)
  {
    FoldCons(map[], p, ps);
    FoldOverlay(map[] + Effect(p), ps);
    assert map[] + Effect(p) == Effect(p);
  }

  lemma DropWork(todo: seq<Payload>, log: seq<Payload>, p: Payload, k: Key)
    requires WritesLast([p] + todo, log, k)
    ensures WritesLast(todo, log, k)
    ensures k in Effect(p) && k !in Result(todo) ==> k in Result(log) && Effect(p)[k] == Result(log)[k]
  {
    ResultCons(p, todo);
    hide Fold, Effect;
  }

  lemma FinishWork(store: Store, init: Store, pending: seq<Payload>, after: seq<Payload>,
        todo: seq<Payload>, log: seq<Payload>, p: Payload, k: Key)
    requires Agrees(store, init, pending, log, k) && WritesLast([p] + todo, log, k)
    requires k in Result(pending) ==> k in Result(after) || k in Effect(p)
    requires k in Result(todo) ==> k in Result(after)
    ensures Agrees(store + Effect(p), init, after, log, k)
  {
    DropWork(todo, log, p, k);
    FoldOverlay(init, log);
    hide Fold, Effect;
  }

  // ---------------------------------------------------------------- the invariant

  ghost predicate RecordsLogged(l: Log, log: seq<Payload>) {
    forall r :: (r in l.disk || r in l.buffer) && r.OpRecord? ==> r.payload in log
  }

  ghost predicate RowSound(y: System, init: Store, k: Key) {
    && Agrees(y.store, init, Payloads(y.bridge.log.pending), y.hist.log, k)
    && WritesLast(Payloads(Todo(y.bridge)), y.hist.log, k)
  }

  /** The work that is left is pending. */
  lemma TodoPending(y: System)
    requires Good(y) && y.bridge.log.on
    ensures forall e :: e in Todo(y.bridge) ==> e in y.bridge.log.pending
  {
    var h, todo := y.hist, Todo(y.bridge);
    hide Todo, Counted, Traced, Sound;
    forall e | e in todo ensures e in y.bridge.log.pending {
      var i :| 0 <= i < |todo| && todo[i] == e;
      assert h.order[|h.finished| + i] == e && e in h.order;
      forall f | f in h.finished ensures f.entry != e {
        var j :| 0 <= j < |h.finished| && h.finished[j] == f;
        assert h.order[j] == f.entry;
      }
    }
  }

  lemma FlushedFrom(l: Log, w: Write)
    ensures var m := Flushed(l, w);
      && (forall r :: r in m.disk ==> r in l.disk || r in l.buffer)
      && (forall r :: r in m.buffer ==> r in l.buffer)
  {
  }

  lemma LoggedFrom(l: Log, e: Entry, w: Write, r: Record)
    requires r in Logged(l, e, w).disk || r in Logged(l, e, w).buffer
    ensures r in l.disk || r in l.buffer || r == OpRecord(e.id, e.payload)
  {
    hide Put, Flushed;
    FlushedFrom(l.(buffer := l.buffer + [OpRecord(e.id, e.payload)]), w);
  }

  lemma AckedFrom(l: Log, id: nat, w: Write, r: Record)
    requires r in Acked(l, id, w).disk || r in Acked(l, id, w).buffer
    ensures r in l.disk || r in l.buffer || r == AckRecord(id)
  {
    hide Remove, Flushed, Ids;
    FlushedFrom(l.(buffer := l.buffer + [AckRecord(id)]), w);
  }

  lemma CompactedFrom(l: Log, ok: bool, r: Record)
    requires r in Compacted(l, ok).disk || r in Compacted(l, ok).buffer
    ensures r in l.disk || r in l.buffer || r in OpRecords(l.pending)
  {
    hide OpRecords;
  }

  lemma RecordsFrom(b: Bridge, s: Step, r: Record)
    requires !s.Crash? && b.log.on && r.OpRecord?
    requires r in BridgeNext(b, s).log.disk || r in BridgeNext(b, s).log.buffer
    ensures r in b.log.disk || r in b.log.buffer || r in OpRecords(b.log.pending)
         || (s.Enqueue? && Possible(b, s) && r == OpRecord(b.nextId + 1, s.payload))
  {
    hide Flushed, Logged, Acked, Compacted, OpRecords;
    if Possible(b, s) {
      match s
      case Enqueue(p, w) => LoggedFrom(b.log, Entry(b.nextId + 1, p), w, r);
      case FlushWal(w) => FlushedFrom(b.log, w);
      case Resolve(w) => AckedFrom(b.log, b.phase.op.id, w, r);
      case CompactFlush(w) => FlushedFrom(b.log, w);
      case CompactRename(ok) => CompactedFrom(b.log, ok, r);
      case _ =>
    }
  }

  lemma StepRecords(y: System, s: Step)
    requires Sound(y.bridge) && y.bridge.log.on && RecordsLogged(y.bridge.log, y.hist.log) && !s.Crash?
    ensures RecordsLogged(Next(y, s).bridge.log, Next(y, s).hist.log)
  {
    var b, l, z := y.bridge, y.bridge.log, Next(y, s);
    var log := y.hist.log + Payloads(TakenOn(b, s));
    assert z.bridge == BridgeNext(b, s) && z.hist.log == log;
    assert s.Enqueue? && Possible(b, s) ==> Payloads(TakenOn(b, s)) == [s.payload];
    ReplayShape(l.disk + l.buffer);
    assert Replay(l.disk + l.buffer) == l.pending;
    hide BridgeNext, HistoryNext, StoreNext, TakenOn, Sound, Replay;
    forall r | (r in z.bridge.log.disk || r in z.bridge.log.buffer) && r.OpRecord? ensures r.payload in log {
      RecordsFrom(b, s, r);
      if r in OpRecords(l.pending) {
        var i :| 0 <= i < |l.pending| && OpRecords(l.pending)[i] == r;
        assert l.pending[i] in l.pending && r in l.disk + l.buffer;
      }
    }
  }

  lemma PayloadsPush(m: seq<Entry>, e: Entry)
    ensures Payloads(m + [e]) == Payloads(m) + [e.payload]
  {
  }

  lemma PayloadsWithin(m: seq<Entry>, n: seq<Entry>)
    requires forall e :: e in m ==> e in n
    ensures forall p :: p in Payloads(m) ==> p in Payloads(n)
  {
    forall p | p in Payloads(m) ensures p in Payloads(n) {
      var i :| 0 <= i < |m| && Payloads(m)[i] == p;
      assert m[i] in m;
      PayloadIn(n, m[i]);
    }
  }

  lemma EntriesRow(m: seq<Entry>, n: seq<Entry>, k: Key)
    requires k in Result(Payloads(m)) && forall e :: e in m ==> e in n
    ensures k in Result(Payloads(n))
  {
    PayloadsWithin(m, n);
    ResultWithin(Payloads(m), Payloads(n), k);
  }

  /** Acknowledging an entry takes at most its own rows out of those that pending operations write. */
  lemma RemovedRow(m: seq<Entry>, x: Entry, k: Key)
    requires Distinct(m) && x in m && k in Result(Payloads(m)) && k !in Effect(x.payload)
    ensures k in Result(Payloads(Remove(m, x.id)))
  {
    RemoveMembers(m, x.id);
    var rest := Remove(m, x.id);
    ResultRow(Payloads(m), k);
    var p := LastWriter(Payloads(m), k);
    var i :| 0 <= i < |m| && Payloads(m)[i] == p;
    var j :| 0 <= j < |m| && m[j] == x;
    assert m[i] in m && (m[i].id == x.id ==> i == j);
    hide Remove, Effect, Fold, Distinct, LastWriter;
    PayloadIn(rest, m[i]);
    ResultRow(Payloads(rest), k);
  }

  /** What the step lemmas below need to know of the state before. */
  ghost predicate Ready(y: System) {
    && LogSound(y.bridge.log, y.bridge.nextId) && y.bridge.log.on
    && Distinct(Todo(y.bridge))
    && (forall e :: e in Todo(y.bridge) ==> e in y.bridge.log.pending)
  }

  lemma GoodReady(y: System)
    requires Good(y) && y.bridge.log.on
    ensures Ready(y)
  {
    TodoPending(y);
    TodoDistinct(y);
    hide InOrder, Counted, Traced, Kept, LogSound, Todo, Distinct;
  }

  lemma TakeOnRow(y: System, init: Store, s: Step, k: Key)
    requires Ready(y) && !s.Crash? && TakenOn(y.bridge, s) != []
    requires k in Effect(TakenOn(y.bridge, s)[0].payload) || RowSound(y, init, k)
    requires BridgeNext(y.bridge, s).log.pending == y.bridge.log.pending + TakenOn(y.bridge, s)
    ensures RowSound(Next(y, s), init, k)
  {
    var b, z, e := y.bridge, Next(y, s), TakenOn(y.bridge, s)[0];
    WorkMoves(b, s);
    StoreGrows(y, s);
    assert z.bridge == BridgeNext(b, s) && z.hist.log == y.hist.log + Payloads(TakenOn(b, s));
    assert TakenOn(b, s) == [e] && Payloads([e]) == [e.payload] && y.store + map[] == y.store;
    hide BridgeNext, TakenOn, Todo, Written, StoreNext, HistoryNext, Next, Agrees, WritesLast, LogSound, Distinct, Effect;
    PayloadsPush(b.log.pending, e);
    PayloadsPush(Todo(b), e);
    AddWork(y.store, init, Payloads(b.log.pending), Payloads(Todo(b)), y.hist.log, e.payload, k);
  }

  lemma RestPending(pending: seq<Entry>, x: Entry, todo: seq<Entry>)
    requires Distinct([x] + todo) && forall e :: e in [x] + todo ==> e in pending
    ensures forall e :: e in todo ==> e in Remove(pending, x.id)
  {
    RemoveMembers(pending, x.id);
    forall e | e in todo ensures e in Remove(pending, x.id) {
      var i :| 0 <= i < |todo| && todo[i] == e;
      assert ([x] + todo)[0] == x && ([x] + todo)[i + 1] == e && e in [x] + todo;
    }
  }

  lemma ResolveRow(y: System, init: Store, write: Write, k: Key)
    requires Ready(y) && RowSound(y, init, k) && y.bridge.phase.Running?
    requires BridgeNext(y.bridge, Resolve(write)).log.pending == Remove(y.bridge.log.pending, y.bridge.phase.op.id)
    ensures RowSound(Next(y, Resolve(write)), init, k)
  {
    var b, s := y.bridge, Resolve(write);
    var z, x, todo := Next(y, s), InFlight(b), Todo(BridgeNext(b, s));
    WorkMoves(b, s);
    StoreGrows(y, s);
    assert z.bridge == BridgeNext(b, s) && z.hist.log == y.hist.log + Payloads(TakenOn(b, s));
    assert z.hist.log == y.hist.log && z.store == y.store + Effect(x.payload) && x.id == b.phase.op.id;
    assert Todo(b) == [x] + todo && Todo(b)[0] == x;
    var after := Remove(b.log.pending, x.id);
    RestPending(b.log.pending, x, todo);
    assert Distinct(b.log.pending) && x in b.log.pending;
    hide BridgeNext, TakenOn, Todo, Written, StoreNext, HistoryNext, Next, Agrees, WritesLast, LogSound, Distinct, Remove, Effect,
         InFlight;
    PayloadsConcat([x], todo);
    assert Payloads([x]) == [x.payload];
    if k in Result(Payloads(b.log.pending)) && k !in Effect(x.payload) {
      RemovedRow(b.log.pending, x, k);
    }
    if k in Result(Payloads(todo)) {
      EntriesRow(todo, after, k);
    }
    hide Result;
    DropWork(Payloads(todo), y.hist.log, x.payload, k);
    FinishWork(y.store, init, Payloads(b.log.pending), Payloads(after), Payloads(todo), y.hist.log, x.payload, k);
  }

  lemma GiveUpRow(y: System, init: Store, k: Key)
    requires Ready(y) && RowSound(y, init, k) && LeftBehind(y.bridge, Reject) != []
    ensures RowSound(Next(y, Reject), init, k)
  {
    var b, z := y.bridge, Next(y, Reject);
    var x, todo := InFlight(b), Todo(z.bridge);
    WorkMoves(b, Reject);
    StoreGrows(y, Reject);
    assert z.bridge == BridgeNext(b, Reject) && z.hist.log == y.hist.log + Payloads(TakenOn(b, Reject));
    assert z.hist.log == y.hist.log && z.store == y.store && z.bridge.log == b.log;
    hide BridgeNext, TakenOn, Todo, Written, StoreNext, HistoryNext, Next, Agrees, WritesLast, LogSound, Distinct;
    PayloadsConcat([x], todo);
    assert Payloads([x]) == [x.payload];
    DropWork(Payloads(todo), y.hist.log, x.payload, k);
  }

  lemma PartRow(y: System, init: Store, part: Store, k: Key)
    requires Ready(y) && RowSound(y, init, k)
    requires part == map[] || (y.bridge.phase.Running? && part.Keys <= Effect(y.bridge.phase.op.payload).Keys)
    ensures Agrees(y.store + part, init, Payloads(y.bridge.log.pending), y.hist.log, k)
  {
    var pending := y.bridge.log.pending;
    if part == map[] {
      assert y.store + part == y.store;
    } else {
      assert Todo(y.bridge)[0] == InFlight(y.bridge);
      hide Todo, Effect, LogSound;
      PayloadIn(pending, InFlight(y.bridge));
      ResultRow(Payloads(pending), k);
      hide Fold;
    }
  }

  lemma QuietRow(y: System, init: Store, s: Step, k: Key)
    requires Ready(y) && RowSound(y, init, k) && !s.Crash?
    requires TakenOn(y.bridge, s) == [] && LeftBehind(y.bridge, s) == []
    requires BridgeNext(y.bridge, s).log.pending == y.bridge.log.pending
    ensures RowSound(Next(y, s), init, k)
  {
    var b, z := y.bridge, Next(y, s);
    WorkMoves(b, s);
    StoreGrows(y, s);
    assert z.bridge == BridgeNext(b, s) && z.hist.log == y.hist.log + Payloads([]);
    assert z.hist.log == y.hist.log;
    assert !b.phase.Running? ==> Written(b, s) == map[];
    PartRow(y, init, Written(b, s), k);
    hide BridgeNext, TakenOn, LeftBehind, Todo, StoreNext, HistoryNext, Next, Agrees, WritesLast, LogSound, Distinct, Written;
  }

  /** An operation is taken on that writes row `k`. */
  predicate Rewrites(b: Bridge, s: Step, k: Key) {
    s.Enqueue? && Possible(b, s) && k in Effect(s.payload)
  }

  /** Every step but a crash keeps a row in order; one that writes it anew sets it right. */
  lemma {:induction false} StepRow(y: System, init: Store, s: Step, k: Key)
    requires Good(y) && y.bridge.log.on && !s.Crash?
    requires Rewrites(y.bridge, s, k) || RowSound(y, init, k)
    ensures RowSound(Next(y, s), init, k)
  {
    var b := y.bridge;
    hide InOrder, Counted, Traced, Kept, LogSound, BridgeNext, RowSound;
    GoodReady(y);
    assert Sound(b);
    StepLog(b, s);
    WorkMoves(b, s);
    assert b.log.pending + [] == b.log.pending;
    assert LeftBehind(b, s) != [] ==> s.Reject? || s.Resolve?;
    assert Rewrites(b, s, k) ==> TakenOn(b, s) != [] && k in Effect(TakenOn(b, s)[0].payload);
    hide Good, Sound, Next, Ready, Todo, TakenOn, LeftBehind, Written, Effect, Rewrites;
    if TakenOn(b, s) != [] {
      TakeOnRow(y, init, s, k);
    } else if LeftBehind(b, s) == [] {
      QuietRow(y, init, s, k);
    } else if s.Resolve? {
      ResolveRow(y, init, s.write, k);
    } else {
      GiveUpRow(y, init, k);
    }
  }

  // ---------------------------------------------------------------- crashes

  /** Finishing the work that is left leaves the last write in row `k`. */
  ghost predicate RowRight(y: System, init: Store, k: Key) {
    SameRow(Completed(y), Fold(init, y.hist.log), k)
  }

  /** What the next process replays writes last in the row what was to be written last; or it
      does not write it, and if it is a row of a pending operation, whose record was lost with
      the buffer, it is stored already. */
  ghost predicate RowFresh(y: System, k: Key) {
    var replayed := Payloads(Replay(y.bridge.log.disk));
    && WritesLast(replayed, y.hist.log, k)
    && RestStored(y.store, Payloads(y.bridge.log.pending), replayed, y.hist.log, k)
  }

  /** If the row is one of a pending operation, and the work left does not write it, it is stored already. */
  ghost predicate RowStored(y: System, k: Key) {
    RestStored(y.store, Payloads(y.bridge.log.pending), Payloads(Todo(y.bridge)), y.hist.log, k)
  }

  lemma ReplayedLogged(l: Log, rs: seq<Record>, log: seq<Payload>)
    requires RecordsLogged(l, log) && forall r :: r in rs ==> r in l.disk || r in l.buffer
    ensures forall k :: k in Result(Payloads(Replay(rs))) ==> k in Result(log)
  {
    ReplayShape(rs);
    var m := Replay(rs);
    hide Replay, Distinct, Fold;
    forall p | p in Payloads(m) ensures p in log {
      var i :| 0 <= i < |m| && Payloads(m)[i] == p;
      assert m[i] in m;
    }
    forall k | k in Result(Payloads(m)) ensures k in Result(log) {
      ResultWithin(Payloads(m), log, k);
    }
  }

  lemma PendingLogged(y: System)
    requires LogSound(y.bridge.log, y.bridge.nextId) && y.bridge.log.on && RecordsLogged(y.bridge.log, y.hist.log)
    ensures forall k :: k in Result(Payloads(y.bridge.log.pending)) ==> k in Result(y.hist.log)
  {
    var l := y.bridge.log;
    assert Replay(l.disk + l.buffer) == l.pending;
    hide LogSound, Replay, Result, RecordsLogged;
    ReplayedLogged(l, l.disk + l.buffer, y.hist.log);
  }

  lemma CrashState(y: System)
    requires y.bridge.log.on
    ensures var z, l := Next(y, Crash), y.bridge.log;
      && z.bridge.log.pending == Replay(l.disk) == Todo(z.bridge)
      && z.bridge.log.disk == l.disk && z.bridge.log.buffer == []
      && z.store == y.store && z.hist.log == y.hist.log
      && Completed(z) == Fold(y.store, Payloads(Replay(l.disk)))
  {
    BootedSound(true, y.bridge.log.batchSize, y.bridge.log.disk);
    hide Replay, Todo, Fold, MaxId, Sound;
  }

  /** A crash and the replay that follows it leave the last write in a row exactly if the row
      is fresh, and then it is in order as before. */
  lemma {:induction false} CrashIff(y: System, init: Store, k: Key)
    requires Good(y) && y.bridge.log.on && RecordsLogged(y.bridge.log, y.hist.log) && RowSound(y, init, k)
    ensures RowRight(Next(y, Crash), init, k) <==> RowFresh(y, k)
    ensures RowFresh(y, k) ==> RowSound(Next(y, Crash), init, k)
  {
    var l, z := y.bridge.log, Next(y, Crash);
    var replayed := Payloads(Replay(l.disk));
    assert Sound(y.bridge);
    CrashState(y);
    hide Good, LogSound, Next, Todo, Replay, Agrees, Completed, Sound, WritesLast, RestStored, RecordsLogged;
    PendingLogged(y);
    ReplayedLogged(l, l.disk, y.hist.log);
    RowIff(y.store, init, Payloads(l.pending), replayed, y.hist.log, k);
    if RowFresh(y, k) {
      FreshAgrees(y.store, init, Payloads(l.pending), replayed, y.hist.log, k);
    }
  }

  lemma FreshAgrees(store: Store, init: Store, pending: seq<Payload>, ps: seq<Payload>, log: seq<Payload>, k: Key)
    requires Agrees(store, init, pending, log, k) && RestStored(store, pending, ps, log, k)
    ensures Agrees(store, init, ps, log, k)
  {
    FoldOverlay(init, log);
    hide Fold;
  }

  /** The process itself is on its way to the last write in a row exactly if the row, where an
      operation was given up that writes it and none that is left does, is stored already. */
  lemma {:induction false} CompletedIff(y: System, init: Store, k: Key)
    requires Good(y) && y.bridge.log.on && RecordsLogged(y.bridge.log, y.hist.log) && RowSound(y, init, k)
    ensures RowRight(y, init, k) <==> RowStored(y, k)
  {
    var pending, todo := Payloads(y.bridge.log.pending), Payloads(Todo(y.bridge));
    TodoPending(y);
    assert Sound(y.bridge) && Completed(y) == Fold(y.store, todo);
    hide Good, LogSound, Todo, Replay, Agrees, Completed, Fold, RestStored, RecordsLogged;
    PendingLogged(y);
    if k in Result(todo) {
      EntriesRow(Todo(y.bridge), y.bridge.log.pending, k);
    }
    RowIff(y.store, init, pending, todo, y.hist.log, k);
  }

  // ---------------------------------------------------------------- whole runs

  /** Since the last operation taken on that writes row `k`, every crash found it fresh. */
  ghost predicate FreshSince(y: System, steps: seq<Step>, k: Key) {
    steps != [] ==>
      var front, last := steps[..|steps| - 1], steps[|steps| - 1];
      Rewrites(Run(y, front).bridge, last, k)
        || (FreshSince(y, front, k) && (last.Crash? ==> RowFresh(Run(y, front), k)))
  }

  lemma StartRow(batchSize: nat, store: Store, k: Key)
    ensures var y := Start(true, batchSize, store);
      RowSound(y, store, k) && RecordsLogged(y.bridge.log, y.hist.log) && y.bridge.log.on
  {
    var y := Start(true, batchSize, store);
    assert y.bridge.log.pending == [] && Todo(y.bridge) == [] && y.bridge.log.disk == [] && y.bridge.log.buffer == [];
    assert Payloads([]) == [];
  }

  lemma {:induction false} RunRecords(y: System, steps: seq<Step>)
    requires Good(y) && y.bridge.log.on && RecordsLogged(y.bridge.log, y.hist.log)
    ensures RecordsLogged(Run(y, steps).bridge.log, Run(y, steps).hist.log)
  {
    if steps != [] {
      var front, last := steps[..|steps| - 1], steps[|steps| - 1];
      RunRecords(y, front);
      RunGood(y, front);
      assert Sound(Run(y, front).bridge);
      if last.Crash? {
        CrashState(Run(y, front));
      } else {
        hide Good, Sound, Next, RecordsLogged;
        StepRecords(Run(y, front), last);
      }
    }
  }

  lemma {:induction false} RunRow(y: System, init: Store, steps: seq<Step>, k: Key)
    requires Good(y) && y.bridge.log.on && RecordsLogged(y.bridge.log, y.hist.log)
    requires RowSound(y, init, k) && FreshSince(y, steps, k)
    ensures RowSound(Run(y, steps), init, k)
  {
    hide Good, Next, RowSound, RowFresh, RecordsLogged;
    if steps != [] {
      var front, last := steps[..|steps| - 1], steps[|steps| - 1];
      RunGood(y, front);
      if !Rewrites(Run(y, front).bridge, last, k) {
        RunRow(y, init, front, k);
      }
      if last.Crash? {
        RunRecords(y, front);
        CrashIff(Run(y, front), init, k);
      } else {
        StepRow(Run(y, front), init, last, k);
      }
    }
  }

  /** In any run, with any batch size, any failed log writes, any number of operations given
      up and any number of crashes, and for any row that every crash found fresh since an
      operation was last taken on that writes it: the next crash, and the replay that follows
      it, leave the last write in the row exactly if it is fresh; and the process does without
      a crash exactly if what it gave up of the row is stored already. */
  lemma {:induction false} RowWinsIff(batchSize: nat, init: Store, steps: seq<Step>, k: Key)
    requires FreshSince(Start(true, batchSize, init), steps, k)
    ensures var y := Run(Start(true, batchSize, init), steps);
      && (RowRight(Next(y, Crash), init, k) <==> RowFresh(y, k))
      && (RowRight(y, init, k) <==> RowStored(y, k))
  {
    var y := Start(true, batchSize, init);
    hide *;
    StartGood(true, batchSize, init);
    StartRow(batchSize, init, k);
    RunGood(y, steps);
    RunRecords(y, steps);
    RunRow(y, init, steps, k);
    CrashIff(Run(y, steps), init, k);
    CompletedIff(Run(y, steps), init, k);
  }

  /** Finishing the work that is left gives the last write of every row. */
  ghost predicate LastWriteWins(y: System, init: Store) {
    Completed(y) == Fold(init, y.hist.log)
  }

  lemma RightRows(y: System, init: Store)
    ensures LastWriteWins(y, init) <==> forall k :: RowRight(y, init, k)
  {
    var s, t := Completed(y), Fold(init, y.hist.log);
    hide Completed, Fold;
    if forall k :: RowRight(y, init, k) {
      assert forall k :: k in s || k in t ==> RowRight(y, init, k);
    }
  }

  ghost predicate NothingStale(y: System) {
    forall k :: RowFresh(y, k)
  }

  /** So, for a run whose crashes so far found nothing stale, all rows together. */
  lemma {:induction false} LastWriteWinsIff(batchSize: nat, init: Store, steps: seq<Step>)
    requires forall k :: FreshSince(Start(true, batchSize, init), steps, k)
    ensures var y := Run(Start(true, batchSize, init), steps);
      && (LastWriteWins(Next(y, Crash), init) <==> NothingStale(y))
      && (LastWriteWins(y, init) <==> forall k :: RowStored(y, k))
  {
    var y := Run(Start(true, batchSize, init), steps);
    hide Run, Start, Next, LastWriteWins, RowRight, RowFresh, RowStored, FreshSince;
    forall k ensures (RowRight(Next(y, Crash), init, k) <==> RowFresh(y, k)) && (RowRight(y, init, k) <==> RowStored(y, k)) {
      RowWinsIff(batchSize, init, steps, k);
    }
    RightRows(y, init);
    RightRows(Next(y, Crash), init);
  }

  lemma NoCrashFresh(y: System, steps: seq<Step>, k: Key)
    requires forall s :: s in steps ==> !s.Crash?
    ensures FreshSince(y, steps, k)
  {
    if steps != [] {
      var n := |steps| - 1;
      assert steps[n] in steps && forall s :: s in steps[..n] ==> s in steps;
      NoCrashFresh(y, steps[..n], k);
    }
  }

  /** With records written at once, the first crash leaves the last write of every row exactly
      if what is pending, operations given up included, writes last what was to be written last. */
  lemma {:induction false} FirstCrashIff(init: Store, steps: seq<Step>)
    requires WritesSucceed(steps) && forall s :: s in steps ==> !s.Crash?
    ensures var y := Run(Start(true, 1, init), steps);
      LastWriteWins(Next(y, Crash), init)
      <==> forall k :: WritesLast(Payloads(y.bridge.log.pending), y.hist.log, k)
  {
    hide *;
    var y := Start(true, 1, init);
    StartGood(true, 1, init);
    StartUnbuffered(init);
    forall k ensures FreshSince(y, steps, k) {
      NoCrashFresh(y, steps, k);
    }
    LastWriteWinsIff(1, init, steps);
    RunGood(y, steps);
    RunUnbuffered(y, steps);
    WrittenStale(Run(y, steps));
  }

  lemma StartUnbuffered(store: Store)
    ensures var b := Start(true, 1, store).bridge; b.log.on && NothingBuffered(b)
  {
  }

  lemma WrittenStale(y: System)
    requires Good(y) && y.bridge.log.on && NothingBuffered(y.bridge)
    ensures NothingStale(y) <==> forall k :: WritesLast(Payloads(y.bridge.log.pending), y.hist.log, k)
  {
    assert Sound(y.bridge);
    hide Good, LogSound, Replay, WritesLast, Fold;
    WrittenLogIsPending(y.bridge.log, y.bridge.nextId);
    forall k ensures RowFresh(y, k) <==> WritesLast(Payloads(y.bridge.log.pending), y.hist.log, k) {
    }
  }
}
