/** The write-ahead log of the storage bridge: its records, the insertion-ordered
    map of pending operations, and what replaying a log means. */
module WriteAheadLog {
  import opened Options

  /** A saved session: `body` stands for its columns, `events` for the rows saved with it. */
  datatype SavedSession = SavedSession(id: string, body: string, events: seq<string>)

  datatype Payload =
    | TaskSession(session: SavedSession, event: Option<string>)
    | Task(id: string, body: string)

  datatype Record =
    | OpRecord(id: nat, payload: Payload)
    | AckRecord(id: nat)

  datatype Entry = Entry(id: nat, payload: Payload)

  /** The ids of an insertion-ordered map, which is kept as a sequence of entries. */
  function Ids(m: seq<Entry>): (s: set<nat>)
    ensures forall e :: e in m ==> e.id in s
    ensures forall id :: id in s ==> exists e :: e in m && e.id == id
  {
    set e | e in m :: e.id
  }

  ghost predicate Distinct(m: seq<Entry>) {
    forall i, j :: 0 <= i < j < |m| ==> m[i].id != m[j].id
  }

  /** `Map.set`: a known key keeps its place, a new key goes to the end. */
  function Put(m: seq<Entry>, e: Entry): seq<Entry> {
    if m == [] then [e]
    else if m[0].id == e.id then [e] + m[1..]
    else [m[0]] + Put(m[1..], e)
  }

  /** `Map.delete`. */
  function Remove(m: seq<Entry>, id: nat): seq<Entry> {
    if m == [] then []
    else if m[0].id == id then Remove(m[1..], id)
    else [m[0]] + Remove(m[1..], id)
  }

  function ApplyRecord(m: seq<Entry>, r: Record): seq<Entry> {
    match r
    case OpRecord(id, payload) => Put(m, Entry(id, payload))
    case AckRecord(id) => Remove(m, id)
  }

  function ApplyRecords(m: seq<Entry>, rs: seq<Record>): seq<Entry> {
    if rs == [] then m
    else ApplyRecord(ApplyRecords(m, rs[..|rs| - 1]), rs[|rs| - 1])
  }

  function Replay(rs: seq<Record>): seq<Entry> {
    ApplyRecords([], rs)
  }

  /** The records a compacted log holds. */
  function OpRecords(m: seq<Entry>): (rs: seq<Record>)
    ensures |rs| == |m|
    ensures forall i :: 0 <= i < |m| ==> rs[i] == OpRecord(m[i].id, m[i].payload)
  {
    seq(|m|, i requires 0 <= i < |m| => OpRecord(m[i].id, m[i].payload))
  }

  function Payloads(m: seq<Entry>): (ps: seq<Payload>)
    ensures |ps| == |m|
    ensures forall i :: 0 <= i < |m| ==> ps[i] == m[i].payload
  {
    seq(|m|, i requires 0 <= i < |m| => m[i].payload)
  }

  function MaxId(rs: seq<Record>): (n: nat)
    ensures forall r :: r in rs ==> r.id <= n
  {
    if rs == [] then 0
    else
      var rest := MaxId(rs[..|rs| - 1]);
      var last := rs[|rs| - 1];
      assert rs == rs[..|rs| - 1] + [last];
      if last.id > rest then last.id else rest
  }

  /** The highest id is one that occurs, or zero if none does. */
  lemma {:induction false} MaxIdOccurs(rs: seq<Record>)
    ensures MaxId(rs) == 0 || exists r :: r in rs && r.id == MaxId(rs)
  {
    if rs != [] {
      var n := |rs| - 1;
      MaxIdOccurs(rs[..n]);
      assert rs[n] in rs && forall r :: r in rs[..n] ==> r in rs;
    }
  }

  // ---------------------------------------------------------------- the ordered map

  lemma {:induction false} PutFresh(m: seq<Entry>, e: Entry)
    requires e.id !in Ids(m)
    ensures Put(m, e) == m + [e]
  {
    if m != [] {
      assert m[0] in m && forall x :: x in m[1..] ==> x in m;
      PutFresh(m[1..], e);
    }
  }

  lemma {:induction false} PutPresent(m: seq<Entry>, e: Entry)
    requires Distinct(m) && e in m
    ensures Put(m, e) == m
  {
    if m[0].id != e.id {
      assert e in m[1..];
      PutPresent(m[1..], e);
    } else {
      assert m[0] == e;
    }
  }

  lemma {:induction false} RemoveMembers(m: seq<Entry>, id: nat)
    ensures forall e :: e in Remove(m, id) <==> e in m && e.id != id
    ensures Distinct(m) ==> Distinct(Remove(m, id))
  {
    if m != [] {
      RemoveMembers(m[1..], id);
      assert m == [m[0]] + m[1..];
    }
  }

  lemma {:induction false} RemoveAbsent(m: seq<Entry>, id: nat)
    requires id !in Ids(m)
    ensures Remove(m, id) == m
  {
    if m != [] {
      assert m[0] in m && forall x :: x in m[1..] ==> x in m;
      RemoveAbsent(m[1..], id);
    }
  }

  lemma {:induction false} PutMembers(m: seq<Entry>, e: Entry)
    requires Distinct(m)
    ensures forall x :: x in Put(m, e) <==> x == e || (x in m && x.id != e.id)
    ensures Distinct(Put(m, e))
  {
    if m != [] {
      assert m == [m[0]] + m[1..];
      PutMembers(m[1..], e);
    }
  }

  // ---------------------------------------------------------------- replay

  lemma ApplySnoc(m: seq<Entry>, rs: seq<Record>, r: Record)
    ensures ApplyRecords(m, rs + [r]) == ApplyRecord(ApplyRecords(m, rs), r)
  {
    assert (rs + [r])[..|rs + [r]| - 1] == rs;
  }

  lemma {:induction false} ApplyConcat(m: seq<Entry>, a: seq<Record>, b: seq<Record>)
    ensures ApplyRecords(m, a + b) == ApplyRecords(ApplyRecords(m, a), b)
  {
    if b == [] {
      assert a + b == a;
    } else {
      var front, last := b[..|b| - 1], b[|b| - 1];
      assert a + b == (a + front) + [last];
      ApplySnoc(m, a + front, last);
      ApplyConcat(m, a, front);
    }
  }

  /** Replaying never leaves two entries for one id, and every id it leaves was logged. */
  lemma {:induction false} ReplayShape(rs: seq<Record>)
    ensures Distinct(Replay(rs))
    ensures forall e :: e in Replay(rs) ==> OpRecord(e.id, e.payload) in rs
  {
    if rs != [] {
      var front, last := rs[..|rs| - 1], rs[|rs| - 1];
      ReplayShape(front);
      assert rs == front + [last];
      match last
      case OpRecord(id, payload) => PutMembers(Replay(front), Entry(id, payload));
      case AckRecord(id) => RemoveMembers(Replay(front), id);
    }
  }

  /** A compacted log replays to the very map it was written from, order included. */
  lemma {:induction false} ReplayCompacted(m: seq<Entry>)
    requires Distinct(m)
    ensures Replay(OpRecords(m)) == m
  {
    if m != [] {
      var front, last := m[..|m| - 1], m[|m| - 1];
      ReplayCompacted(front);
      assert OpRecords(m) == OpRecords(front) + [OpRecord(last.id, last.payload)];
      ApplySnoc([], OpRecords(front), OpRecord(last.id, last.payload));
      PutFresh(front, last);
    }
  }

  // ---------------------------------------------------------------- records applied again

  /** Every record of `rs` is already reflected in `m`: an acknowledged id is gone, and
      an operation is either there or is acknowledged further on. */
  ghost predicate Reflected(rs: seq<Record>, m: seq<Entry>) {
    forall k :: 0 <= k < |rs| ==> ReflectedAt(rs, k, m)
  }

  ghost predicate ReflectedAt(rs: seq<Record>, k: int, m: seq<Entry>)
    requires 0 <= k < |rs|
  {
    match rs[k]
    case AckRecord(id) => id !in Ids(m)
    case OpRecord(id, payload) =>
      Entry(id, payload) in m || (id !in Ids(m) && AckedAfter(rs, k, id))
  }

  ghost predicate AckedAfter(rs: seq<Record>, k: int, id: nat)
    requires -1 <= k
  {
    exists j :: k < j < |rs| && rs[j] == AckRecord(id)
  }

  /** The entries of `x` whose ids are in `keep`, in order. */
  ghost function Within(x: seq<Entry>, keep: set<nat>): seq<Entry> {
    if x == [] then []
    else if x[0].id in keep then [x[0]] + Within(x[1..], keep)
    else Within(x[1..], keep)
  }

  lemma {:induction false} WithinAll(x: seq<Entry>, keep: set<nat>)
    requires forall e :: e in x ==> e.id in keep
    ensures Within(x, keep) == x
  {
    if x != [] {
      assert x[0] in x && forall e :: e in x[1..] ==> e in x;
      WithinAll(x[1..], keep);
    }
  }

  lemma {:induction false} WithinMembers(x: seq<Entry>, keep: set<nat>)
    ensures forall e :: e in Within(x, keep) <==> e in x && e.id in keep
  {
    if x != [] {
      WithinMembers(x[1..], keep);
      assert x == [x[0]] + x[1..];
    }
  }

  lemma {:induction false} WithinPut(x: seq<Entry>, e: Entry, keep: set<nat>)
    requires e.id !in keep
    ensures Within(Put(x, e), keep) == Within(x, keep)
  {
    if x == [] {
      assert Put(x, e) == [e];
      assert [e][1..] == [];
    } else if x[0].id == e.id {
      assert ([e] + x[1..])[1..] == x[1..];
    } else {
      WithinPut(x[1..], e, keep);
      assert ([x[0]] + Put(x[1..], e))[1..] == Put(x[1..], e);
    }
  }

  lemma {:induction false} WithinRemove(x: seq<Entry>, id: nat, keep: set<nat>)
    requires id !in keep
    ensures Within(Remove(x, id), keep) == Within(x, keep)
  {
    if x != [] {
      WithinRemove(x[1..], id, keep);
      if x[0].id != id {
        assert ([x[0]] + Remove(x[1..], id))[1..] == Remove(x[1..], id);
      }
    }
  }

  /** Half-way through applying `rs` to `m` again, `m` is still there in order, and any
      other entry is about to be acknowledged. */
  ghost predicate HalfWay(x: seq<Entry>, m: seq<Entry>, rs: seq<Record>, k: nat) {
    && Distinct(x)
    && Within(x, Ids(m)) == m
    && forall e :: e in x && e.id !in Ids(m) ==> AckedAfter(rs, k - 1, e.id)
  }

  lemma ReapplyAck(x: seq<Entry>, m: seq<Entry>, rs: seq<Record>, k: nat)
    requires k < |rs| && rs[k].AckRecord? && ReflectedAt(rs, k, m) && HalfWay(x, m, rs, k)
    ensures HalfWay(ApplyRecord(x, rs[k]), m, rs, k + 1)
  {
    var id := rs[k].id;
    RemoveMembers(x, id);
    WithinRemove(x, id, Ids(m));
    forall e | e in Remove(x, id) && e.id !in Ids(m) ensures AckedAfter(rs, k, e.id) {
      var j :| k - 1 < j < |rs| && rs[j] == AckRecord(e.id);
      assert j != k;
    }
  }

  lemma ReapplyOp(x: seq<Entry>, m: seq<Entry>, rs: seq<Record>, k: nat)
    requires k < |rs| && rs[k].OpRecord? && ReflectedAt(rs, k, m) && HalfWay(x, m, rs, k)
    ensures HalfWay(ApplyRecord(x, rs[k]), m, rs, k + 1)
  {
    var e := Entry(rs[k].id, rs[k].payload);
    if e in m {
      WithinMembers(x, Ids(m));
      PutPresent(x, e);
    } else {
      WithinPut(x, e, Ids(m));
    }
    PutMembers(x, e);
    forall y | y in Put(x, e) && y.id !in Ids(m) ensures AckedAfter(rs, k, y.id) {
      if y != e {
        var j :| k - 1 < j < |rs| && rs[j] == AckRecord(y.id);
        assert j != k;
      }
    }
  }

  lemma {:induction false} ReapplyPrefix(m: seq<Entry>, rs: seq<Record>, k: nat)
    requires Distinct(m) && Reflected(rs, m) && k <= |rs|
    ensures HalfWay(ApplyRecords(m, rs[..k]), m, rs, k)
  {
    if k == 0 {
      assert rs[..0] == [];
      WithinAll(m, Ids(m));
    } else {
      ReapplyPrefix(m, rs, k - 1);
      var x := ApplyRecords(m, rs[..k - 1]);
      assert rs[..k] == rs[..k - 1] + [rs[k - 1]];
      ApplySnoc(m, rs[..k - 1], rs[k - 1]);
      assert ReflectedAt(rs, k - 1, m);
      if rs[k - 1].AckRecord? {
        ReapplyAck(x, m, rs, k - 1);
      } else {
        ReapplyOp(x, m, rs, k - 1);
      }
    }
  }

  /** Records already reflected in the map change nothing when they are applied again. */
  lemma ReapplyChangesNothing(m: seq<Entry>, rs: seq<Record>)
    requires Distinct(m) && Reflected(rs, m)
    ensures ApplyRecords(m, rs) == m
  {
    ReapplyPrefix(m, rs, |rs|);
    assert rs[..|rs|] == rs;
    var x := ApplyRecords(m, rs);
    WithinAll(x, Ids(m));
  }

  // ---------------------------------------------------------------- the log of one process

  /** `on` is whether a log path is configured; `disk` is the log file, `buffer` the records
      not yet written, `pending` the operations not yet acknowledged. */
  datatype Log = Log(
    on: bool,
    batchSize: nat,
    disk: seq<Record>,
    buffer: seq<Record>,
    pending: seq<Entry>,
    flushes: nat,
    writeFailures: nat)

  /** How an append to the log file goes. Where it is the sync or the close that fails, the
      records are in the file although an error is reported. */
  datatype Write = WriteFails | WriteSucceeds | SyncFails

  /** `flushWalBuffer`; after a reported error the records are in the buffer again. */
  function Flushed(l: Log, write: Write): Log {
    if !l.on || l.buffer == [] then l
    else
      match write
      case WriteFails => l.(writeFailures := l.writeFailures + 1)
      case WriteSucceeds => l.(disk := l.disk + l.buffer, buffer := [], flushes := l.flushes + 1)
      case SyncFails => l.(disk := l.disk + l.buffer, writeFailures := l.writeFailures + 1)
  }

  /** `appendWalRecord`. */
  function Appended(l: Log, r: Record, write: Write): Log {
    if !l.on then l
    else
      var m := l.(buffer := l.buffer + [r]);
      if |m.buffer| >= m.batchSize then Flushed(m, write) else m
  }

  /** `appendWalOperation`. */
  function Logged(l: Log, e: Entry, write: Write): Log {
    if !l.on then l
    else
      var m := Appended(l, OpRecord(e.id, e.payload), write);
      m.(pending := Put(m.pending, e))
  }

  /** `appendWalAck`. */
  function Acked(l: Log, id: nat, write: Write): Log {
    if !l.on || id !in Ids(l.pending) then l
    else
      var m := Appended(l, AckRecord(id), write);
      m.(pending := Remove(m.pending, id))
  }

  /** The rename that ends `compactWal`. */
  function Compacted(l: Log, ok: bool): Log {
    if l.on && ok then l.(disk := OpRecords(l.pending)) else l
  }

  /** `replayWal` in a new process. */
  function Reopened(on: bool, batchSize: nat, disk: seq<Record>): Log {
    Log(on, if batchSize > 0 then batchSize else 1, disk, [], if on then Replay(disk) else [], 0, 0)
  }

  /** Replaying the log file and then the unwritten buffer gives the pending map, order
      included; and what is in the buffer could be written twice without harm. Every id
      in use is at most `n`. */
  ghost predicate LogSound(l: Log, n: nat) {
    && l.batchSize > 0
    && Distinct(l.pending)
    && (l.on ==>
          && Replay(l.disk + l.buffer) == l.pending
          && Reflected(l.buffer, l.pending)
          && (forall r :: r in l.disk ==> r.id <= n)
          && (forall r :: r in l.buffer ==> r.id <= n))
    && (!l.on ==> l.buffer == [] && l.pending == [])
  }

  /** A log file that was just replaced holds the pending map. */
  ghost predicate Settled(before: Log, after: Log) {
    after.disk != before.disk ==> Replay(after.disk) == after.pending
  }

  lemma PendingBelow(l: Log, n: nat)
    requires LogSound(l, n)
    ensures forall e :: e in l.pending ==> e.id <= n
  {
    ReplayShape(l.disk + l.buffer);
    forall e | e in l.pending ensures e.id <= n {
      assert OpRecord(e.id, e.payload) in l.disk + l.buffer;
    }
  }

  lemma FlushedSound(l: Log, write: Write, n: nat)
    requires LogSound(l, n)
    ensures LogSound(Flushed(l, write), n) && Settled(l, Flushed(l, write))
    ensures Flushed(l, write).on == l.on && Flushed(l, write).pending == l.pending
  {
    assert (l.disk + l.buffer) + [] == l.disk + l.buffer;
    if l.on {
      ApplyConcat([], l.disk + l.buffer, l.buffer);
      ReapplyChangesNothing(l.pending, l.buffer);
    }
  }

  /** One more record at the end of the buffer. */
  lemma AppendReflected(rs: seq<Record>, m: seq<Entry>, r: Record)
    requires Reflected(rs, m)
    requires r.OpRecord? ==> r.id !in Ids(m) && forall x :: x in rs ==> x.id != r.id
    ensures Reflected(rs + [r], ApplyRecord(m, r))
  {
    var m' := ApplyRecord(m, r);
    if r.OpRecord? {
      PutFresh(m, Entry(r.id, r.payload));
    } else {
      RemoveMembers(m, r.id);
    }
    forall k | 0 <= k < |rs + [r]| ensures ReflectedAt(rs + [r], k, m') {
      if k < |rs| {
        assert ReflectedAt(rs, k, m) && (rs + [r])[k] == rs[k] && rs[k] in rs;
        if AckedAfter(rs, k, rs[k].id) {
          var j :| k < j < |rs| && rs[j] == AckRecord(rs[k].id);
          assert (rs + [r])[j] == rs[j];
        } else if r.AckRecord? && rs[k].id == r.id {
          assert (rs + [r])[|rs|] == r;
        }
      }
    }
  }

  lemma BufferedSound(l: Log, r: Record, n: nat)
    requires LogSound(l, n) && l.on && r.id <= n
    requires r.OpRecord? ==> r.id !in Ids(l.pending) && forall x :: x in l.buffer ==> x.id != r.id
    ensures LogSound(l.(buffer := l.buffer + [r], pending := ApplyRecord(l.pending, r)), n)
  {
    ApplySnoc([], l.disk + l.buffer, r);
    assert l.disk + (l.buffer + [r]) == (l.disk + l.buffer) + [r];
    AppendReflected(l.buffer, l.pending, r);
    match r {
      case OpRecord(id, payload) => PutMembers(l.pending, Entry(id, payload));
      case AckRecord(id) => RemoveMembers(l.pending, id);
    }
  }

  /** The buffer grows by a record the pending map then shows, and may be written out. */
  lemma AppendedSound(l: Log, r: Record, write: Write, n: nat)
    requires LogSound(l, n) && l.on && r.id <= n
    requires r.OpRecord? ==> r.id !in Ids(l.pending) && forall x :: x in l.buffer ==> x.id != r.id
    ensures var m := Appended(l, r, write).(pending := ApplyRecord(l.pending, r));
      LogSound(m, n) && Settled(l, m)
  {
    hide LogSound, ApplyRecord;
    var m := l.(buffer := l.buffer + [r], pending := ApplyRecord(l.pending, r));
    BufferedSound(l, r, n);
    FlushedSound(m, write, n);
  }

  lemma LoggedSound(l: Log, e: Entry, write: Write, n: nat)
    requires LogSound(l, n) && e.id == n + 1
    ensures var m := Logged(l, e, write);
      LogSound(m, n + 1) && Settled(l, m) && m.on == l.on && m.pending == if l.on then l.pending + [e] else []
  {
    PendingBelow(l, n);
    if l.on {
      AppendedSound(l, OpRecord(e.id, e.payload), write, n + 1);
      PutFresh(l.pending, e);
    }
  }

  lemma AckedSound(l: Log, id: nat, write: Write, n: nat)
    requires LogSound(l, n) && id <= n
    ensures var m := Acked(l, id, write);
      LogSound(m, n) && Settled(l, m) && m.on == l.on && m.pending == Remove(l.pending, id)
  {
    if l.on && id in Ids(l.pending) {
      AppendedSound(l, AckRecord(id), write, n);
    } else {
      RemoveAbsent(l.pending, id);
    }
  }

  /** Compaction swaps the log for the pending map, even under a buffer it failed to write. */
  lemma CompactedSound(l: Log, ok: bool, n: nat)
    requires LogSound(l, n)
    ensures LogSound(Compacted(l, ok), n) && Settled(l, Compacted(l, ok))
    ensures Compacted(l, ok).on == l.on && Compacted(l, ok).pending == l.pending
  {
    ReplayCompacted(l.pending);
    ApplyConcat([], OpRecords(l.pending), l.buffer);
    if l.on {
      ReapplyChangesNothing(l.pending, l.buffer);
    }
    PendingBelow(l, n);
  }

  /** Wherever a crash cuts a compaction short, the log file replays to the pending map:
      the old file once its flush is written, and the new file in any case. Without a crash
      so does the new file under whatever the flush has left in the buffer, which may still
      be written behind it. */
  lemma CompactionKeepsMeaning(l: Log, n: nat, flush: Write, renameOk: bool)
    requires LogSound(l, n) && l.on
    ensures var flushed := Flushed(l, flush); var renamed := Compacted(flushed, renameOk);
      && (flush != WriteFails ==> Replay(flushed.disk) == l.pending)
      && (renameOk ==> Replay(renamed.disk) == l.pending)
      && Replay(renamed.disk + renamed.buffer) == renamed.pending == l.pending
      && (flush == WriteSucceeds ==> renamed.buffer == [])
  {
    var flushed := Flushed(l, flush);
    assert l.disk + [] == l.disk;
    FlushedSound(l, flush, n);
    CompactedSound(flushed, renameOk, n);
    ReplayCompacted(l.pending);
    hide Replay, Reflected, Distinct;
    assert flush == WriteSucceeds ==> flushed.disk + flushed.buffer == flushed.disk;
  }

  /** The file holds one record for each pending entry, in order, and nothing else. */
  predicate OneRecordEach(file: seq<Record>, pending: seq<Entry>) {
    && |file| == |pending|
    && forall i :: 0 <= i < |pending| ==> file[i] == OpRecord(pending[i].id, pending[i].payload)
  }

  /** A flush writes the buffer behind the file, and empties it only if all went well; after a
      failure, the next one that succeeds writes all of it, a second time if it was written. */
  lemma FailedFlushIsRepeated(l: Log, write: Write)
    requires l.on
    ensures var m := Flushed(l, write); var again := Flushed(m, WriteSucceeds);
      && again.buffer == [] && again.pending == l.pending
      && again.disk == l.disk + l.buffer + (if write == SyncFails then l.buffer else [])
      && (write == WriteSucceeds ==> m.buffer == []) && (write != WriteSucceeds ==> m.buffer == l.buffer)
      && (l.buffer != [] ==>
            m.flushes + m.writeFailures == l.flushes + l.writeFailures + 1
            && (m.flushes > l.flushes <==> write == WriteSucceeds))
  {
    assert l.buffer == [] ==> l.disk + l.buffer + l.buffer == l.disk && l.disk + l.buffer == l.disk;
    assert l.disk + l.buffer + [] == l.disk + l.buffer;
  }

  lemma ReopenedSound(on: bool, batchSize: nat, disk: seq<Record>)
    ensures LogSound(Reopened(on, batchSize, disk), if on then MaxId(disk) else 0)
  {
    ReplayShape(disk);
    assert disk + [] == disk;
  }
}
