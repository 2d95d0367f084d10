/** The reference-counted cache of EverCore runtimes: one shared entry, and entries of
    their own for leases that cannot share it. Every call runs to its end undisturbed. */
module EverCoreRuntime {
  import opened Options

  /** `disposals` counts how often the entry's value has been disposed. */
  datatype Entry = Entry(key: string, refCount: nat, idleTimer: bool, disposals: nat)

  datatype Lease = Lease(entry: nat, disposeOnRelease: bool, released: bool)

  /** Everything ever configured and leased. `keepsIdle` says that the idle time is positive. */
  datatype Manager = Manager(keepsIdle: bool, entries: seq<Entry>, leases: seq<Lease>, current: Option<nat>)

  function Fresh(keepsIdle: bool): Manager {
    Manager(keepsIdle, [], [], None)
  }

  function Disposed(e: Entry): Entry {
    e.(idleTimer := false, refCount := 0, disposals := e.disposals + 1)
  }

  predicate Exists(m: Manager, e: nat) {
    e < |m.entries|
  }

  /** Whether an acquire can share the current entry. `reusable` is `isReusableEverCore` of its value. */
  predicate Shares(m: Manager, key: string, reusable: bool) {
    m.current.Some? && Exists(m, m.current.value) && m.entries[m.current.value].key == key && reusable
  }

  /** An unused entry that cannot be shared makes way. */
  function Cleared(m: Manager): Manager {
    if m.current.Some? && Exists(m, m.current.value) && m.entries[m.current.value].refCount == 0 then
      var e := m.current.value;
      m.(entries := m.entries[e := Disposed(m.entries[e])], current := None)
    else m
  }

  /** `acquire`; `configured` is false if the configuration throws. The new lease is the last one. */
  function Acquired(m: Manager, key: string, reusable: bool, configured: bool): Manager {
    if Shares(m, key, reusable) then
      var e := m.current.value;
      m.(entries := m.entries[e := m.entries[e].(idleTimer := false, refCount := m.entries[e].refCount + 1)],
         leases := m.leases + [Lease(e, false, false)])
    else
      var c := Cleared(m);
      if !configured then c
      else Added(c, key)
  }

  /** A newly configured value: shared from now on, unless the shared one is in use. */
  function Added(c: Manager, key: string): Manager {
    c.(entries := c.entries + [Entry(key, 1, false, 0)],
       leases := c.leases + [Lease(|c.entries|, c.current.Some?, false)],
       current := if c.current.Some? then c.current else Some(|c.entries|))
  }

  /** `disposeIdleEntry`. */
  function Expired(m: Manager, e: nat): Manager
    requires Exists(m, e)
  {
    if m.entries[e].refCount != 0 then m
    else m.(entries := m.entries[e := Disposed(m.entries[e])],
            current := if m.current == Some(e) then None else m.current)
  }

  /** `release` of lease `l`. */
  function Released(m: Manager, l: nat): Manager
    requires l < |m.leases| && Exists(m, m.leases[l].entry)
  {
    var lease := m.leases[l];
    var e := lease.entry;
    if lease.released then m
    else
      var left := if m.entries[e].refCount > 0 then m.entries[e].refCount - 1 else 0;
      var n := m.(entries := m.entries[e := m.entries[e].(refCount := left)],
                  leases := m.leases[l := lease.(released := true)]);
      if left != 0 then n
      else if lease.disposeOnRelease then n.(entries := n.entries[e := Disposed(n.entries[e])])
      else if !m.keepsIdle then Expired(n.(entries := n.entries[e := n.entries[e].(idleTimer := false)]), e)
      else n.(entries := n.entries[e := n.entries[e].(idleTimer := true)])
  }

  function ShutDown(m: Manager): Manager {
    if m.current.None? || !Exists(m, m.current.value) then m
    else m.(entries := m.entries[m.current.value := Disposed(m.entries[m.current.value])], current := None)
  }

  datatype Step =
    | Acquire(key: string, reusable: bool, configured: bool)
    | Release(lease: nat)
    | TimerFires(entry: nat)
    | Shutdown

  function Next(m: Manager, s: Step): Manager {
    match s
    case Acquire(key, reusable, configured) => Acquired(m, key, reusable, configured)
    case Release(l) => if l < |m.leases| && Exists(m, m.leases[l].entry) then Released(m, l) else m
    case TimerFires(e) => if Exists(m, e) && m.entries[e].idleTimer then Expired(m, e) else m
    case Shutdown => ShutDown(m)
  }

  function Run(m: Manager, steps: seq<Step>): Manager {
    if steps == [] then m else Next(Run(m, steps[..|steps| - 1]), steps[|steps| - 1])
  }

  // ---------------------------------------------------------------- leases

  /** How many leases on entry `e` have not been released. */
  function Live(leases: seq<Lease>, e: nat): nat {
    if leases == [] then 0
    else
      var n := |leases| - 1;
      Live(leases[..n], e) + if leases[n].entry == e && !leases[n].released then 1 else 0
  }

  lemma LivePush(leases: seq<Lease>, l: Lease, e: nat)
    ensures Live(leases + [l], e) == Live(leases, e) + if l.entry == e && !l.released then 1 else 0
  {
    assert (leases + [l])[..|leases|] == leases;
  }

  lemma {:induction false} LiveRelease(leases: seq<Lease>, l: nat, e: nat)
    requires l < |leases| && !leases[l].released
    ensures Live(leases[l := leases[l].(released := true)], e)
      == Live(leases, e) - if leases[l].entry == e then 1 else 0
  {
    var n := |leases| - 1;
    var after := leases[l := leases[l].(released := true)];
    if l < n {
      LiveRelease(leases[..n], l, e);
      assert after[..n] == leases[..n][l := leases[l].(released := true)];
    } else {
      assert after[..n] == leases[..n];
    }
  }

  lemma {:induction false} LiveAny(leases: seq<Lease>, l: nat)
    requires l < |leases| && !leases[l].released
    ensures Live(leases, leases[l].entry) > 0
  {
    var n := |leases| - 1;
    if l < n {
      LiveAny(leases[..n], l);
    }
  }

  lemma {:induction false} LiveNone(leases: seq<Lease>, e: nat)
    requires forall l :: 0 <= l < |leases| && leases[l].entry == e ==> leases[l].released
    ensures Live(leases, e) == 0
  {
    if leases != [] {
      LiveNone(leases[..|leases| - 1], e);
    }
  }

  // ---------------------------------------------------------------- what every step keeps

  /** An entry in use is undisposed and has no timer; one out of use waits for its timer, as
      the current one, or has been disposed, once. */
  ghost predicate EntrySound(m: Manager, e: nat)
    requires Exists(m, e)
  {
    var x := m.entries[e];
    && x.refCount == Live(m.leases, e)
    && (x.idleTimer ==> x.refCount == 0)
    && x.disposals == (if m.current == Some(e) || x.refCount > 0 then 0 else 1)
    && (m.current == Some(e) ==> (x.refCount == 0 ==> x.idleTimer))
    && (m.current != Some(e) ==> x.refCount <= 1 && !x.idleTimer)
  }

  ghost predicate Sound(m: Manager) {
    && (m.current.Some? ==> Exists(m, m.current.value))
    && (forall l :: 0 <= l < |m.leases| ==>
          && Exists(m, m.leases[l].entry)
          && (!m.leases[l].released ==> (m.leases[l].disposeOnRelease <==> m.current != Some(m.leases[l].entry))))
    && forall e :: 0 <= e < |m.entries| ==> EntrySound(m, e)
  }

  lemma LeasedIsCounted(m: Manager)
    requires Sound(m)
    ensures forall l :: 0 <= l < |m.leases| && !m.leases[l].released ==> m.entries[m.leases[l].entry].refCount > 0
  {
    forall l | 0 <= l < |m.leases| && !m.leases[l].released ensures m.entries[m.leases[l].entry].refCount > 0 {
      LiveAny(m.leases, l);
      assert EntrySound(m, m.leases[l].entry);
    }
  }

  lemma ClearedSound(m: Manager)
    requires Sound(m)
    ensures Sound(Cleared(m)) && Cleared(m).leases == m.leases
    ensures Cleared(m).current.Some? ==> m.entries[m.current.value].refCount > 0
  {
    LeasedIsCounted(m);
    forall e | 0 <= e < |m.entries| ensures EntrySound(Cleared(m), e) {
      assert EntrySound(m, e);
    }
  }

  lemma AcquiredSound(m: Manager, key: string, reusable: bool, configured: bool)
    requires Sound(m)
    ensures Sound(Acquired(m, key, reusable, configured))
  {
    if Shares(m, key, reusable) {
      SharedSound(m, key, reusable, configured);
    } else {
      ClearedSound(m);
      if configured {
        AddedSound(Cleared(m), key);
      }
    }
  }

  lemma SharedSound(m: Manager, key: string, reusable: bool, configured: bool)
    requires Sound(m) && Shares(m, key, reusable)
    ensures Sound(Acquired(m, key, reusable, configured))
  {
    var n := Acquired(m, key, reusable, configured);
    forall e | 0 <= e < |n.entries| ensures EntrySound(n, e) {
      LivePush(m.leases, n.leases[|m.leases|], e);
      assert EntrySound(m, e);
    }
  }

  lemma AddedSound(c: Manager, key: string)
    requires Sound(c)
    ensures Sound(Added(c, key))
  {
    var n := Added(c, key);
    forall e | 0 <= e < |n.entries| ensures EntrySound(n, e) {
      LivePush(c.leases, n.leases[|c.leases|], e);
      if e == |c.entries| {
        LiveNone(c.leases, e);
      } else {
        assert EntrySound(c, e);
      }
    }
  }

  lemma ReleasedSound(m: Manager, l: nat)
    requires Sound(m) && l < |m.leases|
    ensures Sound(Released(m, l))
  {
    if !m.leases[l].released {
      var n := Released(m, l);
      forall e | 0 <= e < |m.entries| ensures EntrySound(n, e) {
        LiveRelease(m.leases, l, e);
        assert EntrySound(m, e);
      }
      forall k | 0 <= k < |n.leases| && !n.leases[k].released ensures n.entries[n.leases[k].entry].refCount > 0 {
        LiveAny(n.leases, k);
        assert EntrySound(n, n.leases[k].entry);
      }
    }
  }

  lemma ExpiredSound(m: Manager, e: nat)
    requires Sound(m) && Exists(m, e) && m.entries[e].idleTimer
    ensures Sound(Expired(m, e))
  {
    LeasedIsCounted(m);
    forall k | 0 <= k < |m.entries| ensures EntrySound(Expired(m, e), k) {
      assert EntrySound(m, k);
    }
  }

  /** Nobody holds a lease on the current entry. */
  predicate Quiet(m: Manager) {
    m.current.None? || !Exists(m, m.current.value) || m.entries[m.current.value].refCount == 0
  }

  /** Shutting down keeps things in order exactly if nobody holds a lease on the shared entry. */
  lemma ShutDownSoundIff(m: Manager)
    requires Sound(m)
    ensures Sound(ShutDown(m)) == Quiet(m)
  {
    if m.current.Some? {
      assert EntrySound(m, m.current.value);
      if Quiet(m) {
        ClearedSound(m);
        assert ShutDown(m) == Cleared(m);
      } else {
        assert !EntrySound(ShutDown(m), m.current.value);
      }
    }
  }

  /** Somebody holds a lease on a value that has been disposed. */
  ghost predicate DisposedUnderLease(m: Manager) {
    exists l :: 0 <= l < |m.leases| && OnDisposed(m, l)
  }

  ghost predicate OnDisposed(m: Manager, l: nat)
    requires l < |m.leases|
  {
    !m.leases[l].released && Exists(m, m.leases[l].entry) && m.entries[m.leases[l].entry].disposals > 0
  }

  lemma {:induction false} LiveWitness(leases: seq<Lease>, e: nat) returns (l: nat)
    requires Live(leases, e) > 0
    ensures l < |leases| && leases[l].entry == e && !leases[l].released
  {
    l := |leases| - 1;
    if leases[l].entry != e || leases[l].released {
      l := LiveWitness(leases[..l], e);
    }
  }

  /** Shutting down disposes a value under somebody's lease exactly if the shared entry is leased. */
  lemma {:induction false} ShutDownDisposesUnderLeaseIff(m: Manager)
    requires Sound(m)
    ensures DisposedUnderLease(ShutDown(m)) == !Quiet(m)
  {
    var n := ShutDown(m);
    LeasedIsCounted(m);
    if Quiet(m) {
      forall l | 0 <= l < |n.leases| ensures !OnDisposed(n, l) {
        if !m.leases[l].released {
          assert EntrySound(m, m.leases[l].entry);
        }
      }
    } else {
      var e := m.current.value;
      assert EntrySound(m, e);
      var l := LiveWitness(m.leases, e);
      assert OnDisposed(n, l);
    }
  }

  /** What becomes of entry `e` when lease `l` is released and the timer, if any, fires. */
  function ReleasedAndExpired(m: Manager, l: nat): Manager
    requires l < |m.leases| && Exists(m, m.leases[l].entry)
  {
    var n := Released(m, l);
    if n.entries[m.leases[l].entry].idleTimer then Expired(n, m.leases[l].entry) else n
  }

  /** And then the first of its holders to release it has it disposed again. */
  lemma {:induction false} DisposedAgain(m: Manager, l: nat)
    requires Sound(m) && !Quiet(m)
    requires l < |m.leases| && !m.leases[l].released && m.current == Some(m.leases[l].entry)
    ensures m.entries[m.leases[l].entry].disposals == 0
    ensures ReleasedAndExpired(ShutDown(m), l).entries[m.leases[l].entry].disposals == 2
  {
    assert EntrySound(m, m.leases[l].entry);
  }

  /** The shortest such run. */
  lemma DisposedTwice(key: string)
    ensures Run(Fresh(false), [Acquire(key, true, true), Shutdown, Release(0)]).entries == [Entry(key, 0, false, 2)]
  {
    var steps := [Acquire(key, true, true), Shutdown, Release(0)];
    assert steps[..2] == [Acquire(key, true, true), Shutdown] && steps[..2][..1] == [Acquire(key, true, true)];
    assert steps[..2][..1][..0] == [];
    var m1 := Next(Fresh(false), steps[0]);
    assert m1 == Manager(false, [Entry(key, 1, false, 0)], [Lease(0, false, false)], Some(0));
    var m2 := Next(m1, Shutdown);
    assert m2 == Manager(false, [Entry(key, 0, false, 1)], [Lease(0, false, false)], None);
    assert Next(m2, Release(0)).entries == [Entry(key, 0, false, 2)];
    assert Run(Fresh(false), steps[..2][..1]) == m1;
    assert Run(Fresh(false), steps[..2]) == m2;
  }

  ghost predicate Orderly(m: Manager, steps: seq<Step>) {
    forall k :: 0 <= k < |steps| && steps[k] == Shutdown ==> Quiet(Run(m, steps[..k]))
  }

  lemma {:induction false} RunSound(keepsIdle: bool, steps: seq<Step>)
    requires Orderly(Fresh(keepsIdle), steps)
    ensures Sound(Run(Fresh(keepsIdle), steps))
  {
    if steps != [] {
      var n := |steps| - 1;
      assert forall k :: 0 <= k < n ==> steps[..n][..k] == steps[..k];
      RunSound(keepsIdle, steps[..n]);
      var m := Run(Fresh(keepsIdle), steps[..n]);
      match steps[n] {
        case Acquire(key, reusable, configured) => AcquiredSound(m, key, reusable, configured);
        case Release(l) => if l < |m.leases| { ReleasedSound(m, l); }
        case TimerFires(e) => if Exists(m, e) && m.entries[e].idleTimer { ExpiredSound(m, e); }
        case Shutdown => ShutDownSoundIff(m);
      }
    }
  }

  // ---------------------------------------------------------------- what a lease is on

  /** Every lease, and the current entry, are on entries that exist. */
  ghost predicate Linked(m: Manager) {
    && (m.current.Some? ==> Exists(m, m.current.value))
    && forall l :: 0 <= l < |m.leases| ==> Exists(m, m.leases[l].entry)
  }

  /** Entries keep their keys, and leases their entries. */
  ghost predicate KeepsKeys(m: Manager, n: Manager) {
    && |m.entries| <= |n.entries| && |m.leases| <= |n.leases|
    && (forall e :: 0 <= e < |m.entries| ==> n.entries[e].key == m.entries[e].key)
    && forall l :: 0 <= l < |m.leases| ==> n.leases[l].entry == m.leases[l].entry
  }

  lemma StepKeepsKeys(m: Manager, s: Step)
    requires Linked(m)
    ensures Linked(Next(m, s)) && KeepsKeys(m, Next(m, s))
  {
  }

  /** An acquire leases an entry with its own key: the current one, as it is, exactly if that
      has the key and can be shared, and otherwise a new one, unless the configuration throws. */
  lemma AcquireLeases(m: Manager, key: string, reusable: bool, configured: bool)
    requires Linked(m)
    ensures var n, l := Next(m, Acquire(key, reusable, configured)), |m.leases|;
      var shared := m.current.Some? && m.entries[m.current.value].key == key && reusable;
      && |n.leases| == l + (if shared || configured then 1 else 0)
      && (|n.leases| > l ==> Linked(n) && !n.leases[l].released && n.entries[n.leases[l].entry].key == key)
      && (shared ==>
            && |n.entries| == |m.entries| && n.leases[l].entry == m.current.value && n.current == m.current
            && n.entries[m.current.value].refCount == m.entries[m.current.value].refCount + 1
            && n.entries[m.current.value].disposals == m.entries[m.current.value].disposals)
      && (!shared && configured ==> |n.entries| == |m.entries| + 1 && n.leases[l].entry == |m.entries|)
  {
  }

  /** An unused entry that is not shared makes way for the new one, even if that cannot be
      configured; one in use stays, untouched, and the new one is not shared. */
  lemma MakesWayIffUnused(m: Manager, key: string, reusable: bool, configured: bool)
    requires Sound(m) && m.current.Some? && !(m.entries[m.current.value].key == key && reusable)
    ensures var n, e := Next(m, Acquire(key, reusable, configured)), m.current.value;
      && (n.current != Some(e) <==> m.entries[e].refCount == 0)
      && (m.entries[e].refCount == 0 ==>
            n.entries[e].disposals == 1 && n.current == if configured then Some(|m.entries|) else None)
      && (m.entries[e].refCount > 0 ==> n.entries[e] == m.entries[e])
  {
    assert EntrySound(m, m.current.value);
  }

  lemma {:induction false} RunLinked(keepsIdle: bool, steps: seq<Step>)
    ensures Linked(Run(Fresh(keepsIdle), steps))
  {
    if steps != [] {
      RunLinked(keepsIdle, steps[..|steps| - 1]);
      StepKeepsKeys(Run(Fresh(keepsIdle), steps[..|steps| - 1]), steps[|steps| - 1]);
    }
  }

  lemma {:induction false} RunKeepsKeys(keepsIdle: bool, steps: seq<Step>, k: nat)
    requires k <= |steps|
    ensures KeepsKeys(Run(Fresh(keepsIdle), steps[..k]), Run(Fresh(keepsIdle), steps))
  {
    var n := |steps| - 1;
    if k == |steps| {
      assert steps[..k] == steps;
    } else {
      RunKeepsKeys(keepsIdle, steps[..n], k);
      assert steps[..n][..k] == steps[..k];
      RunLinked(keepsIdle, steps[..n]);
      StepKeepsKeys(Run(Fresh(keepsIdle), steps[..n]), steps[n]);
    }
  }

  /** In every run, whoever acquired with a key holds a lease on an entry configured for it. */
  lemma {:induction false} LeasedKey(keepsIdle: bool, steps: seq<Step>, k: nat)
    requires k < |steps| && steps[k].Acquire?
    ensures var m, l := Run(Fresh(keepsIdle), steps), |Run(Fresh(keepsIdle), steps[..k]).leases|;
      l < |Run(Fresh(keepsIdle), steps[..k + 1]).leases| ==>
        l < |m.leases| && Exists(m, m.leases[l].entry) && m.entries[m.leases[l].entry].key == steps[k].key
  {
    var before := Run(Fresh(keepsIdle), steps[..k]);
    RunLinked(keepsIdle, steps[..k]);
    AcquireLeases(before, steps[k].key, steps[k].reusable, steps[k].configured);
    assert steps[..k + 1][..k] == steps[..k];
    assert Run(Fresh(keepsIdle), steps[..k + 1]) == Next(before, steps[k]);
    RunLinked(keepsIdle, steps);
    RunKeepsKeys(keepsIdle, steps, k + 1);
    hide Next;
  }

  /** A second acquire with the key of the first shares its value. */
  lemma AcquiredAgain(m: Manager, key: string, reusable: bool, configured: bool)
    requires Sound(m) && Quiet(m)
    ensures var n := Next(m, Acquire(key, reusable, true));
      var o := Next(n, Acquire(key, true, configured));
      && |o.leases| == |m.leases| + 2 && |o.entries| == |n.entries|
      && o.leases[|m.leases|].entry == o.leases[|m.leases| + 1].entry
  {
    assert m.current.Some? ==> EntrySound(m, m.current.value);
  }

  /** The last release of a value of one's own disposes it at once, and of the shared value only
      without an idle time; with one, it is kept for its timer. */
  lemma LastReleaseDisposes(m: Manager, l: nat)
    requires Sound(m) && l < |m.leases| && !m.leases[l].released && m.entries[m.leases[l].entry].refCount == 1
    ensures var n, e := Next(m, Release(l)), m.leases[l].entry;
      && n.leases[l].released && n.entries[e].refCount == 0
      && (n.entries[e].disposals == 1 <==> m.leases[l].disposeOnRelease || !m.keepsIdle)
      && (n.entries[e].idleTimer <==> !m.leases[l].disposeOnRelease && m.keepsIdle)
      && n.current == if n.entries[e].disposals == 1 && m.current == Some(e) then None else m.current
  {
    assert EntrySound(m, m.leases[l].entry);
  }

  /** An earlier release, and one that is repeated, disposes nothing. */
  lemma OtherReleases(m: Manager, l: nat)
    requires Sound(m) && l < |m.leases| && (m.leases[l].released || m.entries[m.leases[l].entry].refCount > 1)
    ensures var n, e := Next(m, Release(l)), m.leases[l].entry;
      && (m.leases[l].released ==> n == m)
      && n.current == m.current && n.entries[e].disposals == m.entries[e].disposals
      && n.entries[e].refCount == m.entries[e].refCount - if m.leases[l].released then 0 else 1
  {
  }

  /** A timer that fires disposes the shared value and forgets it. */
  lemma TimerDisposes(m: Manager, e: nat)
    requires Sound(m) && Exists(m, e) && m.entries[e].idleTimer
    ensures m.current == Some(e) && m.entries[e].disposals == 0
    ensures var n := Next(m, TimerFires(e)); n.current == None && n.entries[e].disposals == 1 && !n.entries[e].idleTimer
  {
    assert EntrySound(m, e);
  }

  ghost predicate NoTimers(m: Manager) {
    !m.keepsIdle && forall e :: 0 <= e < |m.entries| ==> !m.entries[e].idleTimer
  }

  /** Without an idle time no timer is ever armed. */
  lemma {:induction false} NoIdleTimers(steps: seq<Step>)
    ensures NoTimers(Run(Fresh(false), steps))
  {
    if steps != [] {
      NoIdleTimers(steps[..|steps| - 1]);
    }
  }

  // ---------------------------------------------------------------- main results

  /** Reference counts are exact, all shared leases share one value, no value is disposed
      under a lease or twice, and once everything is released and every timer has fired,
      every value has been disposed. */
  lemma {:induction false} EveryRun(keepsIdle: bool, steps: seq<Step>)
    requires Orderly(Fresh(keepsIdle), steps)
    ensures var m := Run(Fresh(keepsIdle), steps);
      && (forall e :: 0 <= e < |m.entries| ==> m.entries[e].refCount == Live(m.leases, e) && m.entries[e].disposals <= 1)
      && (forall l :: 0 <= l < |m.leases| && !m.leases[l].released ==>
            Exists(m, m.leases[l].entry) && m.entries[m.leases[l].entry].disposals == 0)
      && (forall l :: 0 <= l < |m.leases| && !m.leases[l].released && !m.leases[l].disposeOnRelease ==>
            m.current == Some(m.leases[l].entry))
      && (Settled(m) ==> m.current.None? && forall e :: 0 <= e < |m.entries| ==> m.entries[e].disposals == 1)
  {
    RunSound(keepsIdle, steps);
    SoundMeans(Run(Fresh(keepsIdle), steps));
  }

  lemma SoundMeans(m: Manager)
    requires Sound(m)
    ensures forall e :: 0 <= e < |m.entries| ==>
      m.entries[e].refCount == Live(m.leases, e) && m.entries[e].disposals <= 1
    ensures forall l :: 0 <= l < |m.leases| && !m.leases[l].released ==>
      Exists(m, m.leases[l].entry) && m.entries[m.leases[l].entry].disposals == 0
    ensures forall l :: 0 <= l < |m.leases| && !m.leases[l].released && !m.leases[l].disposeOnRelease ==>
      m.current == Some(m.leases[l].entry)
    ensures Settled(m) ==> m.current.None? && forall e :: 0 <= e < |m.entries| ==> m.entries[e].disposals == 1
  {
    LeasedIsCounted(m);
    forall e | 0 <= e < |m.entries|
      ensures m.entries[e].refCount == Live(m.leases, e)
      ensures m.entries[e].disposals == if m.current == Some(e) || m.entries[e].refCount > 0 then 0 else 1
      ensures m.current == Some(e) && m.entries[e].refCount == 0 ==> m.entries[e].idleTimer
    {
      assert EntrySound(m, e);
    }
    if Settled(m) {
      forall e | 0 <= e < |m.entries| ensures Live(m.leases, e) == 0 {
        LiveNone(m.leases, e);
      }
    }
  }

  /** Nothing is leased and no timer is armed. */
  predicate Settled(m: Manager) {
    && (forall l :: 0 <= l < |m.leases| ==> m.leases[l].released)
    && forall e :: 0 <= e < |m.entries| ==> !m.entries[e].idleTimer
  }
}
