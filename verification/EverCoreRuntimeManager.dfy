/** The manager as the program keeps it, with the entries and leases it has handed out. */
module EverCoreRuntimeManager {
  import opened Options
  import opened EverCoreRuntime

  class RuntimeManager {
    const idleTtlMs: int
    var entry: Option<nat>
    var entries: seq<Entry>
    var leases: seq<Lease>

    function State(): Manager
      reads this
    {
      Manager(idleTtlMs > 0, entries, leases, entry)
    }

    ghost predicate Valid()
      reads this
    {
      Sound(State())
    }

    constructor (idleTtlMs: int)
      ensures Valid() && State() == Fresh(idleTtlMs > 0)
    {
      this.idleTtlMs := idleTtlMs;
      entry, entries, leases := None, [], [];
    }

    method CancelIdleTimer(e: nat)
      requires Exists(State(), e)
      modifies this`entries
      ensures entries == old(entries)[e := old(entries)[e].(idleTimer := false)]
    {
      if entries[e].idleTimer {
        entries := entries[e := entries[e].(idleTimer := false)];
      }
    }

    method DisposeEntry(e: nat)
      requires Exists(State(), e)
      modifies this`entries
      ensures entries == old(entries)[e := Disposed(old(entries)[e])]
    {
      CancelIdleTimer(e);
      entries := entries[e := entries[e].(refCount := 0, disposals := entries[e].disposals + 1)];
    }

    method DisposeIdleEntry(e: nat)
      requires Exists(State(), e)
      modifies this`entries, this`entry
      ensures State() == Expired(old(State()), e)
    {
      if entries[e].refCount != 0 {
        return;
      }
      if entry == Some(e) {
        entry := None;
      }
      DisposeEntry(e);
    }

    method ScheduleIdleDispose(e: nat)
      requires Exists(State(), e)
      modifies this`entries, this`entry
      ensures idleTtlMs > 0 ==>
        State() == old(State()).(entries := old(entries)[e := old(entries)[e].(idleTimer := true)])
      ensures idleTtlMs <= 0 ==>
        State() == Expired(old(State()).(entries := old(entries)[e := old(entries)[e].(idleTimer := false)]), e)
    {
      CancelIdleTimer(e);
      if idleTtlMs <= 0 {
        DisposeIdleEntry(e);
        return;
      }
      entries := entries[e := entries[e].(idleTimer := true)];
    }

    /** Returns the lease, or nothing if the configuration throws. */
    method Acquire(key: string, reusable: bool, configured: bool) returns (lease: Option<nat>)
      requires Valid()
      modifies this`entries, this`entry, this`leases
      ensures Valid() && State() == Acquired(old(State()), key, reusable, configured)
      ensures lease.None? <==> !configured && !Shares(old(State()), key, reusable)
      ensures lease.Some? ==> |leases| == old(|leases|) + 1 && lease.value == old(|leases|)
      ensures lease.Some? ==> Linked(State()) && entries[leases[lease.value].entry].key == key
      ensures old(entry).Some? && old(entries)[old(entry).value].key == key && reusable ==>
        lease.Some? && |entries| == old(|entries|) && leases[lease.value].entry == old(entry).value
    {
      AcquiredSound(State(), key, reusable, configured);
      AcquireLeases(State(), key, reusable, configured);
      assert entry.Some? ==> Exists(State(), entry.value);
      hide Sound;
      ghost var was := State();
      if entry.Some? && entries[entry.value].key == key && reusable {
        var e := entry.value;
        CancelIdleTimer(e);
        entries := entries[e := entries[e].(refCount := entries[e].refCount + 1)];
        assert entries == was.entries[e := was.entries[e].(idleTimer := false, refCount := was.entries[e].refCount + 1)];
        lease := CreateLease(e, false);
        return;
      }
      if entry.Some? && entries[entry.value].refCount == 0 {
        DisposeEntry(entry.value);
        entry := None;
      }
      if !configured {
        return None;
      }
      var e := |entries|;
      entries := entries + [Entry(key, 1, false, 0)];
      if entry.Some? && entries[entry.value].refCount > 0 {
        lease := CreateLease(e, true);
      } else {
        entry := Some(e);
        lease := CreateLease(e, false);
      }
    }

    method CreateLease(e: nat, disposeOnRelease: bool) returns (lease: Option<nat>)
      modifies this`leases
      ensures leases == old(leases) + [Lease(e, disposeOnRelease, false)] && lease == Some(old(|leases|))
    {
      lease := Some(|leases|);
      leases := leases + [Lease(e, disposeOnRelease, false)];
    }

    method Release(l: nat)
      requires Valid() && l < |leases|
      modifies this`entries, this`entry, this`leases
      ensures Valid() && State() == Released(old(State()), l)
    {
      ReleasedSound(State(), l);
      hide Sound;
      if leases[l].released {
        return;
      }
      var e, disposeOnRelease := leases[l].entry, leases[l].disposeOnRelease;
      leases := leases[l := leases[l].(released := true)];
      var left := if entries[e].refCount > 0 then entries[e].refCount - 1 else 0;
      entries := entries[e := entries[e].(refCount := left)];
      if left != 0 {
        return;
      }
      if disposeOnRelease {
        DisposeEntry(e);
        return;
      }
      ScheduleIdleDispose(e);
    }

    method FireIdleTimer(e: nat)
      requires Valid() && Exists(State(), e) && entries[e].idleTimer
      modifies this`entries, this`entry
      ensures Valid() && State() == Expired(old(State()), e)
    {
      ExpiredSound(State(), e);
      DisposeIdleEntry(e);
    }

    method Shutdown()
      requires Valid()
      modifies this`entries, this`entry
      ensures State() == ShutDown(old(State()))
      ensures (Valid() <==> Quiet(old(State()))) && (DisposedUnderLease(State()) <==> !Quiet(old(State())))
    {
      ShutDownSoundIff(State());
      ShutDownDisposesUnderLeaseIff(State());
      if entry.None? {
        return;
      }
      var e := entry.value;
      entry := None;
      DisposeEntry(e);
    }
  }
}
