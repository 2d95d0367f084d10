/** The requests of an MCP client and their answers: JSON-RPC 2.0, section 5. */
module McpRequests {
  import opened Options

  datatype Settlement = Resolved(result: string) | Rejected(reason: string)

  datatype Shutdown = NotAsked | Asked | Over

  /** `pending` is an insertion-ordered map from ids to promises; `settled` says how the
      promises that are no longer open have ended. A client shuts down once. */
  datatype Calls = Calls(connected: bool, shutdown: Shutdown, nextId: nat, pending: seq<nat>, settled: map<nat, Settlement>)

  function Disconnected(): Calls {
    Calls(false, NotAsked, 1, [], map[])
  }

  /** A promise keeps its first settlement. */
  function Settle(settled: map<nat, Settlement>, id: nat, s: Settlement): map<nat, Settlement> {
    if id in settled then settled else settled[id := s]
  }

  function SettleAll(settled: map<nat, Settlement>, ids: seq<nat>, s: Settlement): (r: map<nat, Settlement>)
    ensures forall id :: id in r <==> id in settled || id in ids
    ensures forall id :: id in r ==> r[id] == if id in settled then settled[id] else s
  {
    if ids == [] then settled
    else
      assert forall x :: x in ids <==> x in ids[..|ids| - 1] || x == ids[|ids| - 1];
      Settle(SettleAll(settled, ids[..|ids| - 1], s), ids[|ids| - 1], s)
  }

  function Without(ids: seq<nat>, id: nat): (r: seq<nat>)
    ensures forall x :: x in r <==> x in ids && x != id
  {
    if ids == [] then []
    else
      var rest := Without(ids[1..], id);
      assert forall x :: x in ids <==> x == ids[0] || x in ids[1..];
      if ids[0] == id then rest else [ids[0]] + rest
  }

  /** `request`; without a child its promise is rejected at once and has no id. */
  function Requested(c: Calls): Calls {
    if !c.connected then c else c.(nextId := c.nextId + 1, pending := c.pending + [c.nextId])
  }

  /** The callback of the write of a request that failed. */
  function WriteFailed(c: Calls, id: nat, reason: string): Calls {
    c.(pending := Without(c.pending, id), settled := Settle(c.settled, id, Rejected(reason)))
  }

  /** `handleMessage`. */
  function Answered(c: Calls, id: Option<nat>, answer: Settlement): Calls {
    if id.None? || id.value !in c.pending then c
    else c.(pending := Without(c.pending, id.value), settled := Settle(c.settled, id.value, answer))
  }

  /** `rejectAll`. */
  function RejectedAll(c: Calls, reason: string): Calls {
    c.(pending := [], settled := SettleAll(c.settled, c.pending, Rejected(reason)))
  }

  /** `shutdownOnce`, until it waits for the answer to its own request. */
  function ShutdownBegun(c: Calls): Calls {
    if c.shutdown != NotAsked then c
    else if !c.connected then c.(shutdown := Over)
    else Requested(c).(shutdown := Asked)
  }

  /** `shutdownOnce` when that has been answered, or its second is up. */
  function ShutdownEnded(c: Calls): Calls {
    if c.shutdown != Asked then c
    else RejectedAll(c, "shutting down").(connected := false, shutdown := Over)
  }

  datatype Step =
    | Connect
    | Request
    | WriteFails(id: nat, reason: string)
    | Answer(reply: Option<nat>, answer: Settlement)
    | ChildError(reason: string)
    | Exit(code: int)
    | BeginShutdown
    | EndShutdown

  /** A write can only fail for a request that was made. */
  function Next(c: Calls, s: Step): Calls {
    match s
    case Connect => c.(connected := true)
    case Request => Requested(c)
    case WriteFails(id, reason) => if 1 <= id < c.nextId then WriteFailed(c, id, reason) else c
    case Answer(id, answer) => Answered(c, id, answer)
    case ChildError(reason) => RejectedAll(c, reason)
    case Exit(code) => if code != 0 then RejectedAll(c, "exited") else c
    case BeginShutdown => ShutdownBegun(c)
    case EndShutdown => ShutdownEnded(c)
  }

  function Run(c: Calls, steps: seq<Step>): Calls {
    if steps == [] then c else Next(Run(c, steps[..|steps| - 1]), steps[|steps| - 1])
  }

  /** Every request made so far is either pending or settled. */
  ghost predicate Sound(c: Calls) {
    && c.nextId > 0
    && (forall id :: id in c.pending || id in c.settled <==> 1 <= id < c.nextId)
    && (forall id :: id in c.pending ==> id !in c.settled)
  }

  /** What is settled stays as it is. */
  ghost predicate Later(c: Calls, d: Calls) {
    c.nextId <= d.nextId && forall id :: id in c.settled ==> id in d.settled && d.settled[id] == c.settled[id]
  }

  lemma {:induction false} StepSound(c: Calls, s: Step)
    requires Sound(c)
    ensures Sound(Next(c, s)) && Later(c, Next(c, s))
  {
  }

  /** No request is lost or answered twice, however answers, failures and exits interleave. */
  lemma {:induction false} EveryRequest(c: Calls, steps: seq<Step>)
    requires Sound(c)
    ensures Sound(Run(c, steps)) && Later(c, Run(c, steps))
  {
    if steps != [] {
      EveryRequest(c, steps[..|steps| - 1]);
      StepSound(Run(c, steps[..|steps| - 1]), steps[|steps| - 1]);
    }
  }

  /** An answer settles the request with its id, if that is still open, and no other. */
  lemma {:induction false} AnswersTheirOwn(c: Calls, id: nat, answer: Settlement, other: nat)
    requires Sound(c)
    ensures var d := Next(c, Answer(Some(id), answer));
      && (other in d.settled && other !in c.settled ==> other == id && d.settled[other] == answer)
      && (id in c.pending ==> id in d.settled && d.settled[id] == answer)
      && (other in d.pending <==> other in c.pending && other != id)
  {
  }

  /** The server's exit settles everything that is open exactly if its code is not zero;
      after a clean exit, open requests stay open. */
  lemma {:induction false} ExitSettlesIff(c: Calls, code: int)
    requires Sound(c) && c.pending != []
    ensures (Next(c, Exit(code)).pending == []) == (code != 0)
    ensures code != 0 ==> forall id :: 1 <= id < c.nextId ==> id in Next(c, Exit(code)).settled
  {
    assert forall id :: 1 <= id < c.nextId ==> id in c.pending || id in c.settled;
  }

  // ---------------------------------------------------------------- how requests end

  /** What was open is rejected for `reason`, and what was settled stays as it is. */
  ghost predicate AllRejected(c: Calls, d: Calls, reason: string) {
    && d.pending == [] && d.nextId == c.nextId
    && (forall id :: id in d.settled <==> id in c.settled || id in c.pending)
    && forall id :: id in d.settled ==> d.settled[id] == if id in c.pending then Rejected(reason) else c.settled[id]
  }

  /** What a step makes of a request that is open: an answer is passed on, everything else
      that ends it rejects it. */
  ghost predicate SettledBy(c: Calls, s: Step, id: nat, how: Settlement) {
    match s
    case Answer(reply, answer) => reply == Some(id) && how == answer
    case WriteFails(failed, reason) => failed == id && how == Rejected(reason)
    case ChildError(reason) => how == Rejected(reason)
    case Exit(code) => code != 0 && how == Rejected("exited")
    case EndShutdown => c.shutdown == Asked && how == Rejected("shutting down")
    case _ => false
  }

  ghost predicate EndsAs(d: Calls, id: nat, how: Settlement) {
    id in d.settled && d.settled[id] == how
  }

  /** An open request ends exactly by such a step, as it says, and otherwise stays open. */
  lemma StepSettles(c: Calls, s: Step, id: nat)
    requires Sound(c) && id in c.pending
    ensures forall how :: EndsAs(Next(c, s), id, how) <==> SettledBy(c, s, id, how)
    ensures id in Next(c, s).pending <==> forall how :: !SettledBy(c, s, id, how)
  {
    var d := Next(c, s);
    StepSound(c, s);
    assert forall how :: EndsAs(d, id, how) <==> SettledBy(c, s, id, how);
    hide SettledBy, Next;
    if id !in d.pending {
      assert SettledBy(c, s, id, d.settled[id]) by { assert EndsAs(d, id, d.settled[id]); }
    } else {
      assert forall how :: !EndsAs(d, id, how);
    }
  }

  /** Step `k` of a run finds the request open and ends it. */
  ghost predicate SettledAt(steps: seq<Step>, k: nat, id: nat, how: Settlement)
    requires k < |steps|
  {
    var c := Run(Disconnected(), steps[..k]);
    id in c.pending && SettledBy(c, steps[k], id, how)
  }

  /** In every run a request has ended as the one step says that found it open. */
  lemma {:induction false} SettledWhy(steps: seq<Step>, id: nat)
    requires id in Run(Disconnected(), steps).settled
    ensures exists k :: 0 <= k < |steps| && SettledAt(steps, k, id, Run(Disconnected(), steps).settled[id])
  {
    var n := |steps| - 1;
    var c, d := Run(Disconnected(), steps[..n]), Run(Disconnected(), steps);
    EveryRequest(Disconnected(), steps[..n]);
    StepSound(c, steps[n]);
    if id in c.settled {
      SettledWhy(steps[..n], id);
      var k :| 0 <= k < n && SettledAt(steps[..n], k, id, c.settled[id]);
      assert steps[..n][..k] == steps[..k];
      assert SettledAt(steps, k, id, d.settled[id]);
    } else {
      NewlySettled(c, steps[n], id);
      StepSettles(c, steps[n], id);
      assert EndsAs(d, id, d.settled[id]);
      assert SettledAt(steps, n, id, d.settled[id]);
    }
  }

  lemma NewlySettled(c: Calls, s: Step, id: nat)
    requires Sound(c) && id !in c.settled && id in Next(c, s).settled
    ensures id in c.pending
  {
  }

  ghost predicate AnsweredAt(steps: seq<Step>, k: nat, id: nat)
    requires k < |steps|
  {
    var settled := Run(Disconnected(), steps).settled;
    id in settled && steps[k] == Answer(Some(id), settled[id])
  }

  /** So one is resolved only if an answer with that result arrived for it while it was open. */
  lemma {:induction false} ResolvedWasAnswered(steps: seq<Step>, id: nat)
    requires id in Run(Disconnected(), steps).settled && Run(Disconnected(), steps).settled[id].Resolved?
    ensures exists k :: 0 <= k < |steps| && id in Run(Disconnected(), steps[..k]).pending && AnsweredAt(steps, k, id)
  {
    SettledWhy(steps, id);
    var k :| 0 <= k < |steps| && SettledAt(steps, k, id, Run(Disconnected(), steps).settled[id]);
    assert AnsweredAt(steps, k, id);
    hide Run;
  }

  /** A connected client gives each request an id of its own and opens it last; one that is
      not connected opens none. */
  lemma RequestOpens(c: Calls)
    requires Sound(c)
    ensures var d := Next(c, Request);
      && d.settled == c.settled && d.connected == c.connected && d.shutdown == c.shutdown
      && (c.connected ==> c.nextId !in c.pending && c.nextId !in c.settled && d.pending == c.pending + [c.nextId])
      && (!c.connected ==> d.pending == c.pending && d.nextId == c.nextId)
  {
  }

  ghost predicate Requests(c: Calls, d: Calls) {
    |d.pending| > |c.pending|
  }

  /** However often and whenever it is shut down, a client makes one last request at most:
      with the first shutdown, if it is connected then. */
  lemma {:induction false} ShutdownAsksOnce(steps: seq<Step>, j: nat, k: nat)
    requires j < k < |steps| && steps[j] == BeginShutdown && steps[k] == BeginShutdown
    ensures Run(Disconnected(), steps[..k + 1]) == Run(Disconnected(), steps[..k])
    ensures Requests(Run(Disconnected(), steps[..j]), Run(Disconnected(), steps[..j + 1])) ==>
      Run(Disconnected(), steps[..j]).connected
  {
    assert steps[..j + 1][..j] == steps[..j] && steps[..k + 1][..k] == steps[..k];
    ShutdownStays(steps, j + 1, k);
  }

  lemma {:induction false} ShutdownStays(steps: seq<Step>, j: nat, k: nat)
    requires j <= k <= |steps| && Run(Disconnected(), steps[..j]).shutdown != NotAsked
    ensures Run(Disconnected(), steps[..k]).shutdown != NotAsked
  {
    if j < k {
      ShutdownStays(steps, j, k - 1);
      assert steps[..k][..k - 1] == steps[..k - 1];
    }
  }

  /** The first shutdown of a connected client asks, and of another is over at once. */
  lemma FirstShutdown(c: Calls)
    requires Sound(c) && c.shutdown == NotAsked
    ensures var d := Next(c, BeginShutdown);
      && d.settled == c.settled
      && (c.connected ==> d.shutdown == Asked && d.pending == c.pending + [c.nextId])
      && (!c.connected ==> d.shutdown == Over && d.pending == c.pending)
  {
  }

  class Client {
    var child: bool
    var shutdown: Shutdown
    var nextId: nat
    var pending: seq<nat>
    /** How the promises have ended. */
    var settled: map<nat, Settlement>

    function State(): Calls
      reads this
    {
      Calls(child, shutdown, nextId, pending, settled)
    }

    ghost predicate Valid()
      reads this
    {
      Sound(State())
    }

    constructor ()
      ensures Valid() && State() == Disconnected()
    {
      child, shutdown, nextId, pending, settled := false, NotAsked, 1, [], map[];
    }

    method Connect()
      requires Valid()
      modifies this`child
      ensures Valid() && State() == Next(old(State()), Step.Connect) && child
    {
      child := true;
    }

    /** Returns the id of the open request, or nothing if it is rejected at once. */
    method Request() returns (id: Option<nat>)
      requires Valid()
      modifies this`nextId, this`pending
      ensures Valid() && State() == Requested(old(State()))
      ensures id == if old(child) then Some(old(nextId)) else None
      ensures id.Some? ==> id.value !in old(pending) && id.value !in settled && pending == old(pending) + [id.value]
    {
      StepSound(State(), Step.Request);
      if !child {
        return None;
      }
      id := Some(nextId);
      nextId := nextId + 1;
      pending := pending + [id.value];
    }

    method FailWrite(id: nat, reason: string)
      requires Valid() && 1 <= id < nextId
      modifies this`pending, this`settled
      ensures Valid() && State() == WriteFailed(old(State()), id, reason)
      ensures id !in pending && id in settled
      ensures id in old(pending) ==> settled == old(settled)[id := Rejected(reason)]
      ensures id !in old(pending) ==> settled == old(settled)
    {
      StepSound(State(), WriteFails(id, reason));
      pending := Without(pending, id);
      settled := Settle(settled, id, Rejected(reason));
    }

    method HandleMessage(id: Option<nat>, answer: Settlement)
      requires Valid()
      modifies this`pending, this`settled
      ensures Valid() && State() == Answered(old(State()), id, answer)
      ensures if id.Some? && id.value in old(pending)
        then id.value !in pending && settled == old(settled)[id.value := answer]
        else pending == old(pending) && settled == old(settled)
    {
      StepSound(State(), Answer(id, answer));
      if id.None? || id.value !in pending {
        return;
      }
      pending := Without(pending, id.value);
      settled := Settle(settled, id.value, answer);
    }

    method RejectAll(reason: string)
      requires Valid()
      modifies this`pending, this`settled
      ensures Valid() && State() == RejectedAll(old(State()), reason)
      ensures AllRejected(old(State()), State(), reason)
    {
      StepSound(State(), ChildError(reason));
      for k := 0 to |pending|
        invariant pending == old(pending)
        invariant settled == SettleAll(old(settled), pending[..k], Rejected(reason))
      {
        assert pending[..k + 1][..k] == pending[..k];
        settled := Settle(settled, pending[k], Rejected(reason));
      }
      assert pending[..|pending|] == pending;
      pending := [];
    }

    method OnExit(code: int)
      requires Valid()
      modifies this`pending, this`settled
      ensures Valid() && State() == Next(old(State()), Exit(code))
      ensures if code != 0 then AllRejected(old(State()), State(), "exited") else State() == old(State())
    {
      if code != 0 {
        RejectAll("exited");
      }
    }

    /** `shutdownOnce`: a last request, whose answer is awaited for a second at most. */
    method BeginShutdown()
      requires Valid()
      modifies this`nextId, this`pending, this`shutdown
      ensures Valid() && State() == Next(old(State()), Step.BeginShutdown)
    {
      if shutdown != NotAsked {
        return;
      }
      shutdown := Over;
      if child {
        var _ := Request();
        shutdown := Asked;
      }
    }

    method EndShutdown()
      requires Valid()
      modifies this`pending, this`settled, this`child, this`shutdown
      ensures Valid() && State() == Next(old(State()), Step.EndShutdown)
      ensures old(shutdown) == Asked ==> AllRejected(old(State()), State(), "shutting down") && !child
    {
      if shutdown == Asked {
        RejectAll("shutting down");
        child, shutdown := false, Over;
      }
    }
  }

  /** Once a shutdown is over nothing is open that was made before it ended. */
  lemma ShutdownSettlesAll(c: Calls)
    requires Sound(c) && c.shutdown == Asked
    ensures var d := Next(c, EndShutdown);
      d.pending == [] && !d.connected && forall id :: 1 <= id < c.nextId ==> id in d.settled
  {
    assert forall id :: 1 <= id < c.nextId ==> id in c.pending || id in c.settled;
  }
}
