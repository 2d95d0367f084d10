/** The registry that keeps a session from being sent the same warning twice in a row. */
module CacheHealthDedup {
  import opened Options

  datatype Call = Call(session: string, request: Option<string>)

  /** The most recent `cap` of `ids`. */
  function Window(cap: int, ids: seq<string>): seq<string> {
    if cap <= 0 then [] else if |ids| <= cap then ids else ids[|ids| - cap..]
  }

  lemma RecentIsInWindow(cap: int, ids: seq<string>, k: nat)
    requires |ids| - cap <= k < |ids|
    ensures ids[k] in Window(cap, ids)
  {
    var start := if |ids| <= cap then 0 else |ids| - cap;
    assert Window(cap, ids)[k - start] == ids[k];
  }

  lemma WindowPush(cap: int, ids: seq<string>, id: string)
    ensures Window(cap, Window(cap, ids) + [id]) == Window(cap, ids + [id])
  {
  }

  /** The ids a session has been sent warnings for: each was not among the last `cap` before it. */
  function Accepted(cap: int, calls: seq<Call>, session: string): seq<string> {
    if calls == [] then []
    else
      var before, call := Accepted(cap, calls[..|calls| - 1], session), calls[|calls| - 1];
      if call.session == session && call.request.Some? && call.request.value !in Window(cap, before)
      then before + [call.request.value]
      else before
  }

  /** Two warnings for the same id have at least `cap` warnings for other ids between them. */
  lemma {:induction false} RepeatsAreFarApart(cap: int, calls: seq<Call>, session: string, i: nat, j: nat)
    requires i < j < |Accepted(cap, calls, session)|
    requires Accepted(cap, calls, session)[i] == Accepted(cap, calls, session)[j]
    ensures j - i > cap
  {
    var n := |calls| - 1;
    var before := Accepted(cap, calls[..n], session);
    if j < |before| {
      RepeatsAreFarApart(cap, calls[..n], session, i, j);
    } else if i >= |before| - cap {
      RecentIsInWindow(cap, before, i);
    }
  }

  lemma WindowAt(cap: int, ids: seq<string>, i: nat)
    requires i < |Window(cap, ids)|
    ensures var start := |ids| - |Window(cap, ids)|;
      start >= 0 && Window(cap, ids)[i] == ids[start + i] && |Window(cap, ids)| <= cap
  {
  }

  /** So the ids remembered for a session are distinct. */
  lemma WindowIsASet(cap: int, calls: seq<Call>, session: string, i: nat, j: nat)
    requires i < j < |Window(cap, Accepted(cap, calls, session))|
    ensures Window(cap, Accepted(cap, calls, session))[i] != Window(cap, Accepted(cap, calls, session))[j]
  {
    hide Window, Accepted;
    var ids := Accepted(cap, calls, session);
    var start := |ids| - |Window(cap, ids)|;
    WindowAt(cap, ids, i);
    WindowAt(cap, ids, j);
    if ids[start + i] == ids[start + j] {
      RepeatsAreFarApart(cap, calls, session, start + i, start + j);
    }
  }

  // ---------------------------------------------------------------- the same without a window

  /** Call `j` was sent a warning for a request of the session. */
  ghost predicate Sent(calls: seq<Call>, emitted: seq<bool>, session: string, j: nat)
    requires j < |calls| == |emitted|
  {
    emitted[j] && calls[j].session == session && calls[j].request.Some?
  }

  /** How many warnings of the session have been sent by call `i` or a later one. */
  ghost function SentSince(calls: seq<Call>, emitted: seq<bool>, session: string, i: nat): nat
    requires |calls| == |emitted|
  {
    if |calls| <= i then 0
    else
      var n := |calls| - 1;
      SentSince(calls[..n], emitted[..n], session, i) + if Sent(calls, emitted, session, n) then 1 else 0
  }

  /** A warning for the request was sent by call `j`, and fewer than `cap` of the session since. */
  ghost predicate RecentlyAt(cap: int, calls: seq<Call>, emitted: seq<bool>, session: string, request: string, j: nat)
    requires j < |calls| == |emitted|
  {
    emitted[j] && calls[j] == Call(session, Some(request)) && SentSince(calls, emitted, session, j + 1) < cap
  }

  ghost predicate Recently(cap: int, calls: seq<Call>, emitted: seq<bool>, session: string, request: string)
    requires |calls| == |emitted|
  {
    exists j :: 0 <= j < |calls| && RecentlyAt(cap, calls, emitted, session, request, j)
  }

  /** The requests that warnings of the session were sent for. */
  ghost function SentIds(calls: seq<Call>, emitted: seq<bool>, session: string): seq<string>
    requires |calls| == |emitted|
  {
    if calls == [] then []
    else
      var n := |calls| - 1;
      SentIds(calls[..n], emitted[..n], session) + if Sent(calls, emitted, session, n) then [calls[n].request.value] else []
  }

  lemma InLongerWindow(cap: int, ids: seq<string>, x: string, id: string)
    ensures id in Window(cap, ids + [x]) <==> cap > 0 && (id == x || id in Window(cap - 1, ids))
  {
    var longer := ids + [x];
    if cap > 0 {
      var w, v := Window(cap, longer), Window(cap - 1, ids);
      assert w == v + [x];
    }
  }

  lemma RecentlyNext(cap: int, calls: seq<Call>, emitted: seq<bool>, session: string, request: string)
    requires |calls| == |emitted| > 0
    ensures var n := |calls| - 1; var sent := Sent(calls, emitted, session, n);
      Recently(cap, calls, emitted, session, request) <==>
        || (sent && calls[n].request == Some(request) && cap > 0)
        || Recently(if sent then cap - 1 else cap, calls[..n], emitted[..n], session, request)
  {
    var n := |calls| - 1;
    var sent := Sent(calls, emitted, session, n);
    var less := if sent then cap - 1 else cap;
    forall j | 0 <= j < n
      ensures RecentlyAt(cap, calls, emitted, session, request, j)
        <==> RecentlyAt(less, calls[..n], emitted[..n], session, request, j)
    {
    }
    assert RecentlyAt(cap, calls, emitted, session, request, n)
      <==> sent && calls[n].request == Some(request) && cap > 0;
  }

  /** The window holds exactly the requests of the session that a warning was sent for recently. */
  lemma {:induction false} WindowIsRecent(cap: int, calls: seq<Call>, emitted: seq<bool>, session: string,
        request: string)
    requires |calls| == |emitted|
    ensures request in Window(cap, SentIds(calls, emitted, session)) <==> Recently(cap, calls, emitted, session, request)
    decreases |calls|
  {
    if calls != [] {
      var n := |calls| - 1;
      var sent, ids := Sent(calls, emitted, session, n), SentIds(calls[..n], emitted[..n], session);
      WindowIsRecent(if sent then cap - 1 else cap, calls[..n], emitted[..n], session, request);
      RecentlyNext(cap, calls, emitted, session, request);
      assert ids + [] == ids;
      if sent {
        InLongerWindow(cap, ids, calls[n].request.value, request);
      }
      hide Window, Recently;
    }
  }

  lemma AnsweredNext(cap: int, calls: seq<Call>, emitted: seq<bool>, session: string, request: Option<string>,
        emit: bool)
    requires |calls| == |emitted| && forall s :: Accepted(cap, calls, s) == SentIds(calls, emitted, s)
    requires emit == (request.None? || request.value !in Window(cap, Accepted(cap, calls, session)))
    ensures var longer, answered := calls + [Call(session, request)], emitted + [emit];
      forall s ::
        && Accepted(cap, longer, s) == SentIds(longer, answered, s)
        && Accepted(cap, longer, s) ==
          if s == session && request.Some? && emit then Accepted(cap, calls, s) + [request.value] else Accepted(cap, calls, s)
  {
    var longer, answered := calls + [Call(session, request)], emitted + [emit];
    assert longer[..|calls|] == calls && answered[..|calls|] == emitted;
    hide Window;
    forall s
      ensures Accepted(cap, longer, s) == SentIds(longer, answered, s)
      ensures Accepted(cap, longer, s) ==
        if s == session && request.Some? && emit then Accepted(cap, calls, s) + [request.value] else Accepted(cap, calls, s)
    {
      assert SentIds(calls, emitted, s) + [] == SentIds(calls, emitted, s);
    }
  }

  class Registry {
    const maxEntriesPerSession: int
    var seen: map<string, seq<string>>
    ghost var calls: seq<Call>
    /** What the calls have been answered. */
    ghost var emitted: seq<bool>

    /** A set in the order of insertion; a session without one has seen nothing. */
    function Seen(session: string): seq<string>
      reads this
    {
      if session in seen then seen[session] else []
    }

    ghost predicate Valid()
      reads this
    {
      && (forall s :: Seen(s) == Window(maxEntriesPerSession, Accepted(maxEntriesPerSession, calls, s)))
      && |emitted| == |calls| && forall s :: Accepted(maxEntriesPerSession, calls, s) == SentIds(calls, emitted, s)
    }

    constructor (maxEntriesPerSession: int)
      ensures Valid() && calls == [] && this.maxEntriesPerSession == maxEntriesPerSession
    {
      this.maxEntriesPerSession := maxEntriesPerSession;
      seen, calls, emitted := map[], [], [];
    }

    method ShouldEmit(session: string, request: Option<string>) returns (emit: bool)
      requires Valid()
      modifies this
      ensures Valid() && calls == old(calls) + [Call(session, request)]
      ensures emit == (request.None? ||
        request.value !in Window(maxEntriesPerSession, Accepted(maxEntriesPerSession, old(calls), session)))
      ensures emitted == old(emitted) + [emit]
      ensures emit == (request.None? ||
        !Recently(maxEntriesPerSession, old(calls), old(emitted), session, request.value))
    {
      ghost var cap, was := maxEntriesPerSession, calls;
      ghost var longer, refused := was + [Call(session, request)], false;
      assert longer[..|was|] == was;
      if request.Some? {
        WindowIsRecent(cap, was, emitted, session, request.value);
        refused := request.value in Window(cap, Accepted(cap, was, session));
      }
      AnsweredNext(cap, was, emitted, session, request, !refused);
      calls, emitted := longer, emitted + [!refused];
      hide Recently, RecentlyAt, SentIds, SentSince, Accepted;
      if request.None? {
        return true;
      }
      var id, ids := request.value, Seen(session);
      if id in ids {
        return false;
      }
      WindowPush(cap, Accepted(cap, was, session), id);
      hide Window;
      ids := Evict(ids + [id]);
      seen := seen[session := ids];
      emit := true;
    }

    /** Drop the oldest while there are too many. */
    method Evict(remembered: seq<string>) returns (ids: seq<string>)
      ensures ids == Window(maxEntriesPerSession, remembered)
    {
      ids := remembered;
      while |ids| > maxEntriesPerSession
        invariant |Window(maxEntriesPerSession, remembered)| <= |ids| <= |remembered| && ids == remembered[|remembered| - |ids|..]
      {
        if ids == [] {
          break;
        }
        ids := ids[1..];
      }
    }

    method Reset()
      modifies this
      ensures Valid() && calls == []
    {
      seen, calls, emitted := map[], [], [];
    }
  }
}
