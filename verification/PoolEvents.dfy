/** What each event of the connection pool does to requests and connections, and that a
    closed connection is gone for good (http/connection_pool.cc). */
module PoolEvents {

  import opened Elements
  import opened ConnectionPool

  // ---- The connections the pool knows ------------------------------------------------------

  ghost function Members(p: Pool): set<Conn> {
    Elems(p.idle) + Elems(p.busy) + Elems(p.connecting) + p.pending.Keys + p.callback.Keys
  }

  /** The pool has let go of the connection. */
  ghost predicate Gone(p: Pool, c: Conn) {
    c < p.created && c !in Members(p)
  }

  /** From `p` to `q` the only new connections are newly created ones. */
  ghost predicate OnlyNew(p: Pool, q: Pool) {
    p.created <= q.created && forall c :: c in Members(q) ==> c in Members(p) || p.created <= c
  }

  lemma OnlyNewTwice(p: Pool, q: Pool, r: Pool)
    requires OnlyNew(p, q) && OnlyNew(q, r)
    ensures OnlyNew(p, r)
  {
    hide Members;
  }

  lemma {:induction false} RemoveTakes(v: seq<Conn>, c: Conn)
    ensures Elems(Remove(v, c)) <= Elems(v)
    decreases |v|
  {
    if v != [] {
      RemoveTakes(v[1..], c);
      assert v == [v[0]] + v[1..];
      AddFirst(v[0], v[1..]);
      AddFirst(v[0], Remove(v[1..], c));
    }
  }

  lemma {:induction false} KeepTakes(v: seq<Conn>, stale: set<Conn>)
    ensures Elems(Keep(v, stale)) <= Elems(v)
    decreases |v|
  {
    if v != [] {
      KeepTakes(v[1..], stale);
      assert v == [v[0]] + v[1..];
      AddFirst(v[0], v[1..]);
      AddFirst(v[0], Keep(v[1..], stale));
    }
  }

  lemma ReuseOnlyNew(p: Pool, r: Req)
    requires p.idle != []
    ensures OnlyNew(p, Reuse(p, r))
  {
    hide Elems;
    var rest, c := p.idle[..|p.idle| - 1], p.idle[|p.idle| - 1];
    assert p.idle == rest + [c];
    AddLast(rest, c);
    AddLast(p.busy, c);
  }

  lemma OpenOnlyNew(p: Pool, r: Req)
    ensures OnlyNew(p, Open(p, r))
  {
    hide Elems;
    AddLast(p.connecting, p.created);
  }

  lemma DispatchOnlyNew(p: Pool, r: Req)
    ensures OnlyNew(p, Dispatch(p, r))
  {
    hide Total, Elems, Reuse, Open;
    if p.idle != [] {
      ReuseOnlyNew(p, r);
    } else {
      OpenOnlyNew(p, r);
    }
  }

  lemma SubmitOnlyNew(p: Pool)
    ensures OnlyNew(p, Submit(p))
  {
    hide Dispatch, Elems;
    DispatchOnlyNew(Arrive(p), p.submitted);
  }

  lemma {:induction false} SubmitManyOnlyNew(p: Pool, n: nat)
    ensures OnlyNew(p, SubmitMany(p, n))
    decreases n
  {
    hide Submit, Members;
    if n > 0 {
      SubmitOnlyNew(p);
      SubmitManyOnlyNew(Submit(p), n - 1);
      OnlyNewTwice(p, Submit(p), SubmitMany(p, n));
    }
  }

  lemma CompleteOnlyNew(p: Pool, q: Pool, r: Req, e: Ending, n: nat)
    requires OnlyNew(p, q)
    ensures OnlyNew(p, Complete(q, r, e, n))
  {
    hide SubmitMany, Elems;
    var q1 := RunCallback(q, r, e);
    assert Members(q1) == Members(q);
    SubmitManyOnlyNew(q1, n);
    OnlyNewTwice(p, q1, SubmitMany(q1, n));
  }

  lemma ReadyOnlyNew(p: Pool, c: Conn)
    requires c in Members(p)
    ensures OnlyNew(p, OnReady(p, c))
  {
    hide Elems, Remove;
    RemoveTakes(p.connecting, c);
    AddLast(p.busy, c);
    AddLast(p.idle, c);
  }

  lemma FreeOnlyNew(p: Pool, q: Pool, c: Conn)
    requires c in Members(p) && OnlyNew(p, q)
    ensures OnlyNew(p, OnFree(q, c))
  {
    hide Elems, Remove;
    RemoveTakes(q.busy, c);
    AddLast(Remove(q.busy, c), c);
    AddLast(q.idle, c);
  }

  lemma ClosedOnlyNew(p: Pool, c: Conn)
    ensures OnlyNew(p, OnClosed(p, c))
  {
    hide Elems, Remove, Total;
    RemoveTakes(p.idle, c);
    RemoveTakes(p.busy, c);
    RemoveTakes(p.connecting, c);
    AddLast(Remove(p.connecting, c), p.created);
  }

  lemma TakeOnlyNew(p: Pool, c: Conn, busyFlag: set<Conn>, doneFlag: set<Conn>)
    ensures OnlyNew(p, Take(p.(busyFlag := busyFlag, doneFlag := doneFlag), c))
  {
    hide Elems;
  }

  lemma DisconnectOnlyNew(p: Pool, c: Conn, eofBody: bool, n: nat)
    ensures OnlyNew(p, OnDisconnect(p, c, eofBody, n))
  {
    hide Complete, OnClosed, Take, Members;
    var q := Take(p.(busyFlag := p.busyFlag - {c}, doneFlag := p.doneFlag + {c}), c);
    TakeOnlyNew(p, c, p.busyFlag - {c}, p.doneFlag + {c});
    ClosedOnlyNew(p, c);
    ClosedOnlyNew(q, c);
    OnlyNewTwice(p, q, OnClosed(q, c));
    if c in p.callback {
      var e := if eofBody then DeliveredAtEof else ClosedEarly;
      var q1 := Complete(q, p.callback[c], e, n);
      CompleteOnlyNew(p, q, p.callback[c], e, n);
      ClosedOnlyNew(q1, c);
      OnlyNewTwice(p, q1, OnClosed(q1, c));
    }
  }

  lemma {:induction false} DispatchAllOnlyNew(p: Pool, rs: seq<Req>)
    ensures OnlyNew(p, DispatchAll(p, rs))
    decreases |rs|
  {
    hide Dispatch, Members;
    if rs != [] {
      DispatchOnlyNew(p, rs[0]);
      DispatchAllOnlyNew(Dispatch(p, rs[0]), rs[1..]);
      OnlyNewTwice(p, Dispatch(p, rs[0]), DispatchAll(p, rs));
    }
  }

  lemma {:induction false} FailAllOnlyNew(p: Pool, rs: seq<Req>, ns: seq<nat>)
    requires |ns| == |rs|
    ensures OnlyNew(p, FailAll(p, rs, ns))
    decreases |rs|
  {
    hide Complete, Members;
    if rs != [] {
      var q := Complete(p, rs[0], DnsFailed, ns[0]);
      CompleteOnlyNew(p, p, rs[0], DnsFailed, ns[0]);
      FailAllOnlyNew(q, rs[1..], ns[1..]);
      OnlyNewTwice(p, q, FailAll(q, rs[1..], ns[1..]));
    }
  }

  lemma ResolvedOnlyNew(p: Pool, ok: bool, ns: seq<nat>)
    requires |ns| == |p.waiting|
    ensures OnlyNew(p, OnResolved(p, ok, ns))
  {
    hide DispatchAll, FailAll, Elems;
    var q := TakeAll(p).(resolved := true);
    assert Members(q) == Members(p) == Members(TakeAll(p));
    DispatchAllOnlyNew(q, p.waiting);
    FailAllOnlyNew(TakeAll(p), p.waiting, ns);
  }

  lemma StepOnlyNew(p: Pool, e: Event)
    requires Enabled(p, e)
    ensures OnlyNew(p, Apply(p, e))
  {
    hide Submit, OnResolved, OnReady, OnDisconnect, OnFree, Complete, OnlyNew, Elems, Take;
    match e
    case Request => SubmitOnlyNew(p);
    case Resolved(ok, ns) => ResolvedOnlyNew(p, ok, ns);
    case Ready(c) => ReadyOnlyNew(p, c);
    case Response(c, keepAlive, n) =>
      var q := Take(p.(busyFlag := p.busyFlag - {c}, doneFlag := p.doneFlag + {c}), c);
      TakeOnlyNew(p, c, p.busyFlag - {c}, p.doneFlag + {c});
      FreeOnlyNew(p, q, c);
      CompleteOnlyNew(p, if keepAlive then OnFree(q, c) else q, p.callback[c], Delivered, n);
    case Malformed(c, n) =>
      TakeOnlyNew(p, c, p.busyFlag, p.doneFlag);
      CompleteOnlyNew(p, Take(p, c), p.callback[c], MalformedResponse, n);
    case Closed(c, eofBody, n) => DisconnectOnlyNew(p, c, eofBody, n);
    case Evict(stale) => EvictOnlyNew(p, stale);
  }

  lemma EvictOnlyNew(p: Pool, stale: set<Conn>)
    ensures OnlyNew(p, OnEvict(p, stale))
  {
    hide Elems, Keep;
    KeepTakes(p.idle, stale);
  }

  // ---- A closed connection ------------------------------------------------------------------

  lemma {:induction false} RemoveIsKeep(v: seq<Conn>, c: Conn)
    requires Distinct(v)
    ensures Remove(v, c) == Keep(v, {c})
    decreases |v|
  {
    if v != [] {
      FirstAndRest(v);
      if v[0] == c {
        KeepAll(v[1..], {c});
      } else {
        RemoveIsKeep(v[1..], c);
      }
    }
  }

  lemma {:induction false} KeepAll(v: seq<Conn>, stale: set<Conn>)
    requires Elems(v) !! stale
    ensures Keep(v, stale) == v
    decreases |v|
  {
    if v != [] {
      assert v[0] in Elems(v) && Elems(v[1..]) <= Elems(v);
      KeepAll(v[1..], stale);
    }
  }

  /** The close in two parts: the callback of the unanswered request, which makes its
      submissions, and then the removal. */
  lemma DisconnectParts(p: Pool, c: Conn, eofBody: bool, n: nat) returns (before: Pool, after: Pool)
    requires Inv(p) && c !in Elems(p.connecting) && c < p.created
    ensures before.idle == p.idle && before.busy == p.busy && before.connecting == p.connecting && before.queue == p.queue
    ensures before.created == p.created
    ensures after == SubmitMany(before, if c in p.callback then n else 0)
    ensures Inv(after) && c !in after.callback && c !in Elems(after.connecting) && c < after.created
    ensures OnDisconnect(p, c, eofBody, n) == OnClosed(after, c)
  {
    hide Ok, Elems, SubmitMany, OnClosed;
    HeldFlags(p, c);
    var q := p.(busyFlag := p.busyFlag - {c}, doneFlag := p.doneFlag + {c});
    if c in p.callback {
      var r := p.callback[c];
      var e := if eofBody then DeliveredAtEof else ClosedEarly;
      TakeKeeps(p, c, p.busyFlag - {c}, p.doneFlag + {c});
      CompleteKeeps(Take(q, c), {r}, r, e, n);
      CompleteSpares(Take(q, c), {r}, r, e, n, c);
      OnlyOne(r);
      before := RunCallback(Take(q, c), r, e);
      after := SubmitMany(before, n);
      SubmitManyOnlyNew(before, n);
      BusyIsApart(after, c);
    } else {
      before := if c in p.busyFlag && c !in p.doneFlag then q else p;
      after := before;
      assert SubmitMany(before, 0) == before by { SubmitNone(before); }
    }
  }

  lemma SubmitNone(p: Pool)
    ensures SubmitMany(p, 0) == p
  {
  }

  lemma BusyIsApart(p: Pool, c: Conn)
    requires Inv(p) && c in Elems(p.busy)
    ensures c !in Elems(p.connecting)
  {
    hide Elems;
  }

  /** What the removal leaves: every list without the connection, in its order, and one
      new connection for the head of the queue if a connection was freed for it. */
  lemma ClosedLists(p: Pool, c: Conn)
    requires Inv(p) && c !in p.callback && c < p.created
    ensures var q := OnClosed(p, c);
            var refill := p.queue != [] && c in Elems(p.idle) + Elems(p.busy) + Elems(p.connecting);
            && q.idle == Keep(p.idle, {c}) && q.busy == Keep(p.busy, {c})
            && q.connecting == Keep(p.connecting, {c}) + (if refill then [p.created] else [])
            && q.pending == (if refill then (p.pending - {c})[p.created := p.queue[0]] else p.pending - {c})
            && q.queue == (if refill then p.queue[1..] else p.queue)
            && q.callback == p.callback && Gone(q, c)
  {
    hide Elems, Distinct, Fifo, PlacesOk, Remove, Keep;
    RemoveIsKeep(p.idle, c);
    RemoveIsKeep(p.busy, c);
    RemoveIsKeep(p.connecting, c);
    RemoveElems(p.idle, c);
    RemoveElems(p.busy, c);
    RemoveElems(p.connecting, c);
    AddLast(Remove(p.connecting, c), p.created);
    assert Keep(p.connecting, {c}) + [] == Keep(p.connecting, {c});
  }

  /** After a close the pool has let go of the connection: it is in no list and carries
      no request. */
  lemma ClosedIsGone(p: Pool, c: Conn, eofBody: bool, n: nat)
    requires Inv(p) && c !in Elems(p.connecting) && c < p.created
    ensures Gone(OnDisconnect(p, c, eofBody, n), c)
  {
    hide Ok, Elems, OnDisconnect, OnClosed, Gone;
    var before, after := DisconnectParts(p, c, eofBody, n);
    ClosedLists(after, c);
  }

  /** The other connections stay in their lists, in order, apart from what the callback's
      submissions and the one replacement do. */
  lemma ClosedKeepsOthers(p: Pool, c: Conn, eofBody: bool, n: nat) returns (before: Pool, after: Pool)
    requires Inv(p) && c !in Elems(p.connecting) && c < p.created
    ensures before.idle == p.idle && before.busy == p.busy && before.connecting == p.connecting && before.queue == p.queue
    ensures before.created == p.created && after == SubmitMany(before, if c in p.callback then n else 0)
    ensures var q := OnDisconnect(p, c, eofBody, n);
            var refill := after.queue != [] && c in Elems(after.idle) + Elems(after.busy);
            && q.idle == Keep(after.idle, {c}) && q.busy == Keep(after.busy, {c})
            && q.connecting == after.connecting + (if refill then [after.created] else [])
            && q.queue == (if refill then after.queue[1..] else after.queue)
            && q.callback == after.callback
  {
    hide Ok, Elems, OnDisconnect, OnClosed, Gone, SubmitMany, Keep;
    before, after := DisconnectParts(p, c, eofBody, n);
    ClosedLists(after, c);
    KeepAll(after.connecting, {c});
  }

  /** A connection that is gone stays gone, whatever happens, and no request is ever
      pending or in flight on it again. */
  lemma {:induction false} GoneForGood(p: Pool, es: seq<Event>, q: Pool, c: Conn)
    requires Inv(p) && Run(p, es, q) && Gone(p, c)
    ensures Inv(q) && Gone(q, c)
    ensures forall r :: r in q.place ==> q.place[r] != PendingOn(c) && q.place[r] != InFlight(c)
    decreases |es|
  {
    hide Ok, Members, Elems;
    hide Submit, OnResolved, OnReady, OnResponse, OnMalformed, OnDisconnect, OnEvict;
    if es == [] {
      GonePlaces(p, c);
    } else {
      StepKeeps(p, es[0]);
      StepOnlyNew(p, es[0]);
      GoneForGood(Apply(p, es[0]), es[1..], q, c);
    }
  }

  lemma GonePlaces(p: Pool, c: Conn)
    requires Inv(p) && Gone(p, c)
    ensures forall r :: r in p.place ==> p.place[r] != PendingOn(c) && p.place[r] != InFlight(c)
  {
    hide Elems;
    forall r | r in p.place
      ensures p.place[r] != PendingOn(c) && p.place[r] != InFlight(c)
    {
      OnePlace(p, r);
    }
  }

  // ---- Where requests go ----------------------------------------------------------------------

  /** A submitted request gets a number and goes to the connection that became idle last,
      to a new connection below the cap, or to the back of the queue; before the name is
      resolved it is parked.  No other request moves. */
  lemma RequestGoes(p: Pool)
    requires Inv(p)
    ensures var q, r := Submit(p), p.submitted;
            && q.submitted == r + 1 && r in q.place
            && (forall s :: s in p.place ==> s in q.place && q.place[s] == p.place[s])
            && (if !p.resolved then q.place[r] == AtDns && q.waiting == p.waiting + [r] && q.resolving
                else if p.idle != [] then q.place[r] == InFlight(p.idle[|p.idle| - 1])
                else if Total(p) < p.cap then q.place[r] == PendingOn(p.created) && q.created == p.created + 1
                else q.place[r] == Queued && q.queue == p.queue + [r])
  {
    hide Elems, ConnsOk, QueueOk, Fifo, PlacesOk;
    SubmitMovesNone(p, {});
  }

  lemma {:induction false} SubmissionsMoveNone(p: Pool, taken: set<Req>, n: nat)
    requires Ok(p, taken)
    ensures forall s :: s in p.place ==> s in SubmitMany(p, n).place && SubmitMany(p, n).place[s] == p.place[s]
    decreases n
  {
    hide Ok, Submit;
    if n > 0 {
      SubmitMovesNone(p, taken);
      SubmitKeeps(p, taken);
      SubmissionsMoveNone(Submit(p), taken, n - 1);
    }
  }

  lemma SubmitMovesNone(p: Pool, taken: set<Req>)
    requires Ok(p, taken)
    ensures forall s :: s in p.place ==> s in Submit(p).place && Submit(p).place[s] == p.place[s]
  {
    hide Elems, ConnsOk, QueueOk, Fifo, Holds, PendingMatch, FlightMatch, Fired, FiredOnce, Total;
  }

  /** At work or idle. */
  ghost predicate InUse(p: Pool, c: Conn) {
    c in Elems(p.idle) || c in p.callback
  }

  lemma {:induction false} SubmissionsKeepInUse(p: Pool, n: nat, c: Conn)
    requires InUse(p, c)
    ensures InUse(SubmitMany(p, n), c)
    decreases n
  {
    hide Submit, Elems;
    if n > 0 {
      assert InUse(Submit(p), c) by { SubmitKeepsInUse(p, c); }
      SubmissionsKeepInUse(Submit(p), n - 1, c);
    }
  }

  lemma SubmitKeepsInUse(p: Pool, c: Conn)
    requires InUse(p, c)
    ensures InUse(Submit(p), c)
  {
    hide Total;
    if p.idle != [] {
      assert p.idle == p.idle[..|p.idle| - 1] + [p.idle[|p.idle| - 1]];
      AddLast(p.idle[..|p.idle| - 1], p.idle[|p.idle| - 1]);
    }
  }

  /** A connection that is ready starts the request that waited for it. */
  lemma ReadyStarts(p: Pool, c: Conn)
    requires Inv(p) && c in Elems(p.connecting)
    ensures var q := OnReady(p, c);
            && c in p.pending && q.place == p.place[p.pending[c] := InFlight(c)]
            && q.busy == p.busy + [c] && q.connecting == Keep(p.connecting, {c}) && q.idle == p.idle
  {
    hide Elems, Distinct, QueueOk, Fifo, PlacesOk, Remove, Keep;
    RemoveIsKeep(p.connecting, c);
  }

  lemma FreeServes(p: Pool, c: Conn)
    ensures var q := OnFree(p, c);
            && InUse(q, c)
            && (p.queue != [] ==> q.place == p.place[p.queue[0] := InFlight(c)] && q.queue == p.queue[1..])
            && (p.queue == [] ==> q.place == p.place && q.idle == p.idle + [c])
  {
    hide Remove, Elems;
    AddLast(p.idle, c);
  }

  /** A complete response ends its request.  A connection kept alive is then idle or at
      work again, with the head of the queue if anything waited; one that is not kept
      alive carries nothing until it closes. */
  lemma ResponseFrees(p: Pool, c: Conn, keepAlive: bool, n: nat)
    requires Inv(p) && c in p.callback
    ensures var q, r := OnResponse(p, c, keepAlive, n), p.callback[c];
            && r in q.place && q.place[r] == Done
            && (keepAlive ==> InUse(q, c))
            && (keepAlive && p.queue != [] ==> p.queue[0] in q.place && q.place[p.queue[0]] == InFlight(c))
            && (!keepAlive ==> c in Elems(q.busy) && c !in q.callback)
  {
    hide Ok, Elems, OnFree, SubmitMany;
    var r := p.callback[c];
    TakeKeeps(p, c, p.busyFlag - {c}, p.doneFlag + {c});
    var q := Take(p.(busyFlag := p.busyFlag - {c}, doneFlag := p.doneFlag + {c}), c);
    BusyMeansResolved(q, {r}, c);
    FreeServes(q, c);
    if keepAlive { OnFreeKeeps(q, {r}, c); }
    var q1 := if keepAlive then OnFree(q, c) else q;
    RunCallbackKeeps(q1, {r}, r, Delivered);
    var q2 := RunCallback(q1, r, Delivered);
    SubmissionsMoveNone(q2, {r} - {r}, n);
    if keepAlive {
      SubmissionsKeepInUse(q2, n, c);
      if p.queue != [] { QueuedIsElsewhere(p, c); }
    } else {
      CompleteSpares(q, {r}, r, Delivered, n, c);
    }
  }

  lemma QueuedIsElsewhere(p: Pool, c: Conn)
    requires Inv(p) && c in p.callback && p.queue != []
    ensures p.queue[0] != p.callback[c]
  {
    assert p.queue[0] in Elems(p.queue);
    OnePlace(p, p.queue[0]);
  }

  /** Bytes that do not parse end the request; the connection carries nothing until it
      closes. */
  lemma MalformedWaitsForClose(p: Pool, c: Conn, n: nat)
    requires Inv(p) && c in p.callback
    ensures var q := OnMalformed(p, c, n); c in Elems(q.busy) && c !in q.callback
  {
    hide Ok, Elems, Complete;
    var r := p.callback[c];
    TakeKeeps(p, c, p.busyFlag, p.doneFlag);
    CompleteSpares(Take(p, c), {r}, r, MalformedResponse, n, c);
  }

  lemma {:induction false} DispatchAllResolved(p: Pool, rs: seq<Req>)
    ensures DispatchAll(p, rs).resolved == p.resolved
    decreases |rs|
  {
    if rs != [] { DispatchAllResolved(Dispatch(p, rs[0]), rs[1..]); }
  }

  lemma {:induction false} SubmitManyResolved(p: Pool, n: nat)
    ensures SubmitMany(p, n).resolved == p.resolved
    decreases n
  {
    if n > 0 { SubmitManyResolved(Submit(p), n - 1); }
  }

  lemma {:induction false} FailAllResolved(p: Pool, rs: seq<Req>, ns: seq<nat>)
    requires |ns| == |rs|
    ensures FailAll(p, rs, ns).resolved == p.resolved
    decreases |rs|
  {
    hide SubmitMany;
    if rs != [] {
      SubmitManyResolved(RunCallback(p, rs[0], DnsFailed), ns[0]);
      FailAllResolved(Complete(p, rs[0], DnsFailed, ns[0]), rs[1..], ns[1..]);
    }
  }

  /** The answer to a lookup is remembered if it succeeded, and nothing that was parked
      stays parked: it is dispatched, or it has failed. */
  lemma ResolvedUnparks(p: Pool, ok: bool, ns: seq<nat>)
    requires Inv(p) && p.resolving && |ns| == |p.waiting|
    ensures var q := OnResolved(p, ok, ns);
            && q.resolved == ok
            && (forall r :: r in Elems(p.waiting) ==> r in q.place && q.place[r] != AtDns && (!ok ==> q.place[r] == Done))
  {
    hide OnResolved, Elems, Fired;
    var q := OnResolved(p, ok, ns);
    assert q.resolved == ok by { OutcomeRemembered(p, ok, ns); }
    OnResolvedKeeps(p, ok, ns);
    if ok {
      EmptyElems<Req>();
      forall r | r in Elems(p.waiting)
        ensures r in q.place && q.place[r] != AtDns
      {
        OnePlace(p, r);
        OnePlace(q, r);
        assert q.submitted >= p.submitted by { ResolvedCounts(p, ns); }
      }
    } else {
      StepTells(p, Resolved(ok, ns));
      forall r | r in Elems(p.waiting)
        ensures r in q.place && q.place[r] == Done
      {
        FailureIsTold(p, r);
        FiredGrows(p.completed, Failures(p.waiting), r);
        OnePlace(q, r);
      }
    }
  }

  lemma OutcomeRemembered(p: Pool, ok: bool, ns: seq<nat>)
    requires Inv(p) && p.resolving && |ns| == |p.waiting|
    ensures OnResolved(p, ok, ns).resolved == ok
  {
    hide DispatchAll, FailAll, ConnsOk, Fifo, PlacesOk;
    DispatchAllResolved(TakeAll(p).(resolved := true), p.waiting);
    FailAllResolved(TakeAll(p), p.waiting, ns);
  }

  lemma {:induction false} DispatchAllCounts(p: Pool, rs: seq<Req>)
    ensures DispatchAll(p, rs).submitted == p.submitted
    decreases |rs|
  {
    if rs != [] { DispatchAllCounts(Dispatch(p, rs[0]), rs[1..]); }
  }

  lemma ResolvedCounts(p: Pool, ns: seq<nat>)
    requires |ns| == |p.waiting|
    ensures OnResolved(p, true, ns).submitted == p.submitted
  {
    hide DispatchAll;
    DispatchAllCounts(TakeAll(p).(resolved := true), p.waiting);
  }

  lemma FailureIsTold(p: Pool, r: Req)
    requires r in Elems(p.waiting)
    ensures (r, DnsFailed) in Failures(p.waiting)
  {
    var i :| 0 <= i < |p.waiting| && p.waiting[i] == r;
    assert Failures(p.waiting)[i] == (r, DnsFailed);
  }

  lemma FiredGrows(before: seq<(Req, Ending)>, more: seq<(Req, Ending)>, r: Req)
    requires (r, DnsFailed) in more
    ensures r in Fired(before + more)
  {
    var i :| 0 <= i < |more| && more[i] == (r, DnsFailed);
    assert (before + more)[|before| + i].0 == r;
  }

  function Sum(ns: seq<nat>): nat {
    if ns == [] then 0 else ns[0] + Sum(ns[1..])
  }

  /** How many requests are submitted in the course of an event. */
  function Submissions(p: Pool, e: Event): nat {
    match e
    case Request => 1
    case Resolved(ok, ns) => if ok then 0 else Sum(ns)
    case Response(_, _, n) => n
    case Malformed(_, n) => n
    case Closed(c, _, n) => if c in p.callback then n else 0
    case _ => 0
  }

  lemma {:induction false} SubmitManyCounts(p: Pool, n: nat)
    ensures SubmitMany(p, n).submitted == p.submitted + n as Req
    decreases n
  {
    if n > 0 {
      SubmitManyCounts(Submit(p), n - 1);
    }
  }

  lemma {:induction false} FailAllCounts(p: Pool, rs: seq<Req>, ns: seq<nat>)
    requires |ns| == |rs|
    ensures FailAll(p, rs, ns).submitted == p.submitted + Sum(ns) as Req
    decreases |rs|
  {
    hide SubmitMany;
    if rs != [] {
      SubmitManyCounts(RunCallback(p, rs[0], DnsFailed), ns[0]);
      FailAllCounts(Complete(p, rs[0], DnsFailed, ns[0]), rs[1..], ns[1..]);
    }
  }

  lemma ReadyCountsNone(p: Pool, c: Conn)
    ensures OnReady(p, c).submitted == p.submitted
  {
    hide Remove;
  }

  lemma FreeCountsNone(p: Pool, c: Conn)
    ensures OnFree(p, c).submitted == p.submitted
  {
    hide Remove;
  }

  lemma CloseCountsNone(p: Pool, c: Conn)
    ensures OnClosed(p, c).submitted == p.submitted
  {
    hide Remove, Total;
  }

  /** Every submission, by the user or from a callback, gets its number. */
  lemma StepCounts(p: Pool, e: Event)
    requires Inv(p) && Enabled(p, e)
    ensures Apply(p, e).submitted == p.submitted + Submissions(p, e) as Req
  {
    hide Ok, Elems, SubmitMany, DispatchAll, FailAll, OnReady, OnFree, OnClosed, OnEvict, Sum;
    match e
    case Request =>
    case Resolved(ok, ns) =>
      DispatchAllCounts(TakeAll(p).(resolved := true), p.waiting);
      FailAllCounts(TakeAll(p), p.waiting, ns);
    case Ready(c) => ReadyCountsNone(p, c);
    case Response(c, keepAlive, n) =>
      var q := Take(p.(busyFlag := p.busyFlag - {c}, doneFlag := p.doneFlag + {c}), c);
      FreeCountsNone(q, c);
      SubmitManyCounts(RunCallback(if keepAlive then OnFree(q, c) else q, p.callback[c], Delivered), n);
    case Malformed(c, n) => SubmitManyCounts(RunCallback(Take(p, c), p.callback[c], MalformedResponse), n);
    case Closed(c, eofBody, n) => ClosedCounts(p, c, eofBody, n);
    case Evict(stale) => EvictTakes(p, stale);
  }

  lemma ClosedCounts(p: Pool, c: Conn, eofBody: bool, n: nat)
    requires Inv(p)
    ensures OnDisconnect(p, c, eofBody, n).submitted == p.submitted + (if c in p.callback then n else 0) as Req
  {
    hide Ok, Elems, SubmitMany, OnClosed;
    HeldFlags(p, c);
    var q := Take(p.(busyFlag := p.busyFlag - {c}, doneFlag := p.doneFlag + {c}), c);
    CloseCountsNone(p, c);
    CloseCountsNone(q, c);
    if c in p.callback {
      var q1 := RunCallback(q, p.callback[c], if eofBody then DeliveredAtEof else ClosedEarly);
      SubmitManyCounts(q1, n);
      CloseCountsNone(SubmitMany(q1, n), c);
    }
  }

  /** Eviction takes exactly the stale connections off the idle list, and touches nothing
      else. */
  lemma EvictTakes(p: Pool, stale: set<Conn>)
    requires Inv(p)
    ensures var q := OnEvict(p, stale); Elems(q.idle) == Elems(p.idle) - stale && q == p.(idle := q.idle)
  {
    hide Elems, Distinct, QueueOk, Fifo, PlacesOk, Keep;
    KeepElems(p.idle, stale);
  }

  // ---- First come, first served ------------------------------------------------------------------

  /** Whatever a connection carries is in the history of requests served. */
  ghost predicate Recorded(pending: map<Conn, Req>, callback: map<Conn, Req>, served: set<Req>) {
    && (forall c :: c in pending ==> pending[c] in served)
    && (forall c :: c in callback ==> callback[c] in served)
  }

  ghost predicate AllRecorded(p: Pool) {
    Recorded(p.pending, p.callback, Elems(p.served))
  }

  lemma DispatchRecorded(p: Pool, r: Req)
    requires AllRecorded(p)
    ensures AllRecorded(Dispatch(p, r))
  {
    hide Elems, Total;
    AddLast(p.served, r);
  }

  lemma SubmitRecorded(p: Pool)
    requires AllRecorded(p)
    ensures AllRecorded(Submit(p))
  {
    hide Elems, Dispatch, Recorded;
    DispatchRecorded(Arrive(p), p.submitted);
  }

  lemma {:induction false} SubmitManyRecorded(p: Pool, n: nat)
    requires AllRecorded(p)
    ensures AllRecorded(SubmitMany(p, n))
    decreases n
  {
    hide AllRecorded, Submit;
    if n > 0 {
      SubmitRecorded(p);
      SubmitManyRecorded(Submit(p), n - 1);
    }
  }

  lemma CompleteRecorded(p: Pool, r: Req, e: Ending, n: nat)
    requires AllRecorded(p)
    ensures AllRecorded(Complete(p, r, e, n))
  {
    hide Elems, SubmitMany, Recorded;
    SubmitManyRecorded(RunCallback(p, r, e), n);
  }

  lemma ReadyRecorded(p: Pool, c: Conn)
    requires AllRecorded(p)
    ensures AllRecorded(OnReady(p, c))
  {
    hide Elems, Remove;
  }

  lemma FreeRecorded(p: Pool, c: Conn)
    requires AllRecorded(p)
    ensures AllRecorded(OnFree(p, c))
  {
    hide Elems, Remove;
    if p.queue != [] { AddLast(p.served, p.queue[0]); }
  }

  lemma ClosedRecorded(p: Pool, c: Conn)
    requires AllRecorded(p)
    ensures AllRecorded(OnClosed(p, c))
  {
    hide Elems, Remove, Total;
    if p.queue != [] { AddLast(p.served, p.queue[0]); }
  }

  lemma TakeRecorded(p: Pool, c: Conn, busyFlag: set<Conn>, doneFlag: set<Conn>)
    requires AllRecorded(p)
    ensures AllRecorded(Take(p.(busyFlag := busyFlag, doneFlag := doneFlag), c))
  {
    hide Elems;
  }

  lemma DisconnectRecorded(p: Pool, c: Conn, eofBody: bool, n: nat)
    requires AllRecorded(p)
    ensures AllRecorded(OnDisconnect(p, c, eofBody, n))
  {
    hide AllRecorded, Complete, OnClosed, Take;
    var q := Take(p.(busyFlag := p.busyFlag - {c}, doneFlag := p.doneFlag + {c}), c);
    TakeRecorded(p, c, p.busyFlag - {c}, p.doneFlag + {c});
    ClosedRecorded(p, c);
    ClosedRecorded(q, c);
    if c in p.callback {
      var e := if eofBody then DeliveredAtEof else ClosedEarly;
      CompleteRecorded(q, p.callback[c], e, n);
      ClosedRecorded(Complete(q, p.callback[c], e, n), c);
    }
  }

  lemma {:induction false} DispatchAllRecorded(p: Pool, rs: seq<Req>)
    requires AllRecorded(p)
    ensures AllRecorded(DispatchAll(p, rs))
    decreases |rs|
  {
    hide AllRecorded, Dispatch;
    if rs != [] {
      DispatchRecorded(p, rs[0]);
      DispatchAllRecorded(Dispatch(p, rs[0]), rs[1..]);
    }
  }

  lemma {:induction false} FailAllRecorded(p: Pool, rs: seq<Req>, ns: seq<nat>)
    requires |ns| == |rs| && AllRecorded(p)
    ensures AllRecorded(FailAll(p, rs, ns))
    decreases |rs|
  {
    hide AllRecorded, Complete;
    if rs != [] {
      CompleteRecorded(p, rs[0], DnsFailed, ns[0]);
      FailAllRecorded(Complete(p, rs[0], DnsFailed, ns[0]), rs[1..], ns[1..]);
    }
  }

  lemma StepRecorded(p: Pool, e: Event)
    requires Enabled(p, e) && AllRecorded(p)
    ensures AllRecorded(Apply(p, e))
  {
    hide Recorded, Elems, Submit, DispatchAll, FailAll, OnReady, OnDisconnect, OnFree, Complete, Take, Keep;
    match e
    case Request => SubmitRecorded(p);
    case Resolved(ok, ns) =>
      DispatchAllRecorded(TakeAll(p).(resolved := true), p.waiting);
      FailAllRecorded(TakeAll(p), p.waiting, ns);
    case Ready(c) => ReadyRecorded(p, c);
    case Response(c, keepAlive, n) =>
      var q := Take(p.(busyFlag := p.busyFlag - {c}, doneFlag := p.doneFlag + {c}), c);
      TakeRecorded(p, c, p.busyFlag - {c}, p.doneFlag + {c});
      FreeRecorded(q, c);
      CompleteRecorded(if keepAlive then OnFree(q, c) else q, p.callback[c], Delivered, n);
    case Malformed(c, n) =>
      TakeRecorded(p, c, p.busyFlag, p.doneFlag);
      CompleteRecorded(Take(p, c), p.callback[c], MalformedResponse, n);
    case Closed(c, eofBody, n) => DisconnectRecorded(p, c, eofBody, n);
    case Evict(stale) =>
  }

  lemma {:induction false} RunRecorded(p: Pool, es: seq<Event>, q: Pool)
    requires AllRecorded(p) && Run(p, es, q)
    ensures AllRecorded(q)
    decreases |es|
  {
    hide AllRecorded, Elems;
    hide Submit, OnResolved, OnReady, OnResponse, OnMalformed, OnDisconnect, OnEvict;
    if es != [] {
      StepRecorded(p, es[0]);
      RunRecorded(Apply(p, es[0]), es[1..], q);
    }
  }

  predicate Carried(w: Place) {
    w.PendingOn? || w.InFlight?
  }

  /** In every run: while a request still waits, no later one is with a connection. */
  lemma FirstComeFirstServed(cap: nat, resolved: bool, es: seq<Event>, q: Pool, r: Req, s: Req)
    requires cap > 0 && Run(Init(cap, resolved), es, q)
    requires r < s && s in q.place && Carried(q.place[s])
    ensures r in q.place && q.place[r] != Queued && q.place[r] != AtDns
  {
    hide Elems, Fired, Run, Sorted, Below;
    PoolTheorem(cap, resolved, es, q);
    RunRecorded(Init(cap, resolved), es, q);
    EmptyElems<Req>();
    OnePlace(q, r);
    OnePlace(q, s);
    var c := q.place[s].conn;
    assert s in Elems(q.served) by {
      if q.place[s].PendingOn? { assert q.pending[c] == s; } else { assert q.callback[c] == s; }
    }
  }
}
