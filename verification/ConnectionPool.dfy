/** The HTTP connection pool over plaintext connections: a single-threaded
    scheduler driven by events (http/connection_pool.cc).

    Requests are numbered in the order they are submitted, connections in the
    order they are created.  A user callback may submit further requests before
    it returns; an event that runs callbacks says how many. */
module ConnectionPool {

  import opened Elements

  newtype Conn = c: int | 0 <= c
  newtype Req = r: int | 0 <= r

  datatype Ending = Delivered | DeliveredAtEof | MalformedResponse | ClosedEarly | DnsFailed

  /** Where a request is.  `Taken` is on its way, inside one event. */
  datatype Place = AtDns | Queued | PendingOn(conn: Conn) | InFlight(conn: Conn) | Taken | Done

  /** The fields of ConnectionPool::Impl and of its connections, and a history:
      the requests handed to connections, the callbacks run, where each request is. */
  datatype Pool = Pool(
    cap: nat,
    idle: seq<Conn>, busy: seq<Conn>, connecting: seq<Conn>,
    pending: map<Conn, Req>, queue: seq<Req>,
    resolved: bool, resolving: bool, waiting: seq<Req>,
    callback: map<Conn, Req>, busyFlag: set<Conn>, doneFlag: set<Conn>,
    created: Conn, submitted: Req,
    served: seq<Req>, completed: seq<(Req, Ending)>, place: map<Req, Place>)

  function Total(p: Pool): nat {
    |p.idle| + |p.busy| + |p.connecting|
  }

  // ---- Operations ------------------------------------------------------------------

  /** Erases the first occurrence of `c`. */
  function Remove(v: seq<Conn>, c: Conn): seq<Conn> {
    if v == [] then []
    else if v[0] == c then v[1..]
    else [v[0]] + Remove(v[1..], c)
  }

  function At(p: Pool, r: Req, w: Place): Pool {
    p.(place := p.place[r := w])
  }

  /** PooledConn::start: the connection now carries the request's callback. */
  function Start(p: Pool, c: Conn, r: Req): Pool {
    At(p, r, InFlight(c)).(busyFlag := p.busyFlag + {c}, doneFlag := p.doneFlag - {c}, callback := p.callback[c := r])
  }

  /** Opens a connection for the request. */
  function Open(p: Pool, r: Req): Pool {
    At(p, r, PendingOn(p.created)).(connecting := p.connecting + [p.created], pending := p.pending[p.created := r],
                                   created := p.created + 1, served := p.served + [r])
  }

  /** Uses the connection that became idle last. */
  function Reuse(p: Pool, r: Req): Pool
    requires p.idle != []
  {
    var c := p.idle[|p.idle| - 1];
    Start(p.(idle := p.idle[..|p.idle| - 1], busy := p.busy + [c], served := p.served + [r]), c, r)
  }

  function Enqueue(p: Pool, r: Req): Pool {
    At(p, r, Queued).(queue := p.queue + [r])
  }

  /** Reuse an idle connection, open one below the cap, or queue. */
  function Dispatch(p: Pool, r: Req): Pool {
    if p.idle != [] then Reuse(p, r)
    else if Total(p) < p.cap then Open(p, r)
    else Enqueue(p, r)
  }

  /** A request that is being submitted. */
  function Arrive(p: Pool): Pool {
    At(p, p.submitted, Taken).(submitted := p.submitted + 1)
  }

  function Park(p: Pool, r: Req): Pool {
    At(p, r, AtDns).(waiting := p.waiting + [r], resolving := true)
  }

  /** `request`: dispatch, or park the request until the name is resolved. */
  function Submit(p: Pool): Pool {
    if !p.resolved then Park(Arrive(p), p.submitted) else Dispatch(Arrive(p), p.submitted)
  }

  function SubmitMany(p: Pool, n: nat): Pool
    decreases n
  {
    if n == 0 then p else SubmitMany(Submit(p), n - 1)
  }

  function RunCallback(p: Pool, r: Req, e: Ending): Pool {
    At(p, r, Done).(completed := p.completed + [(r, e)])
  }

  /** Runs the callback of a taken request, which submits `n` more. */
  function Complete(p: Pool, r: Req, e: Ending, n: nat): Pool {
    SubmitMany(RunCallback(p, r, e), n)
  }

  /** takeCallback: the connection gives its callback up. */
  function Take(p: Pool, c: Conn): Pool {
    if c in p.callback then At(p, p.callback[c], Taken).(callback := p.callback - {c}) else p
  }

  function OnReady(p: Pool, c: Conn): Pool {
    var p1 := p.(connecting := Remove(p.connecting, c));
    if c in p.pending then
      Start(p1.(busy := p.busy + [c], pending := p.pending - {c}), c, p.pending[c])
    else p1.(idle := p.idle + [c])
  }

  function OnFree(p: Pool, c: Conn): Pool {
    var p1 := p.(busy := Remove(p.busy, c));
    if p.queue != [] then
      var r := p.queue[0];
      Start(p1.(queue := p.queue[1..], busy := p1.busy + [c], served := p.served + [r]), c, r)
    else p1.(idle := p.idle + [c])
  }

  function Drop(p: Pool, c: Conn): Pool {
    p.(idle := Remove(p.idle, c), busy := Remove(p.busy, c), connecting := Remove(p.connecting, c), pending := p.pending - {c})
  }

  /** Opens a connection for the head of the queue. */
  function Shift(p: Pool): Pool
    requires p.queue != []
  {
    Open(p.(queue := p.queue[1..]), p.queue[0])
  }

  function OnClosed(p: Pool, c: Conn): Pool {
    var p1 := Drop(p, c);
    if p1.queue != [] && Total(p1) < p1.cap then Shift(p1) else p1
  }

  /** consume, with a complete response: the connection is freed, or told to
      close, before the callback runs. */
  function OnResponse(p: Pool, c: Conn, keepAlive: bool, n: nat): Pool {
    var p1 := Take(p.(busyFlag := p.busyFlag - {c}, doneFlag := p.doneFlag + {c}), c);
    var p2 := if keepAlive then OnFree(p1, c) else p1;
    if c in p.callback then Complete(p2, p.callback[c], Delivered, n) else p2
  }

  /** consume, with bytes that do not parse: the callback runs and the connection
      is told to close; its close event is still to come. */
  function OnMalformed(p: Pool, c: Conn, n: nat): Pool {
    if c in p.callback then Complete(Take(p, c), p.callback[c], MalformedResponse, n) else p
  }

  /** The connection went down: an unanswered request is completed first. */
  function OnDisconnect(p: Pool, c: Conn, eofBody: bool, n: nat): Pool {
    var p1 :=
      if c in p.busyFlag && c !in p.doneFlag then
        var q := Take(p.(busyFlag := p.busyFlag - {c}, doneFlag := p.doneFlag + {c}), c);
        if c in p.callback then Complete(q, p.callback[c], if eofBody then DeliveredAtEof else ClosedEarly, n) else q
      else p;
    OnClosed(p1, c)
  }

  function FailAll(p: Pool, rs: seq<Req>, ns: seq<nat>): Pool
    requires |ns| == |rs|
    decreases |rs|
  {
    if rs == [] then p else FailAll(Complete(p, rs[0], DnsFailed, ns[0]), rs[1..], ns[1..])
  }

  function DispatchAll(p: Pool, rs: seq<Req>): Pool
    decreases |rs|
  {
    if rs == [] then p else DispatchAll(Dispatch(p, rs[0]), rs[1..])
  }

  function TakeAll(p: Pool): Pool {
    p.(waiting := [], resolving := false,
       place := map r | r in p.place :: if p.place[r].AtDns? then Taken else p.place[r])
  }

  /** onResolved: the parked requests are dispatched, or all fail and a later
      request tries again. */
  function OnResolved(p: Pool, ok: bool, ns: seq<nat>): Pool
    requires |ns| == |p.waiting|
  {
    if ok then DispatchAll(TakeAll(p).(resolved := true), p.waiting) else FailAll(TakeAll(p), p.waiting, ns)
  }

  function Keep(v: seq<Conn>, stale: set<Conn>): seq<Conn> {
    if v == [] then [] else (if v[0] in stale then [] else [v[0]]) + Keep(v[1..], stale)
  }

  /** evictIdle: connections idle for too long leave the idle list and are told to
      close. */
  function OnEvict(p: Pool, stale: set<Conn>): Pool {
    p.(idle := Keep(p.idle, stale))
  }

  // ---- Lists as sets -----------------------------------------------------------------

  ghost predicate Sorted(v: seq<Req>) {
    forall i, j :: 0 <= i < j < |v| ==> v[i] < v[j]
  }

  ghost predicate Below(v: seq<Req>, n: Req) {
    forall x :: x in Elems(v) ==> x < n
  }

  lemma SortedLast(v: seq<Req>, r: Req)
    requires Sorted(v) && Below(v, r)
    ensures Sorted(v + [r])
  {
    assert forall i :: 0 <= i < |v| ==> v[i] in Elems(v);
  }

  lemma DropFirst(v: seq<Req>)
    requires v != [] && Sorted(v)
    ensures v[0] in Elems(v) && Elems(v[1..]) == Elems(v) - {v[0]} && Sorted(v[1..])
    ensures forall x :: x in Elems(v[1..]) ==> v[0] < x
  {
    forall x | x in Elems(v) && x != v[0]
      ensures x in v[1..]
    {
      var i :| 0 <= i < |v| && v[i] == x;
      assert v[1..][i - 1] == x;
    }
  }

  lemma {:induction false} RemoveElems(v: seq<Conn>, c: Conn)
    requires Distinct(v)
    ensures Elems(Remove(v, c)) == Elems(v) - {c} && Distinct(Remove(v, c))
    ensures |Remove(v, c)| == |v| - (if c in Elems(v) then 1 else 0)
    decreases |v|
  {
    if v != [] {
      hide Distinct, Elems;
      FirstAndRest(v);
      RemoveElems(v[1..], c);
      AddFirst(v[0], Remove(v[1..], c));
    }
  }

  lemma {:induction false} KeepElems(v: seq<Conn>, stale: set<Conn>)
    requires Distinct(v)
    ensures Elems(Keep(v, stale)) == Elems(v) - stale && Distinct(Keep(v, stale))
    ensures |Keep(v, stale)| <= |v|
    decreases |v|
  {
    if v != [] {
      hide Distinct, Elems;
      FirstAndRest(v);
      KeepElems(v[1..], stale);
      AddFirst(v[0], Keep(v[1..], stale));
    }
  }

  // ---- The invariant -----------------------------------------------------------------

  /** The lists are duplicate-free and pairwise disjoint. */
  ghost predicate Lists(idle: seq<Conn>, busy: seq<Conn>, connecting: seq<Conn>, created: Conn) {
    && Distinct(idle) && Distinct(busy) && Distinct(connecting)
    && Elems(idle) !! Elems(busy) && Elems(idle) !! Elems(connecting) && Elems(busy) !! Elems(connecting)
    && (forall c :: c in Elems(idle) || c in Elems(busy) || c in Elems(connecting) ==> c < created)
  }

  /** Exactly the connecting ones have a pending request; only busy ones hold a callback. */
  ghost predicate Held(busy: set<Conn>, connecting: set<Conn>, pending: set<Conn>, callback: set<Conn>,
                       busyFlag: set<Conn>, doneFlag: set<Conn>) {
    && pending == connecting
    && callback <= busy && callback <= busyFlag && callback !! doneFlag
  }

  ghost predicate ConnsOk(p: Pool) {
    && Lists(p.idle, p.busy, p.connecting, p.created)
    && Held(Elems(p.busy), Elems(p.connecting), p.pending.Keys, p.callback.Keys, p.busyFlag, p.doneFlag)
  }

  /** Never above the cap; a request waits only when every connection is taken. */
  ghost predicate QueueOk(p: Pool) {
    && 0 < p.cap && Total(p) <= p.cap
    && (p.queue != [] ==> p.idle == [] && Total(p) == p.cap)
    && (!p.resolved ==> p.queue == [] && p.served == [] && Total(p) == 0)
    && (if p.resolved then p.waiting == [] && !p.resolving else p.waiting != [] ==> p.resolving)
  }

  /** First come, first served: requests reach connections in the order they were
      submitted, and whatever still waits was submitted later. */
  ghost predicate Fifo(served: seq<Req>, queue: seq<Req>, waiting: seq<Req>, submitted: Req) {
    && Sorted(served) && Sorted(queue) && Sorted(waiting)
    && (forall x, y :: x in Elems(served) && y in Elems(queue) ==> x < y)
    && Below(served, submitted) && Below(queue, submitted) && Below(waiting, submitted)
  }

  /** The requests whose callbacks have run. */
  ghost function Fired(completed: seq<(Req, Ending)>): set<Req> {
    set i | 0 <= i < |completed| :: completed[i].0
  }

  ghost predicate FiredOnce(completed: seq<(Req, Ending)>) {
    forall i, j :: 0 <= i < j < |completed| ==> completed[i].0 != completed[j].0
  }

  /** `s` holds exactly the requests at `w`. */
  ghost predicate Holds(place: map<Req, Place>, w: Place, s: set<Req>) {
    forall r :: r in s <==> r in place && place[r] == w
  }

  ghost predicate PendingMatch(place: map<Req, Place>, m: map<Conn, Req>) {
    && (forall c :: c in m ==> m[c] in place && place[m[c]] == PendingOn(c))
    && (forall r :: r in place && place[r].PendingOn? ==> place[r].conn in m && m[place[r].conn] == r)
  }

  ghost predicate FlightMatch(place: map<Req, Place>, m: map<Conn, Req>) {
    && (forall c :: c in m ==> m[c] in place && place[m[c]] == InFlight(c))
    && (forall r :: r in place && place[r].InFlight? ==> place[r].conn in m && m[place[r].conn] == r)
  }

  /** Every submitted request is in exactly the place recorded for it; `taken` are
      the ones on their way inside the current event, `fired` those whose callback ran. */
  ghost predicate Placed(place: map<Req, Place>, submitted: Req, waiting: set<Req>, queue: set<Req>,
                         pending: map<Conn, Req>, callback: map<Conn, Req>, fired: set<Req>, taken: set<Req>) {
    && (forall r :: r in place <==> r < submitted)
    && Holds(place, AtDns, waiting) && Holds(place, Queued, queue) && Holds(place, Done, fired) && Holds(place, Taken, taken)
    && PendingMatch(place, pending) && FlightMatch(place, callback)
  }

  ghost predicate PlacesOk(p: Pool, taken: set<Req>) {
    && Placed(p.place, p.submitted, Elems(p.waiting), Elems(p.queue), p.pending, p.callback, Fired(p.completed), taken)
    && FiredOnce(p.completed)
  }

  ghost predicate Ok(p: Pool, taken: set<Req>) {
    ConnsOk(p) && QueueOk(p) && Fifo(p.served, p.queue, p.waiting, p.submitted) && PlacesOk(p, taken)
  }

  /** What holds between events. */
  ghost predicate Inv(p: Pool) {
    Ok(p, {})
  }

  // ---- Moving one request ------------------------------------------------------------

  /** `s` after a move of `r` out of (`was`) or into (`now`) it. */
  ghost function Moved(s: set<Req>, r: Req, was: bool, now: bool): set<Req> {
    if was == now then s else if now then s + {r} else s - {r}
  }

  ghost predicate Is(place: map<Req, Place>, r: Req, w: Place) {
    r in place && place[r] == w
  }

  lemma MoveHolds(place: map<Req, Place>, r: Req, to: Place, w: Place, s: set<Req>)
    requires Holds(place, w, s)
    ensures Holds(place[r := to], w, Moved(s, r, Is(place, r, w), to == w))
  {
  }

  /** A map of connections after `r` moves from `from` to `to`; -1 is elsewhere. */
  ghost function Rehung(m: map<Conn, Req>, r: Req, from: int, to: int): map<Conn, Req> {
    var m1 := if from >= 0 then m - {from as Conn} else m;
    if to >= 0 then m1[to as Conn := r] else m1
  }

  ghost function PendingAt(w: Place): int {
    if w.PendingOn? then w.conn as int else -1
  }

  ghost function FlightAt(w: Place): int {
    if w.InFlight? then w.conn as int else -1
  }

  ghost function Was(place: map<Req, Place>, r: Req): Place {
    if r in place then place[r] else Taken
  }

  lemma MovePending(place: map<Req, Place>, r: Req, to: Place, m: map<Conn, Req>)
    requires PendingMatch(place, m) && (to.PendingOn? ==> to.conn !in m)
    ensures PendingMatch(place[r := to], Rehung(m, r, PendingAt(Was(place, r)), PendingAt(to)))
  {
  }

  lemma MoveFlight(place: map<Req, Place>, r: Req, to: Place, m: map<Conn, Req>)
    requires FlightMatch(place, m) && (to.InFlight? ==> to.conn !in m)
    ensures FlightMatch(place[r := to], Rehung(m, r, FlightAt(Was(place, r)), FlightAt(to)))
  {
  }

  /** One move of one request keeps everything in its place. */
  lemma Move(place: map<Req, Place>, submitted: Req, waiting: set<Req>, queue: set<Req>,
             pending: map<Conn, Req>, callback: map<Conn, Req>, fired: set<Req>, taken: set<Req>, r: Req, to: Place)
    requires Placed(place, submitted, waiting, queue, pending, callback, fired, taken) && r <= submitted
    requires (to.PendingOn? ==> to.conn !in pending) && (to.InFlight? ==> to.conn !in callback)
    ensures Placed(place[r := to], if r == submitted then r + 1 else submitted,
                   Moved(waiting, r, Is(place, r, AtDns), to == AtDns), Moved(queue, r, Is(place, r, Queued), to == Queued),
                   Rehung(pending, r, PendingAt(Was(place, r)), PendingAt(to)),
                   Rehung(callback, r, FlightAt(Was(place, r)), FlightAt(to)),
                   Moved(fired, r, Is(place, r, Done), to == Done), Moved(taken, r, Is(place, r, Taken), to == Taken))
  {
    hide Holds, PendingMatch, FlightMatch, Is, Was;
    MoveHolds(place, r, to, AtDns, waiting);
    MoveHolds(place, r, to, Queued, queue);
    MoveHolds(place, r, to, Done, fired);
    MoveHolds(place, r, to, Taken, taken);
    MovePending(place, r, to, pending);
    MoveFlight(place, r, to, callback);
  }

  lemma Fire(completed: seq<(Req, Ending)>, r: Req, e: Ending)
    requires FiredOnce(completed) && r !in Fired(completed)
    ensures FiredOnce(completed + [(r, e)]) && Fired(completed + [(r, e)]) == Fired(completed) + {r}
  {
    var c := completed + [(r, e)];
    assert forall i :: 0 <= i < |completed| ==> c[i] == completed[i] && completed[i].0 in Fired(completed);
    forall x | x in Fired(completed) + {r} ensures x in Fired(c) {
      if x == r { assert c[|completed|].0 == r; }
      else { var i :| 0 <= i < |completed| && completed[i].0 == x; assert c[i].0 == x; }
    }
  }

  lemma IsTaken(p: Pool, taken: set<Req>, r: Req)
    requires PlacesOk(p, taken) && r in taken
    ensures r in p.place && p.place[r] == Taken && r < p.submitted
  {
  }

  lemma IsQueued(p: Pool, taken: set<Req>, r: Req)
    requires PlacesOk(p, taken) && r in Elems(p.queue)
    ensures r in p.place && p.place[r] == Queued && r < p.submitted
  {
  }

  lemma IsPending(p: Pool, taken: set<Req>, c: Conn)
    requires PlacesOk(p, taken) && c in p.pending
    ensures p.pending[c] in p.place && p.place[p.pending[c]] == PendingOn(c) && p.pending[c] < p.submitted
  {
  }

  lemma IsInFlight(p: Pool, taken: set<Req>, c: Conn)
    requires PlacesOk(p, taken) && c in p.callback
    ensures p.callback[c] in p.place && p.place[p.callback[c]] == InFlight(c) && p.callback[c] < p.submitted
  {
  }

  lemma MoveIn(p: Pool, taken: set<Req>, r: Req, to: Place)
    requires PlacesOk(p, taken) && r <= p.submitted
    requires (to.PendingOn? ==> to.conn !in p.pending) && (to.InFlight? ==> to.conn !in p.callback)
    ensures Placed(p.place[r := to], if r == p.submitted then r + 1 else p.submitted,
                   Moved(Elems(p.waiting), r, Is(p.place, r, AtDns), to == AtDns),
                   Moved(Elems(p.queue), r, Is(p.place, r, Queued), to == Queued),
                   Rehung(p.pending, r, PendingAt(Was(p.place, r)), PendingAt(to)),
                   Rehung(p.callback, r, FlightAt(Was(p.place, r)), FlightAt(to)),
                   Moved(Fired(p.completed), r, Is(p.place, r, Done), to == Done),
                   Moved(taken, r, Is(p.place, r, Taken), to == Taken))
  {
    hide Placed, FiredOnce, Moved, Rehung;
    Move(p.place, p.submitted, Elems(p.waiting), Elems(p.queue), p.pending, p.callback, Fired(p.completed), taken, r, to);
  }

  // ---- Moving one connection ------------------------------------------------------------

  lemma ListsReuse(idle: seq<Conn>, busy: seq<Conn>, connecting: seq<Conn>, created: Conn)
    requires Lists(idle, busy, connecting, created) && idle != []
    ensures var n := |idle| - 1;
            && Lists(idle[..n], busy + [idle[n]], connecting, created)
            && idle[n] !in Elems(busy) && Elems(busy + [idle[n]]) == Elems(busy) + {idle[n]}
  {
    hide Elems, Distinct;
    DropLast(idle);
    AddLast(busy, idle[|idle| - 1]);
  }

  lemma ListsOpen(idle: seq<Conn>, busy: seq<Conn>, connecting: seq<Conn>, created: Conn)
    requires Lists(idle, busy, connecting, created)
    ensures Lists(idle, busy, connecting + [created], created + 1)
    ensures created !in Elems(connecting) && Elems(connecting + [created]) == Elems(connecting) + {created}
  {
    hide Elems, Distinct;
    AddLast(connecting, created);
  }

  lemma ListsReady(idle: seq<Conn>, busy: seq<Conn>, connecting: seq<Conn>, created: Conn, c: Conn)
    requires Lists(idle, busy, connecting, created) && c in Elems(connecting)
    ensures Lists(idle, busy + [c], Remove(connecting, c), created) && |Remove(connecting, c)| == |connecting| - 1
    ensures Elems(busy + [c]) == Elems(busy) + {c} && Elems(Remove(connecting, c)) == Elems(connecting) - {c}
    ensures c !in Elems(busy)
  {
    hide Elems, Distinct;
    AddLast(busy, c);
    RemoveElems(connecting, c);
  }

  lemma ListsAgain(idle: seq<Conn>, busy: seq<Conn>, connecting: seq<Conn>, created: Conn, c: Conn)
    requires Lists(idle, busy, connecting, created) && c in Elems(busy)
    ensures Lists(idle, Remove(busy, c) + [c], connecting, created) && |Remove(busy, c)| == |busy| - 1
    ensures Elems(Remove(busy, c) + [c]) == Elems(busy)
  {
    hide Elems, Distinct;
    RemoveElems(busy, c);
    AddLast(Remove(busy, c), c);
  }

  lemma ListsFree(idle: seq<Conn>, busy: seq<Conn>, connecting: seq<Conn>, created: Conn, c: Conn)
    requires Lists(idle, busy, connecting, created) && c in Elems(busy)
    ensures Lists(idle + [c], Remove(busy, c), connecting, created) && |Remove(busy, c)| == |busy| - 1
    ensures Elems(Remove(busy, c)) == Elems(busy) - {c}
  {
    hide Elems, Distinct;
    RemoveElems(busy, c);
    AddLast(idle, c);
  }

  lemma ListsDrop(idle: seq<Conn>, busy: seq<Conn>, connecting: seq<Conn>, created: Conn, c: Conn)
    requires Lists(idle, busy, connecting, created) && c !in Elems(connecting)
    ensures Lists(Remove(idle, c), Remove(busy, c), Remove(connecting, c), created)
    ensures Elems(Remove(busy, c)) == Elems(busy) - {c} && Elems(Remove(connecting, c)) == Elems(connecting)
    ensures |Remove(connecting, c)| == |connecting|
    ensures |idle| + |busy| - 1 <= |Remove(idle, c)| + |Remove(busy, c)| <= |idle| + |busy|
    ensures idle == [] ==> Remove(idle, c) == []
  {
    hide Elems, Distinct, Remove;
    RemoveElems(idle, c);
    RemoveElems(busy, c);
    RemoveElems(connecting, c);
    assert Elems(connecting) - {c} == Elems(connecting);
  }

  // ---- The waiting lines ------------------------------------------------------------------

  lemma FifoServe(served: seq<Req>, queue: seq<Req>, waiting: seq<Req>, submitted: Req)
    requires Fifo(served, queue, waiting, submitted) && queue != []
    ensures Fifo(served + [queue[0]], queue[1..], waiting, submitted)
    ensures queue[0] in Elems(queue) && Elems(queue[1..]) == Elems(queue) - {queue[0]}
  {
    hide Elems, Sorted;
    DropFirst(queue);
    AddLast(served, queue[0]);
    SortedLast(served, queue[0]);
  }

  /** `r` was submitted after everything that was served or is queued. */
  ghost predicate Next(served: seq<Req>, queue: seq<Req>, submitted: Req, r: Req) {
    r < submitted && Below(served, r) && Below(queue, r)
  }

  lemma FifoNext(served: seq<Req>, queue: seq<Req>, waiting: seq<Req>, submitted: Req, r: Req)
    requires Fifo(served, queue, waiting, submitted) && Next(served, queue, submitted, r)
    ensures queue == [] ==> Fifo(served + [r], queue, waiting, submitted)
    ensures Fifo(served, queue + [r], waiting, submitted) && Elems(queue + [r]) == Elems(queue) + {r}
  {
    hide Elems, Sorted;
    EmptyElems<Req>();
    AddLast(served, r);
    AddLast(queue, r);
    SortedLast(served, r);
    SortedLast(queue, r);
  }

  lemma FifoSubmit(served: seq<Req>, queue: seq<Req>, waiting: seq<Req>, submitted: Req)
    requires Fifo(served, queue, waiting, submitted)
    ensures Fifo(served, queue, waiting, submitted + 1) && Next(served, queue, submitted + 1, submitted)
    ensures Fifo(served, queue, waiting + [submitted], submitted + 1)
    ensures Elems(waiting + [submitted]) == Elems(waiting) + {submitted}
  {
    hide Elems, Sorted;
    AddLast(waiting, submitted);
    SortedLast(waiting, submitted);
  }

  // ---- Handing a request to the pool --------------------------------------------------------

  lemma ReuseKeeps(p: Pool, taken: set<Req>, r: Req)
    requires Ok(p, taken) && r in taken && p.idle != [] && Next(p.served, p.queue, p.submitted, r)
    ensures Ok(Reuse(p, r), taken - {r})
  {
    hide Elems, Lists, Fifo, Next, Placed, Fired, FiredOnce;
    var c := p.idle[|p.idle| - 1];
    ListsReuse(p.idle, p.busy, p.connecting, p.created);
    FifoNext(p.served, p.queue, p.waiting, p.submitted, r);
    IsTaken(p, taken, r);
    MoveIn(p, taken, r, InFlight(c));
  }

  lemma EnqueueKeeps(p: Pool, taken: set<Req>, r: Req)
    requires Ok(p, taken) && r in taken && p.idle == [] && p.resolved && Total(p) == p.cap
    requires Next(p.served, p.queue, p.submitted, r)
    ensures Ok(Enqueue(p, r), taken - {r})
  {
    hide Elems, Lists, Held, Fifo, Next, Placed, Fired, FiredOnce;
    FifoNext(p.served, p.queue, p.waiting, p.submitted, r);
    IsTaken(p, taken, r);
    MoveIn(p, taken, r, Queued);
  }

  lemma OpenKeeps(p: Pool, taken: set<Req>, r: Req)
    requires Ok(p, taken) && r in taken && p.idle == [] && p.resolved && Total(p) < p.cap
    requires Next(p.served, p.queue, p.submitted, r)
    ensures Ok(Open(p, r), taken - {r})
  {
    hide Elems, Lists, Fifo, Next, Placed, Fired, FiredOnce;
    ListsOpen(p.idle, p.busy, p.connecting, p.created);
    FifoNext(p.served, p.queue, p.waiting, p.submitted, r);
    IsTaken(p, taken, r);
    MoveIn(p, taken, r, PendingOn(p.created));
  }

  lemma DispatchKeeps(p: Pool, taken: set<Req>, r: Req)
    requires Ok(p, taken) && r in taken && p.resolved && Next(p.served, p.queue, p.submitted, r)
    ensures Ok(Dispatch(p, r), taken - {r})
  {
    hide ConnsOk, Fifo, PlacesOk, Next;
    if p.idle != [] { ReuseKeeps(p, taken, r); }
    else if Total(p) < p.cap { OpenKeeps(p, taken, r); }
    else { EnqueueKeeps(p, taken, r); }
  }

  lemma NotYetTaken(p: Pool, taken: set<Req>)
    requires PlacesOk(p, taken)
    ensures p.submitted !in p.place && p.submitted !in taken
  {
  }

  lemma ArriveKeeps(p: Pool, taken: set<Req>)
    requires Ok(p, taken)
    ensures Ok(Arrive(p), taken + {p.submitted}) && Next(p.served, p.queue, p.submitted + 1, p.submitted)
  {
    hide Elems, Lists, Fifo, Placed, Fired, FiredOnce, Held, Next;
    NotYetTaken(p, taken);
    FifoSubmit(p.served, p.queue, p.waiting, p.submitted);
    MoveIn(p, taken, p.submitted, Taken);
  }

  lemma ParkKeeps(p: Pool, taken: set<Req>)
    requires Ok(p, taken) && !p.resolved
    ensures Ok(Park(Arrive(p), p.submitted), taken)
  {
    hide Elems, Lists, Fifo, Placed, Fired, FiredOnce, Held, Next;
    ArriveKeeps(p, taken);
    NotYetTaken(p, taken);
    FifoSubmit(p.served, p.queue, p.waiting, p.submitted);
    MoveIn(Arrive(p), taken + {p.submitted}, p.submitted, AtDns);
    assert taken + {p.submitted} - {p.submitted} == taken;
  }

  lemma SubmitKeeps(p: Pool, taken: set<Req>)
    requires Ok(p, taken)
    ensures Ok(Submit(p), taken)
  {
    hide Ok, Dispatch, Next;
    if !p.resolved {
      ParkKeeps(p, taken);
    } else {
      ArriveKeeps(p, taken);
      DispatchKeeps(Arrive(p), taken + {p.submitted}, p.submitted);
      NotTaken(p, taken);
      assert taken + {p.submitted} - {p.submitted} == taken;
    }
  }

  lemma NotTaken(p: Pool, taken: set<Req>)
    requires Ok(p, taken)
    ensures p.submitted !in taken
  {
    NotYetTaken(p, taken);
  }

  /** A busy connection without a callback is not given one by a submission. */
  lemma SubmitSpares(p: Pool, taken: set<Req>, c: Conn)
    requires Ok(p, taken) && c in Elems(p.busy) && c !in p.callback
    ensures c in Elems(Submit(p).busy) && c !in Submit(p).callback
  {
    hide Fifo, PlacesOk, QueueOk, Held, Distinct, Below;
    if p.resolved && p.idle != [] {
      assert p.idle[|p.idle| - 1] in Elems(p.idle);
    }
  }

  lemma {:induction false} SubmitManyKeeps(p: Pool, taken: set<Req>, n: nat)
    requires Ok(p, taken)
    ensures Ok(SubmitMany(p, n), taken)
    decreases n
  {
    hide Ok, Submit;
    if n > 0 {
      SubmitKeeps(p, taken);
      SubmitManyKeeps(Submit(p), taken, n - 1);
    }
  }

  lemma {:induction false} SubmitManySpares(p: Pool, taken: set<Req>, n: nat, c: Conn)
    requires Ok(p, taken) && c in Elems(p.busy) && c !in p.callback
    ensures c in Elems(SubmitMany(p, n).busy) && c !in SubmitMany(p, n).callback
    decreases n
  {
    hide Ok, Elems, Submit;
    if n > 0 {
      SubmitKeeps(p, taken);
      SubmitSpares(p, taken, c);
      SubmitManySpares(Submit(p), taken, n - 1, c);
    }
  }

  // ---- Completing a request ----------------------------------------------------------------

  lemma NotFired(p: Pool, taken: set<Req>, r: Req)
    requires PlacesOk(p, taken) && r in taken
    ensures r !in Fired(p.completed)
  {
  }

  lemma RunCallbackKeeps(p: Pool, taken: set<Req>, r: Req, e: Ending)
    requires Ok(p, taken) && r in taken
    ensures Ok(RunCallback(p, r, e), taken - {r})
  {
    hide Elems, Lists, Fifo, Placed, Fired, FiredOnce, Held;
    IsTaken(p, taken, r);
    NotFired(p, taken, r);
    Fire(p.completed, r, e);
    MoveIn(p, taken, r, Done);
  }

  lemma CompleteKeeps(p: Pool, taken: set<Req>, r: Req, e: Ending, n: nat)
    requires Ok(p, taken) && r in taken
    ensures Ok(Complete(p, r, e, n), taken - {r})
  {
    hide Ok, SubmitMany;
    RunCallbackKeeps(p, taken, r, e);
    SubmitManyKeeps(RunCallback(p, r, e), taken - {r}, n);
  }

  lemma CompleteSpares(p: Pool, taken: set<Req>, r: Req, e: Ending, n: nat, c: Conn)
    requires Ok(p, taken) && r in taken && c in Elems(p.busy) && c !in p.callback
    ensures c in Elems(Complete(p, r, e, n).busy) && c !in Complete(p, r, e, n).callback
  {
    hide Ok, Elems, SubmitMany;
    RunCallbackKeeps(p, taken, r, e);
    SubmitManySpares(RunCallback(p, r, e), taken - {r}, n, c);
  }

  /** A connection in flight gives up its callback, whatever its flags become. */
  lemma TakeKeeps(p: Pool, c: Conn, busyFlag: set<Conn>, doneFlag: set<Conn>)
    requires Inv(p) && c in p.callback
    requires p.busyFlag - {c} <= busyFlag && doneFlag <= p.doneFlag + {c}
    ensures Ok(Take(p.(busyFlag := busyFlag, doneFlag := doneFlag), c), {p.callback[c]})
    ensures c in Elems(p.busy)
  {
    hide Elems, Lists, Fifo, Placed, Fired, FiredOnce;
    IsInFlight(p, {}, c);
    MoveIn(p, {}, p.callback[c], Taken);
    assert {} + {p.callback[c]} == {p.callback[c]};
  }

  // ---- The events of a connection --------------------------------------------------------------

  lemma OnReadyKeeps(p: Pool, c: Conn)
    requires Inv(p) && c in Elems(p.connecting)
    ensures Inv(OnReady(p, c))
  {
    hide Elems, Lists, Fifo, Placed, Fired, FiredOnce, Remove;
    ListsReady(p.idle, p.busy, p.connecting, p.created, c);
    IsPending(p, {}, c);
    MoveIn(p, {}, p.pending[c], InFlight(c));
  }

  lemma OnFreeKeeps(p: Pool, taken: set<Req>, c: Conn)
    requires Ok(p, taken) && c in Elems(p.busy) && c !in p.callback && p.resolved
    ensures Ok(OnFree(p, c), taken)
  {
    hide Elems, Lists, Fifo, Placed, Fired, FiredOnce, Remove;
    if p.queue != [] {
      ListsAgain(p.idle, p.busy, p.connecting, p.created, c);
      FifoServe(p.served, p.queue, p.waiting, p.submitted);
      IsQueued(p, taken, p.queue[0]);
      MoveIn(p, taken, p.queue[0], InFlight(c));
    } else {
      ListsFree(p.idle, p.busy, p.connecting, p.created, c);
    }
  }

  lemma DropKeeps(p: Pool, c: Conn)
    requires Inv(p) && c !in Elems(p.connecting) && c !in p.callback
    ensures ConnsOk(Drop(p, c)) && Drop(p, c).pending == p.pending
    ensures Total(p) - 1 <= Total(Drop(p, c)) <= Total(p)
    ensures p.idle == [] ==> Drop(p, c).idle == []
  {
    hide Elems, Lists, Fifo, Placed, Fired, FiredOnce, Remove, PlacesOk;
    ListsDrop(p.idle, p.busy, p.connecting, p.created, c);
    assert p.pending - {c} == p.pending;
  }

  lemma ShiftKeeps(p: Pool)
    requires ConnsOk(p) && Fifo(p.served, p.queue, p.waiting, p.submitted) && PlacesOk(p, {})
    requires p.queue != [] && p.idle == [] && p.resolved && !p.resolving && p.waiting == [] && 0 < p.cap && Total(p) + 1 == p.cap
    ensures Inv(Shift(p))
  {
    hide Elems, Lists, Fifo, Placed, Fired, FiredOnce;
    ListsOpen(p.idle, p.busy, p.connecting, p.created);
    FifoServe(p.served, p.queue, p.waiting, p.submitted);
    IsQueued(p, {}, p.queue[0]);
    MoveIn(p, {}, p.queue[0], PendingOn(p.created));
  }

  lemma OnClosedKeeps(p: Pool, c: Conn)
    requires Inv(p) && c !in Elems(p.connecting) && c !in p.callback
    ensures Inv(OnClosed(p, c))
  {
    hide ConnsOk, Fifo, PlacesOk, Elems, Remove;
    DropKeeps(p, c);
    assert PlacesOk(Drop(p, c), {}) by { DropPlaces(p, c); }
    var q := Drop(p, c);
    if q.queue != [] && Total(q) < q.cap {
      ShiftKeeps(q);
    }
  }

  lemma DropPlaces(p: Pool, c: Conn)
    requires PlacesOk(p, {}) && Drop(p, c).pending == p.pending
    ensures PlacesOk(Drop(p, c), {})
  {
    hide Placed;
  }

  lemma OnlyOne(r: Req)
    ensures {r} - {r} == {}
  {
  }

  lemma BusyMeansResolved(p: Pool, taken: set<Req>, c: Conn)
    requires Ok(p, taken) && c in Elems(p.busy)
    ensures p.resolved && c !in Elems(p.connecting)
  {
  }

  lemma OnResponseKeeps(p: Pool, c: Conn, keepAlive: bool, n: nat)
    requires Inv(p) && c in p.callback
    ensures Inv(OnResponse(p, c, keepAlive, n))
  {
    hide Ok, Elems, OnFree, Complete;
    var r := p.callback[c];
    TakeKeeps(p, c, p.busyFlag - {c}, p.doneFlag + {c});
    var q := Take(p.(busyFlag := p.busyFlag - {c}, doneFlag := p.doneFlag + {c}), c);
    BusyMeansResolved(q, {r}, c);
    if keepAlive { OnFreeKeeps(q, {r}, c); }
    CompleteKeeps(if keepAlive then OnFree(q, c) else q, {r}, r, Delivered, n);
    OnlyOne(r);
  }

  lemma OnMalformedKeeps(p: Pool, c: Conn, n: nat)
    requires Inv(p) && c in p.callback
    ensures Inv(OnMalformed(p, c, n))
  {
    hide Ok, Elems, Complete;
    var r := p.callback[c];
    TakeKeeps(p, c, p.busyFlag, p.doneFlag);
    CompleteKeeps(Take(p, c), {r}, r, MalformedResponse, n);
    OnlyOne(r);
  }

  lemma HeldFlags(p: Pool, c: Conn)
    requires Inv(p)
    ensures c in p.callback ==> c in p.busyFlag && c !in p.doneFlag
    ensures c !in p.callback ==> Inv(p.(busyFlag := p.busyFlag - {c}, doneFlag := p.doneFlag + {c}))
  {
    hide Lists, Fifo, PlacesOk, Elems;
    if c !in p.callback {
      var q := p.(busyFlag := p.busyFlag - {c}, doneFlag := p.doneFlag + {c});
      assert PlacesOk(q, {}) by { SamePlaces(p, q); }
    }
  }

  lemma SamePlaces(p: Pool, q: Pool)
    requires PlacesOk(p, {}) && q == p.(busyFlag := q.busyFlag, doneFlag := q.doneFlag)
    ensures PlacesOk(q, {})
  {
    hide Placed;
  }

  lemma OnDisconnectKeeps(p: Pool, c: Conn, eofBody: bool, n: nat)
    requires Inv(p) && c !in Elems(p.connecting)
    ensures Inv(OnDisconnect(p, c, eofBody, n))
  {
    hide Ok, Elems, Complete, OnClosed;
    HeldFlags(p, c);
    if c in p.callback {
      var r := p.callback[c];
      var e := if eofBody then DeliveredAtEof else ClosedEarly;
      TakeKeeps(p, c, p.busyFlag - {c}, p.doneFlag + {c});
      var q := Take(p.(busyFlag := p.busyFlag - {c}, doneFlag := p.doneFlag + {c}), c);
      CompleteKeeps(q, {r}, r, e, n);
      CompleteSpares(q, {r}, r, e, n, c);
      OnlyOne(r);
      BusyMeansResolved(Complete(q, r, e, n), {}, c);
      OnClosedKeeps(Complete(q, r, e, n), c);
    } else if c in p.busyFlag && c !in p.doneFlag {
      OnClosedKeeps(p.(busyFlag := p.busyFlag - {c}, doneFlag := p.doneFlag + {c}), c);
    } else {
      OnClosedKeeps(p, c);
    }
  }

  lemma OnEvictKeeps(p: Pool, stale: set<Conn>)
    requires Inv(p)
    ensures Inv(OnEvict(p, stale))
  {
    hide Elems, Distinct, Fifo, Placed, Fired, FiredOnce, Keep;
    KeepElems(p.idle, stale);
  }

  // ---- The end of a name lookup --------------------------------------------------------------

  lemma TakeAllPlaces(p: Pool)
    requires PlacesOk(p, {})
    ensures Placed(TakeAll(p).place, p.submitted, {}, Elems(p.queue), p.pending, p.callback, Fired(p.completed), Elems(p.waiting))
  {
    hide Elems, Fired, FiredOnce;
    var place := TakeAll(p).place;
    assert Holds(place, AtDns, {});
    assert Holds(place, Queued, Elems(p.queue));
    assert Holds(place, Done, Fired(p.completed));
    assert Holds(place, Taken, Elems(p.waiting));
    assert PendingMatch(place, p.pending);
    assert FlightMatch(place, p.callback);
  }

  lemma TakeAllKeeps(p: Pool, ok: bool)
    requires Inv(p) && !p.resolved
    ensures Ok(TakeAll(p).(resolved := ok), Elems(p.waiting))
  {
    hide Elems, Lists, Held, Placed, Fired, FiredOnce, Sorted;
    EmptyElems<Req>();
    TakeAllPlaces(p);
  }

  ghost predicate AllNext(p: Pool, rs: seq<Req>) {
    Sorted(rs) && forall x :: x in Elems(rs) ==> Next(p.served, p.queue, p.submitted, x)
  }

  lemma StillNext(p: Pool, rs: seq<Req>)
    requires AllNext(p, rs) && rs != []
    ensures rs[0] in Elems(rs) && Next(p.served, p.queue, p.submitted, rs[0])
    ensures AllNext(Dispatch(p, rs[0]), rs[1..]) && Elems(rs[1..]) == Elems(rs) - {rs[0]}
  {
    hide Elems, Sorted;
    DropFirst(rs);
    AddLast(p.served, rs[0]);
    AddLast(p.queue, rs[0]);
  }

  lemma {:induction false} DispatchAllKeeps(p: Pool, rs: seq<Req>)
    requires Ok(p, Elems(rs)) && p.resolved && AllNext(p, rs)
    ensures Inv(DispatchAll(p, rs))
    decreases |rs|
  {
    hide Ok, Elems, AllNext, Next;
    if rs == [] {
      EmptyElems<Req>();
    } else {
      StillNext(p, rs);
      DispatchKeeps(p, Elems(rs), rs[0]);
      DispatchAllKeeps(Dispatch(p, rs[0]), rs[1..]);
    }
  }

  lemma {:induction false} FailAllKeeps(p: Pool, rs: seq<Req>, ns: seq<nat>)
    requires Ok(p, Elems(rs)) && Sorted(rs) && |ns| == |rs|
    ensures Inv(FailAll(p, rs, ns))
    decreases |rs|
  {
    hide Ok, Elems, Sorted, Complete;
    if rs == [] {
      EmptyElems<Req>();
    } else {
      DropFirst(rs);
      CompleteKeeps(p, Elems(rs), rs[0], DnsFailed, ns[0]);
      FailAllKeeps(Complete(p, rs[0], DnsFailed, ns[0]), rs[1..], ns[1..]);
    }
  }

  lemma OnResolvedKeeps(p: Pool, ok: bool, ns: seq<nat>)
    requires Inv(p) && p.resolving && |ns| == |p.waiting|
    ensures Inv(OnResolved(p, ok, ns))
  {
    hide ConnsOk, PlacesOk, Sorted, Elems, DispatchAll, FailAll;
    TakeAllKeeps(p, ok);
    EmptyElems<Req>();
    if ok {
      DispatchAllKeeps(TakeAll(p).(resolved := true), p.waiting);
    } else {
      FailAllKeeps(TakeAll(p), p.waiting, ns);
    }
  }

  // ---- Every run --------------------------------------------------------------------------------

  /** What can happen to the pool.  A user callback that runs inside an event submits
      `n` further requests. */
  datatype Event =
    | Request
    | Resolved(ok: bool, ns: seq<nat>)
    | Ready(c: Conn)
    | Response(c: Conn, keepAlive: bool, n: nat)
    | Malformed(c: Conn, n: nat)
    | Closed(c: Conn, eofBody: bool, n: nat)
    | Evict(stale: set<Conn>)

  /** Connections become ready once, after which they may close, even repeatedly;
      responses come only on connections that carry a request. */
  ghost predicate Enabled(p: Pool, e: Event) {
    match e
    case Request => true
    case Resolved(_, ns) => p.resolving && |ns| == |p.waiting|
    case Ready(c) => c in Elems(p.connecting)
    case Response(c, _, _) => c in p.callback
    case Malformed(c, _) => c in p.callback
    case Closed(c, _, _) => c !in Elems(p.connecting)
    case Evict(_) => true
  }

  function Apply(p: Pool, e: Event): Pool
    requires e.Resolved? ==> |e.ns| == |p.waiting|
  {
    match e
    case Request => Submit(p)
    case Resolved(ok, ns) => OnResolved(p, ok, ns)
    case Ready(c) => OnReady(p, c)
    case Response(c, keepAlive, n) => OnResponse(p, c, keepAlive, n)
    case Malformed(c, n) => OnMalformed(p, c, n)
    case Closed(c, eofBody, n) => OnDisconnect(p, c, eofBody, n)
    case Evict(stale) => OnEvict(p, stale)
  }

  /** A literal origin starts resolved, a host name does not. */
  function Init(cap: nat, resolved: bool): Pool {
    Pool(cap, [], [], [], map[], [], resolved, false, [], map[], {}, {}, 0, 0, [], [], map[])
  }

  ghost predicate Run(p: Pool, es: seq<Event>, q: Pool)
    decreases |es|
  {
    if es == [] then q == p
    else Enabled(p, es[0]) && Run(Apply(p, es[0]), es[1..], q)
  }

  lemma InitOk(cap: nat, resolved: bool)
    requires cap > 0
    ensures Inv(Init(cap, resolved))
  {
    EmptyElems<Req>();
    assert Fired([]) == {};
  }

  lemma StepKeeps(p: Pool, e: Event)
    requires Inv(p) && Enabled(p, e)
    ensures Inv(Apply(p, e))
  {
    hide Ok, Elems, Submit, OnResolved, OnReady, OnResponse, OnMalformed, OnDisconnect, OnEvict;
    match e
    case Request => SubmitKeeps(p, {});
    case Resolved(ok, ns) => OnResolvedKeeps(p, ok, ns);
    case Ready(c) => OnReadyKeeps(p, c);
    case Response(c, keepAlive, n) => OnResponseKeeps(p, c, keepAlive, n);
    case Malformed(c, n) => OnMalformedKeeps(p, c, n);
    case Closed(c, eofBody, n) => OnDisconnectKeeps(p, c, eofBody, n);
    case Evict(stale) => OnEvictKeeps(p, stale);
  }

  lemma {:induction false} RunKeeps(p: Pool, es: seq<Event>, q: Pool)
    requires Inv(p) && Run(p, es, q)
    ensures Inv(q)
    decreases |es|
  {
    if es != [] {
      StepKeeps(p, es[0]);
      RunKeeps(Apply(p, es[0]), es[1..], q);
    }
  }

  /** Every run of a pool from its construction keeps every rule. */
  lemma PoolTheorem(cap: nat, resolved: bool, es: seq<Event>, q: Pool)
    requires cap > 0 && Run(Init(cap, resolved), es, q)
    ensures Inv(q)
  {
    InitOk(cap, resolved);
    RunKeeps(Init(cap, resolved), es, q);
  }

  // ---- What the invariant gives ----------------------------------------------------------------

  /** A submitted request is in one place only, and there it can be found: in the
      lookup's line, in the queue, with one connecting connection, in flight on one
      connection, or its callback has run exactly once. */
  lemma OnePlace(p: Pool, r: Req)
    requires Inv(p)
    ensures r < p.submitted <==> r in p.place
    ensures r in p.place ==> !p.place[r].Taken?
    ensures r in Elems(p.waiting) <==> r in p.place && p.place[r] == AtDns
    ensures r in Elems(p.queue) <==> r in p.place && p.place[r] == Queued
    ensures forall c :: c in p.pending && p.pending[c] == r <==> r in p.place && p.place[r] == PendingOn(c)
    ensures forall c :: c in p.callback && p.callback[c] == r <==> r in p.place && p.place[r] == InFlight(c)
    ensures r in Fired(p.completed) <==> r in p.place && p.place[r] == Done
    ensures forall i, j :: 0 <= i < |p.completed| && 0 <= j < |p.completed| && p.completed[i].0 == p.completed[j].0 ==> i == j
  {
    hide Elems, Fired;
  }

  /** Nothing is lost: once no connection works and no lookup is awaited, every
      submitted request has had its callback. */
  lemma NothingLost(p: Pool, r: Req)
    requires Inv(p) && p.busy == [] && p.connecting == [] && p.waiting == [] && r < p.submitted
    ensures r in Fired(p.completed)
  {
    hide Fired;
    EmptyElems<Req>();
    assert p.queue == [];
    OnePlace(p, r);
    assert p.pending.Keys == {} && p.callback.Keys == {};
  }

  // Which callbacks an event runs, and with what ending.

  lemma {:induction false} SubmitManyRunsNone(p: Pool, n: nat)
    ensures SubmitMany(p, n).completed == p.completed
    decreases n
  {
    if n > 0 { SubmitManyRunsNone(Submit(p), n - 1); }
  }

  lemma {:induction false} DispatchAllRunsNone(p: Pool, rs: seq<Req>)
    ensures DispatchAll(p, rs).completed == p.completed
    decreases |rs|
  {
    if rs != [] { DispatchAllRunsNone(Dispatch(p, rs[0]), rs[1..]); }
  }

  function Failures(rs: seq<Req>): seq<(Req, Ending)> {
    seq(|rs|, i requires 0 <= i < |rs| => (rs[i], DnsFailed))
  }

  lemma {:induction false} FailAllRunsAll(p: Pool, rs: seq<Req>, ns: seq<nat>)
    requires |ns| == |rs|
    ensures FailAll(p, rs, ns).completed == p.completed + Failures(rs)
    decreases |rs|
  {
    hide SubmitMany;
    if rs == [] {
      assert p.completed + Failures(rs) == p.completed;
    } else {
      SubmitManyRunsNone(RunCallback(p, rs[0], DnsFailed), ns[0]);
      FailAllRunsAll(Complete(p, rs[0], DnsFailed, ns[0]), rs[1..], ns[1..]);
      assert Failures(rs) == [(rs[0], DnsFailed)] + Failures(rs[1..]);
      assert p.completed + [(rs[0], DnsFailed)] + Failures(rs[1..]) == p.completed + ([(rs[0], DnsFailed)] + Failures(rs[1..]));
    }
  }

  /** The callback of the request in flight on a connection. */
  function OwnCallback(p: Pool, c: Conn, e: Ending): seq<(Req, Ending)> {
    if c in p.callback then [(p.callback[c], e)] else []
  }

  /** What the user is told, event by event. */
  function Told(p: Pool, e: Event): seq<(Req, Ending)> {
    match e
    case Resolved(ok, _) => if ok then [] else Failures(p.waiting)
    case Response(c, _, _) => OwnCallback(p, c, Delivered)
    case Malformed(c, _) => OwnCallback(p, c, MalformedResponse)
    case Closed(c, eofBody, _) => OwnCallback(p, c, if eofBody then DeliveredAtEof else ClosedEarly)
    case _ => []
  }

  /** An event runs exactly these callbacks, once each and in this order; requests
      that the callbacks submit do not run any. */
  lemma StepTells(p: Pool, e: Event)
    requires Inv(p) && Enabled(p, e)
    ensures Apply(p, e).completed == p.completed + Told(p, e)
  {
    hide Complete, DispatchAll, FailAll, OnFree, OnClosed, OnReady, Submit, OnEvict, Elems, Ok, Failures;
    SilentSteps(p);
    match e
    case Resolved(ok, ns) =>
      DispatchAllRunsNone(TakeAll(p).(resolved := true), p.waiting);
      FailAllRunsAll(TakeAll(p), p.waiting, ns);
    case Ready(c) => SilentReady(p, c);
    case Response(c, keepAlive, n) =>
      var q := Take(p.(busyFlag := p.busyFlag - {c}, doneFlag := p.doneFlag + {c}), c);
      SilentFree(q, c);
      CompleteTells(if keepAlive then OnFree(q, c) else q, p.callback[c], Delivered, n);
    case Malformed(c, n) => CompleteTells(Take(p, c), p.callback[c], MalformedResponse, n);
    case Closed(c, eofBody, n) => DisconnectTells(p, c, eofBody, n);
    case Evict(stale) => SilentEvict(p, stale);
    case Request =>
  }

  lemma DisconnectTells(p: Pool, c: Conn, eofBody: bool, n: nat)
    requires Inv(p)
    ensures OnDisconnect(p, c, eofBody, n).completed
         == p.completed + OwnCallback(p, c, if eofBody then DeliveredAtEof else ClosedEarly)
  {
    hide Complete, OnClosed, Ok;
    HeldFlags(p, c);
    var q := Take(p.(busyFlag := p.busyFlag - {c}, doneFlag := p.doneFlag + {c}), c);
    SilentClose(p, c);
    SilentClose(q, c);
    if c in p.callback {
      var e := if eofBody then DeliveredAtEof else ClosedEarly;
      CompleteTells(q, p.callback[c], e, n);
      SilentClose(Complete(q, p.callback[c], e, n), c);
    }
  }

  lemma CompleteTells(p: Pool, r: Req, e: Ending, n: nat)
    ensures Complete(p, r, e, n).completed == p.completed + [(r, e)]
  {
    hide SubmitMany;
    SubmitManyRunsNone(RunCallback(p, r, e), n);
  }

  lemma SilentSteps(p: Pool)
    ensures Submit(p).completed == p.completed
  {
  }

  lemma SilentEvict(p: Pool, stale: set<Conn>)
    ensures OnEvict(p, stale).completed == p.completed
  {
  }

  lemma SilentFree(p: Pool, c: Conn)
    ensures OnFree(p, c).completed == p.completed
  {
    hide Remove;
  }

  lemma SilentReady(p: Pool, c: Conn)
    ensures OnReady(p, c).completed == p.completed
  {
    hide Remove;
  }

  lemma SilentClose(p: Pool, c: Conn)
    ensures OnClosed(p, c).completed == p.completed
  {
    hide Remove, Total;
  }

  // ---- What the pool relies on -------------------------------------------------------------------

  /** A close is safe exactly when the connection is not still connecting: otherwise
      the request pending on it is forgotten. */
  lemma CloseIsSafeIff(p: Pool, c: Conn, eofBody: bool, n: nat)
    requires Inv(p)
    ensures Inv(OnDisconnect(p, c, eofBody, n)) <==> c !in Elems(p.connecting)
  {
    if c !in Elems(p.connecting) {
      OnDisconnectKeeps(p, c, eofBody, n);
    } else {
      EarlyCloseForgets(p, c, eofBody, n);
    }
  }

  lemma EarlyCloseForgets(p: Pool, c: Conn, eofBody: bool, n: nat)
    requires Inv(p) && c in Elems(p.connecting)
    ensures !Inv(OnDisconnect(p, c, eofBody, n))
  {
    hide Inv, Elems, OnClosed, Complete;
    ListsApart(p, c);
    HeldFlags(p, c);
    OnClosedForgets(p, c);
    OnClosedForgets(p.(busyFlag := p.busyFlag - {c}, doneFlag := p.doneFlag + {c}), c);
  }

  lemma OnClosedForgets(p: Pool, c: Conn)
    requires Inv(p) && c in Elems(p.connecting)
    ensures !Inv(OnClosed(p, c))
  {
    hide Elems, Lists, Fifo, Fired, FiredOnce, Remove;
    ListsApart(p, c);
    IsPending(p, {}, c);
    if p.queue != [] {
      FifoServe(p.served, p.queue, p.waiting, p.submitted);
      IsQueued(p, {}, p.queue[0]);
    }
    var q, r := OnClosed(p, c), p.pending[c];
    assert r in q.place && q.place[r] == PendingOn(c) && c !in q.pending;
  }

  lemma ListsApart(p: Pool, c: Conn)
    requires Inv(p) && c in Elems(p.connecting)
    ensures c < p.created && c !in p.callback
  {
    hide Elems;
  }

  /** A connection that the pool no longer lists may be taken in as idle: it was
      created, nothing waits, and there is room for it. */
  ghost predicate Adoptable(p: Pool, c: Conn) {
    && c < p.created && c !in Elems(p.idle) && c !in Elems(p.connecting)
    && p.queue == [] && Total(p) < p.cap && p.resolved
  }

  /** The connection has a request in flight, or is to be closed, or is still listed as
      busy, or can be taken in. */
  ghost predicate ResponseSafe(p: Pool, c: Conn, keepAlive: bool) {
    c in p.callback || !keepAlive || c in Elems(p.busy) || Adoptable(p, c)
  }

  /** A complete response keeps the rules exactly then. */
  lemma ResponseIsSafeIff(p: Pool, c: Conn, keepAlive: bool, n: nat)
    requires Inv(p)
    ensures Inv(OnResponse(p, c, keepAlive, n)) <==> ResponseSafe(p, c, keepAlive)
  {
    hide Ok, Elems, OnFree, Complete, Adoptable;
    if c in p.callback {
      OnResponseKeeps(p, c, keepAlive, n);
    } else {
      var q := p.(busyFlag := p.busyFlag - {c}, doneFlag := p.doneFlag + {c});
      HeldFlags(p, c);
      assert OnResponse(p, c, keepAlive, n) == if keepAlive then OnFree(q, c) else q;
      if keepAlive {
        if c in Elems(p.busy) {
          BusyMeansResolved(q, {}, c);
          OnFreeKeeps(q, {}, c);
        } else {
          StrayFree(q, c);
          assert Adoptable(q, c) <==> Adoptable(p, c) by { SameLists(p, q, c); }
        }
      }
    }
  }

  lemma SameLists(p: Pool, q: Pool, c: Conn)
    requires q == p.(busyFlag := q.busyFlag, doneFlag := q.doneFlag)
    ensures Adoptable(q, c) <==> Adoptable(p, c)
  {
  }

  /** Freeing a connection that is not busy. */
  lemma StrayFree(p: Pool, c: Conn)
    requires Inv(p) && c !in Elems(p.busy)
    ensures Inv(OnFree(p, c)) <==> Adoptable(p, c)
  {
    hide Elems, Distinct, Fifo, Placed, Fired, FiredOnce, Remove;
    RemoveElems(p.busy, c);
    AddLast(Remove(p.busy, c), c);
    AddLast(p.idle, c);
    LastOfDistinct(p.idle, c);
    EmptyElems<Conn>();
  }

  lemma LastOfDistinct(v: seq<Conn>, c: Conn)
    ensures Distinct(v + [c]) ==> c !in Elems(v)
  {
    if c in Elems(v) {
      var i :| 0 <= i < |v| && v[i] == c;
      assert (v + [c])[i] == (v + [c])[|v|];
    }
  }

  /** A complete response on an idle connection, which no request asked for, lists
      that connection as idle twice. */
  lemma UnsolicitedResponseDuplicates()
    ensures exists es, q :: Run(Init(1, true), es, q) && Inv(q) && q.idle == [0] && OnResponse(q, 0, true, 0).idle == [0, 0]
  {
    hide Inv;
    var p0 := Init(1, true);
    var p1 := Apply(p0, Request);
    var p2 := Apply(p1, Ready(0));
    var q := Apply(p2, Response(0, true, 0));
    assert p1.connecting == [0] && p1.pending == map[0 := 0];
    assert p2.busy == [0] && p2.callback == map[0 := 0] && p2.idle == [] && p2.queue == [];
    assert q.idle == [0] && q.busy == [] && q.queue == [] && 0 !in q.callback;
    var es := [Request, Ready(0), Response(0, true, 0)];
    assert es[1..][1..] == [es[2]] && es[2..][1..] == [];
    assert Run(p2, [es[2]], q);
    assert Run(p1, es[1..], q);
    assert Run(p0, es, q);
    PoolTheorem(1, true, es, q);
    assert OnResponse(q, 0, true, 0).idle == [0, 0];
  }
}
