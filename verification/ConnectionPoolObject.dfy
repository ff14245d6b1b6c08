/** The pool and its connections as the objects they are.  A connection holds its own
    callback and flags, and the pool holds lists of connection objects; `Valid` ties
    them to a pool of `ConnectionPool`.  Every event keeps the pool's rules, and so
    does every history of events. */
module ConnectionPoolObject {

  import opened Text
  import opened Elements
  import opened ConnectionPool
  import opened PoolEvents

  const WORD := 0x1_0000_0000_0000_0000

  class PooledConn {
    const id: Conn
    var callback: Option<Req>
    var busy: bool
    var done: bool
    var lastUsed: nat

    constructor (id: Conn)
      ensures this.id == id && callback == None && !busy && !done
    {
      this.id := id;
      callback, busy, done, lastUsed := None, false, false, 0;
    }

    method Start(r: Req)
      modifies this
      ensures callback == Some(r) && busy && !done && lastUsed == old(lastUsed)
    {
      busy, done := true, false;
      callback := Some(r);
    }

    method TakeCallback() returns (cb: Option<Req>)
      modifies this`callback
      ensures cb == old(callback) && callback == None
    {
      cb := callback;
      callback := None;
    }

    /** Time on the idle list in milliseconds; the clock difference is unsigned. */
    function IdleMillis(now: nat): nat
      reads this
    {
      ((now - lastUsed) % WORD) / 1000
    }
  }

  // ---- Lists of connections ------------------------------------------------------------------

  function Ids(v: seq<PooledConn>): seq<Conn> {
    seq(|v|, i requires 0 <= i < |v| => v[i].id)
  }

  /** The object is told by its identity. */
  ghost predicate Tells(v: seq<PooledConn>, c: PooledConn) {
    forall x :: x in v && x.id == c.id ==> x == c
  }

  lemma RemoveAt(v: seq<Conn>, i: nat, c: Conn)
    requires i < |v|
    ensures Remove(v[i..], c) == if v[i] == c then v[i + 1..] else [v[i]] + Remove(v[i + 1..], c)
  {
    assert v[i..][1..] == v[i + 1..];
  }

  /** Searches for the object from the front and erases the first match. */
  method RemoveFrom(v: seq<PooledConn>, c: PooledConn) returns (r: seq<PooledConn>)
    requires Tells(v, c)
    ensures Ids(r) == Remove(Ids(v), c.id) && forall x :: x in r ==> x in v
  {
    hide Remove;
    ghost var ids := Ids(v);
    assert ids[0..] == ids;
    for i := 0 to |v|
      invariant Remove(ids, c.id) == ids[..i] + Remove(ids[i..], c.id)
    {
      RemoveAt(ids, i, c.id);
      if v[i] == c {
        r := v[..i] + v[i + 1..];
        assert Ids(r) == ids[..i] + ids[i + 1..];
        return;
      }
      assert v[i] in v;
      assert ids[..i] + ([ids[i]] + Remove(ids[i + 1..], c.id)) == ids[..i + 1] + Remove(ids[i + 1..], c.id);
    }
    r := v;
    assert ids[|v|..] == [] && ids[..|v|] == ids;
    RemoveNothing(c.id);
  }

  lemma RemoveNothing(c: Conn)
    ensures Remove([], c) == []
  {
  }

  /** Removing connections one by one, in the order given. */
  function RemoveEach(v: seq<Conn>, cs: seq<Conn>): seq<Conn>
    decreases |cs|
  {
    if cs == [] then v else RemoveEach(Remove(v, cs[0]), cs[1..])
  }

  /** The stale ones of a list, in its order. */
  function Picked(v: seq<Conn>, stale: set<Conn>): seq<Conn> {
    if v == [] then [] else (if v[0] in stale then [v[0]] else []) + Picked(v[1..], stale)
  }

  lemma {:induction false} RemoveEachPast(x: Conn, v: seq<Conn>, cs: seq<Conn>)
    requires x !in cs
    ensures RemoveEach([x] + v, cs) == [x] + RemoveEach(v, cs)
    decreases |cs|
  {
    if cs != [] {
      assert ([x] + v)[1..] == v;
      RemoveEachPast(x, Remove(v, cs[0]), cs[1..]);
    }
  }

  lemma {:induction false} PickedAreStale(v: seq<Conn>, stale: set<Conn>, x: Conn)
    requires x !in stale
    ensures x !in Picked(v, stale)
  {
    if v != [] { PickedAreStale(v[1..], stale, x); }
  }

  /** Removing the stale ones, once each as they were picked, keeps the others in order. */
  lemma {:induction false} RemovePicked(v: seq<Conn>, stale: set<Conn>)
    ensures RemoveEach(v, Picked(v, stale)) == Keep(v, stale)
  {
    if v != [] {
      var t, cs := v[1..], Picked(v[1..], stale);
      RemovePicked(t, stale);
      assert v == [v[0]] + t;
      if v[0] in stale {
        assert ([v[0]] + cs)[1..] == cs && Keep(v, stale) == Keep(t, stale);
      } else {
        PickedAreStale(t, stale, v[0]);
        RemoveEachPast(v[0], t, cs);
        assert Picked(v, stale) == cs;
      }
    }
  }

  lemma PickedAt(v: seq<Conn>, stale: set<Conn>, i: nat)
    requires i < |v|
    ensures Picked(v[i..], stale) == (if v[i] in stale then [v[i]] else []) + Picked(v[i + 1..], stale)
    ensures Picked([], stale) == []
  {
    assert v[i..][1..] == v[i + 1..];
  }

  ghost predicate LateIs(c: PooledConn, now: nat, timeout: nat)
    reads c
  {
    c.IdleMillis(now) > timeout * 1000
  }

  /** More than the timeout in whole milliseconds; a clock that was set back makes the
      unsigned difference large, and the connection late. */
  lemma LateIff(c: PooledConn, now: nat, timeout: nat)
    requires now < WORD && c.lastUsed < WORD
    ensures var gone := if c.lastUsed <= now then now - c.lastUsed else WORD - (c.lastUsed - now);
            LateIs(c, now, timeout) <==> gone >= (timeout * 1000 + 1) * 1000
  {
    var gone := if c.lastUsed <= now then now - c.lastUsed else WORD - (c.lastUsed - now);
    assert (now - c.lastUsed) % WORD == gone;
    assert gone == 1000 * (gone / 1000) + gone % 1000;
  }

  ghost function Late(v: seq<PooledConn>, now: nat, timeout: nat): set<Conn>
    reads v
  {
    set c | c in v && LateIs(c, now, timeout) :: c.id
  }

  method PickLate(v: seq<PooledConn>, now: nat, timeout: nat) returns (late: seq<PooledConn>)
    requires forall c :: c in v ==> Tells(v, c)
    ensures Ids(late) == Picked(Ids(v), Late(v, now, timeout)) && forall c :: c in late ==> c in v
  {
    hide Picked, PooledConn.IdleMillis;
    late := [];
    ghost var ids, stale := Ids(v), Late(v, now, timeout);
    assert ids[0..] == ids;
    for i := 0 to |v|
      invariant Picked(ids, stale) == Ids(late) + Picked(ids[i..], stale)
      invariant forall c :: c in late ==> c in v
    {
      PickedAt(ids, stale, i);
      ghost var before, rest := Ids(late), Picked(ids[i + 1..], stale);
      assert v[i] in v && Tells(v, v[i]);
      if v[i].IdleMillis(now) > timeout * 1000 {
        late := late + [v[i]];
        assert LateIs(v[i], now, timeout) && ids[i] in stale;
        assert Ids(late) == before + [ids[i]] && before + ([ids[i]] + rest) == Ids(late) + rest;
      } else {
        assert ids[i] !in stale;
        assert before + ([] + rest) == Ids(late) + rest;
      }
    }
    assert ids[|v|..] == [];
    NonePicked(stale);
  }

  lemma NonePicked(stale: set<Conn>)
    ensures Picked([], stale) == []
  {
  }

  method RemoveAll(v: seq<PooledConn>, cs: seq<PooledConn>) returns (r: seq<PooledConn>)
    requires forall c :: c in cs ==> Tells(v, c)
    ensures Ids(r) == RemoveEach(Ids(v), Ids(cs)) && forall x :: x in r ==> x in v
  {
    r := v;
    ghost var ids := Ids(cs);
    for i := 0 to |cs|
      invariant RemoveEach(Ids(r), ids[i..]) == RemoveEach(Ids(v), ids)
      invariant forall x :: x in r ==> x in v
    {
      assert ids[i..][1..] == ids[i + 1..];
      assert Tells(v, cs[i]);
      r := RemoveFrom(r, cs[i]);
    }
  }

  // ---- What the objects stand for ---------------------------------------------------------------

  type Conns = map<Conn, PooledConn>

  /** Connections are numbered in the order they were made. */
  ghost predicate Numbered(conns: Conns, created: Conn) {
    && (forall i :: i in conns <==> i < created)
    && (forall i :: i in conns ==> conns[i].id == i)
  }

  ghost predicate Knows(conns: Conns, c: PooledConn) {
    c.id in conns && conns[c.id] == c
  }

  ghost predicate Listed(conns: Conns, v: seq<PooledConn>, ids: seq<Conn>) {
    Ids(v) == ids && forall c :: c in v ==> Knows(conns, c)
  }

  /** Every connection holds the callback and the flags that the model records for it. */
  ghost predicate Carries(c: PooledConn, callback: map<Conn, Req>, busyFlag: set<Conn>, doneFlag: set<Conn>)
    reads c
  {
    && c.callback == (if c.id in callback then Some(callback[c.id]) else None)
    && (c.busy <==> c.id in busyFlag) && (c.done <==> c.id in doneFlag)
  }

  ghost predicate AllCarry(conns: Conns, callback: map<Conn, Req>, busyFlag: set<Conn>, doneFlag: set<Conn>)
    reads conns.Values
  {
    && (forall i :: i in conns ==> Carries(conns[i], callback, busyFlag, doneFlag))
    && callback.Keys <= conns.Keys && busyFlag <= conns.Keys && doneFlag <= conns.Keys
  }

  ghost predicate Awaits(conns: Conns, pending: map<PooledConn, Req>, model: map<Conn, Req>) {
    && (forall c :: c in pending ==> Knows(conns, c) && c.id in model && model[c.id] == pending[c])
    && (forall i :: i in model ==> i in conns && conns[i] in pending)
  }

  lemma KnownTells(conns: Conns, v: seq<PooledConn>, ids: seq<Conn>, c: PooledConn)
    requires Listed(conns, v, ids) && Knows(conns, c)
    ensures Tells(v, c)
  {
  }

  lemma ListedAdd(conns: Conns, v: seq<PooledConn>, ids: seq<Conn>, c: PooledConn)
    requires Listed(conns, v, ids) && Knows(conns, c)
    ensures Listed(conns, v + [c], ids + [c.id])
  {
  }

  lemma ListedInit(conns: Conns, v: seq<PooledConn>, ids: seq<Conn>, n: nat)
    requires Listed(conns, v, ids) && n < |v|
    ensures |ids| == |v| && Listed(conns, v[..n], ids[..n]) && v[n].id == ids[n] && Knows(conns, v[n])
  {
    assert v[n] in v;
  }

  lemma ListedSome(conns: Conns, v: seq<PooledConn>, ids: seq<Conn>, r: seq<PooledConn>, rs: seq<Conn>)
    requires Listed(conns, v, ids) && Ids(r) == rs && forall x :: x in r ==> x in v
    ensures Listed(conns, r, rs)
  {
  }

  /** A new connection changes nothing for the others. */
  lemma ListedGrow(conns: Conns, v: seq<PooledConn>, ids: seq<Conn>, c: PooledConn)
    requires Listed(conns, v, ids) && c.id !in conns
    ensures Listed(conns[c.id := c], v, ids)
  {
  }

  lemma Register(conns: Conns, created: Conn, c: PooledConn, callback: map<Conn, Req>, busyFlag: set<Conn>, doneFlag: set<Conn>)
    requires Numbered(conns, created) && c.id == created && AllCarry(conns, callback, busyFlag, doneFlag)
    requires c.callback == None && !c.busy && !c.done
    ensures Numbered(conns[created := c], created + 1) && Knows(conns[created := c], c)
    ensures AllCarry(conns[created := c], callback, busyFlag, doneFlag)
  {
  }

  lemma AwaitsAdd(conns: Conns, pending: map<PooledConn, Req>, model: map<Conn, Req>, c: PooledConn, r: Req)
    requires Awaits(conns, pending, model) && c.id !in conns
    ensures Awaits(conns[c.id := c], pending[c := r], model[c.id := r])
  {
  }

  lemma AwaitsDrop(conns: Conns, created: Conn, pending: map<PooledConn, Req>, model: map<Conn, Req>, c: PooledConn)
    requires Numbered(conns, created) && Awaits(conns, pending, model) && Knows(conns, c)
    ensures Awaits(conns, pending - {c}, model - {c.id}) && (c in pending <==> c.id in model)
  {
  }

  lemma NotMade(conns: Conns, created: Conn)
    requires Numbered(conns, created)
    ensures created !in conns
  {
  }

  lemma ListedLengths(conns: Conns, idle: seq<PooledConn>, busy: seq<PooledConn>, connecting: seq<PooledConn>, p: Pool)
    requires Listed(conns, idle, p.idle) && Listed(conns, busy, p.busy) && Listed(conns, connecting, p.connecting)
    ensures |idle| == |p.idle| && |idle| + |busy| + |connecting| == Total(p)
  {
  }

  lemma PendingRequest(conns: Conns, pending: map<PooledConn, Req>, model: map<Conn, Req>, c: PooledConn)
    requires Awaits(conns, pending, model) && c in pending
    ensures c.id in model && model[c.id] == pending[c]
  {
  }

  lemma OwnFlags(conns: Conns, c: PooledConn, callback: map<Conn, Req>, busyFlag: set<Conn>, doneFlag: set<Conn>)
    requires AllCarry(conns, callback, busyFlag, doneFlag) && Knows(conns, c)
    ensures (c.busy <==> c.id in busyFlag) && (c.done <==> c.id in doneFlag)
  {
    assert Carries(conns[c.id], callback, busyFlag, doneFlag);
  }

  lemma MadeBefore(conns: Conns, created: Conn, c: PooledConn)
    requires Numbered(conns, created) && Knows(conns, c)
    ensures c.id < created
  {
  }

  lemma NotListed(conns: Conns, v: seq<PooledConn>, ids: seq<Conn>, c: PooledConn)
    requires Listed(conns, v, ids) && c.id !in Elems(ids)
    ensures c !in v
  {
    assert forall i :: 0 <= i < |v| ==> ids[i] == v[i].id && ids[i] in Elems(ids);
  }

  method RemoveKnown(ghost conns: Conns, v: seq<PooledConn>, ghost ids: seq<Conn>, c: PooledConn) returns (r: seq<PooledConn>)
    requires Listed(conns, v, ids) && Knows(conns, c)
    ensures Listed(conns, r, Remove(ids, c.id))
  {
    hide Remove;
    KnownTells(conns, v, ids, c);
    r := RemoveFrom(v, c);
    ListedSome(conns, v, ids, r, Remove(ids, c.id));
  }

  // ---- The pool ------------------------------------------------------------------------------

  class PoolImpl {
    const cap: nat
    // Every connection made, which the event loop may still call back for.
    var conns: Conns
    var idle: seq<PooledConn>
    var busy: seq<PooledConn>
    var connecting: seq<PooledConn>
    var pending: map<PooledConn, Req>
    var queue: seq<Req>
    var resolved: bool
    var resolving: bool
    var waiting: seq<Req>
    var created: Conn
    var submitted: Req
    // The pool that these objects stand for, with its history.
    ghost var model: Pool

    ghost predicate Valid()
      reads this, conns.Values
    {
      && Numbered(conns, created)
      && Listed(conns, idle, model.idle) && Listed(conns, busy, model.busy) && Listed(conns, connecting, model.connecting)
      && Awaits(conns, pending, model.pending)
      && AllCarry(conns, model.callback, model.busyFlag, model.doneFlag)
      && cap == model.cap && queue == model.queue && waiting == model.waiting
      && resolved == model.resolved && resolving == model.resolving
      && created == model.created && submitted == model.submitted
    }

    /** Connections are only ever added. */
    twostate predicate Grown()
      reads this
    {
      && (forall i :: i in old(conns) ==> i in conns && conns[i] == old(conns)[i])
      && (forall i :: i in conns && i !in old(conns) ==> fresh(conns[i]))
    }

    /** The pool has no reference to the connection left, and it holds no callback. */
    ghost predicate Dropped(c: PooledConn)
      reads this, c
    {
      c !in idle && c !in busy && c !in connecting && c !in pending && c.callback == None
    }

    lemma GoneIsDropped(c: PooledConn)
      requires Valid() && Knows(conns, c) && Gone(model, c.id)
      ensures Dropped(c)
    {
      hide Numbered, Elems;
      NotListed(conns, idle, model.idle, c);
      NotListed(conns, busy, model.busy, c);
      NotListed(conns, connecting, model.connecting, c);
      assert Carries(conns[c.id], model.callback, model.busyFlag, model.doneFlag);
    }

    constructor (cap: nat, resolved: bool)
      ensures Valid() && model == Init(cap, resolved) && conns == map[]
    {
      this.cap := cap;
      conns, idle, busy, connecting, pending, queue := map[], [], [], [], map[], [];
      this.resolved, resolving, waiting, created, submitted := resolved, false, [], 0, 0;
      model := Init(cap, resolved);
    }

    method StartOn(c: PooledConn, r: Req)
      requires Valid() && Knows(conns, c)
      modifies this`model, c
      ensures Valid() && model == Start(old(model), c.id, r)
    {
      hide Listed, Awaits;
      c.Start(r);
      model := Start(model, c.id, r);
      forall i | i in conns ensures Carries(conns[i], model.callback, model.busyFlag, model.doneFlag) {
        assert Carries(conns[i], old(model).callback, old(model).busyFlag, old(model).doneFlag) || conns[i] == c;
      }
    }

    /** Makes a connection for the request. */
    method OpenFor(r: Req)
      requires Valid()
      modifies this
      ensures Valid() && Grown() && model == Open(old(model), r)
    {
      hide Listed, Awaits, AllCarry, Numbered;
      var c := new PooledConn(created);
      ghost var before := conns;
      NotMade(before, created);
      Register(before, created, c, model.callback, model.busyFlag, model.doneFlag);
      ListedGrow(before, idle, model.idle, c);
      ListedGrow(before, busy, model.busy, c);
      ListedGrow(before, connecting, model.connecting, c);
      ListedAdd(before[created := c], connecting, model.connecting, c);
      AwaitsAdd(before, pending, model.pending, c, r);
      conns, pending, connecting := conns[created := c], pending[c := r], connecting + [c];
      created := created + 1;
      model := Open(model, r);
    }

    method ReuseLast(r: Req)
      requires Valid() && idle != []
      modifies this, conns.Values
      ensures Valid() && Grown() && old(model).idle != [] && model == Reuse(old(model), r)
    {
      hide Listed, Awaits, AllCarry, Numbered;
      var n := |idle| - 1;
      var c := idle[n];
      ListedInit(conns, idle, model.idle, n);
      ListedAdd(conns, busy, model.busy, c);
      idle, busy := idle[..n], busy + [c];
      model := model.(idle := model.idle[..n], busy := model.busy + [c.id], served := model.served + [r]);
      StartOn(c, r);
    }

    method DispatchRequest(r: Req)
      requires Valid()
      modifies this, conns.Values
      ensures Valid() && Grown() && model == Dispatch(old(model), r)
    {
      hide Listed, Awaits, AllCarry, Numbered, Reuse, Open;
      ListedLengths(conns, idle, busy, connecting, model);
      if idle != [] {
        ReuseLast(r);
        return;
      }
      if |idle| + |busy| + |connecting| < cap {
        OpenFor(r);
        return;
      }
      queue := queue + [r];
      model := Enqueue(model, r);
    }

    /** `request`, also from inside a user callback. */
    method SubmitOne()
      requires Valid()
      modifies this, conns.Values
      ensures Valid() && Grown() && model == Submit(old(model))
    {
      hide Listed, Awaits, AllCarry, Numbered, Dispatch;
      var r := submitted;
      submitted := r + 1;
      model := Arrive(model);
      if !resolved {
        waiting, resolving := waiting + [r], true;
        model := Park(model, r);
        return;
      }
      DispatchRequest(r);
    }

    /** A user callback, which may call back into the pool. */
    method Notify(r: Req, ghost e: Ending, n: nat)
      requires Valid()
      modifies this, conns.Values
      ensures Valid() && Grown() && model == Complete(old(model), r, e, n)
    {
      hide Listed, Awaits, AllCarry, Numbered, Submit;
      model := RunCallback(model, r, e);
      ghost var p := model;
      for i := 0 to n
        invariant Valid() && Grown()
        invariant SubmitMany(model, n - i) == SubmitMany(p, n)
      {
        SubmitOne();
      }
    }

    method TakeFrom(c: PooledConn) returns (cb: Option<Req>)
      requires Valid() && Knows(conns, c)
      modifies this`model, c`callback
      ensures Valid() && model == Take(old(model), c.id)
      ensures cb == if c.id in old(model).callback then Some(old(model).callback[c.id]) else None
    {
      hide Listed, Awaits;
      cb := c.TakeCallback();
      model := Take(model, c.id);
      forall i | i in conns ensures Carries(conns[i], model.callback, model.busyFlag, model.doneFlag) {
        assert Carries(conns[i], old(model).callback, old(model).busyFlag, old(model).doneFlag) || conns[i] == c;
      }
    }

    method MarkDone(c: PooledConn)
      requires Valid() && Knows(conns, c)
      modifies this`model, c`busy, c`done
      ensures Valid()
      ensures model == old(model).(busyFlag := old(model).busyFlag - {c.id}, doneFlag := old(model).doneFlag + {c.id})
    {
      hide Listed, Awaits;
      c.busy, c.done := false, true;
      model := model.(busyFlag := model.busyFlag - {c.id}, doneFlag := model.doneFlag + {c.id});
    }

    method Unlist(c: PooledConn)
      requires Valid() && Knows(conns, c)
      modifies this`busy, this`model
      ensures Valid() && model == old(model).(busy := Remove(old(model).busy, c.id))
    {
      hide Listed, Awaits, AllCarry, Numbered, Remove;
      var others := RemoveKnown(conns, busy, model.busy, c);
      busy := others;
      model := model.(busy := Remove(model.busy, c.id));
    }

    /** The head of the queue goes to this connection. */
    method ServeHead(c: PooledConn)
      requires Valid() && Knows(conns, c) && queue != []
      modifies this, c
      ensures Valid() && conns == old(conns) && old(model).queue != []
      ensures var p, r := old(model), old(model).queue[0];
              model == Start(p.(queue := p.queue[1..], busy := p.busy + [c.id], served := p.served + [r]), c.id, r)
    {
      hide Listed, Awaits, AllCarry, Numbered;
      var r := queue[0];
      ListedAdd(conns, busy, model.busy, c);
      queue, busy := queue[1..], busy + [c];
      model := model.(queue := model.queue[1..], busy := model.busy + [c.id], served := model.served + [r]);
      StartOn(c, r);
    }

    method Free(c: PooledConn)
      requires Valid() && Knows(conns, c)
      modifies this, c
      ensures Valid() && conns == old(conns) && model == OnFree(old(model), c.id)
    {
      hide Listed, Awaits, AllCarry, Numbered, Remove;
      Unlist(c);
      if queue != [] {
        ServeHead(c);
      } else {
        ListedAdd(conns, idle, model.idle, c);
        idle := idle + [c];
        model := model.(idle := model.idle + [c.id]);
      }
    }

    method Forget(c: PooledConn)
      requires Valid() && Knows(conns, c)
      modifies this
      ensures Valid() && conns == old(conns) && model == Drop(old(model), c.id)
    {
      hide Listed, Awaits, AllCarry, Numbered, Remove;
      var keptIdle := RemoveKnown(conns, idle, model.idle, c);
      var keptBusy := RemoveKnown(conns, busy, model.busy, c);
      var keptConnecting := RemoveKnown(conns, connecting, model.connecting, c);
      AwaitsDrop(conns, created, pending, model.pending, c);
      idle, busy, connecting, pending := keptIdle, keptBusy, keptConnecting, pending - {c};
      model := Drop(model, c.id);
    }

    method DropAndRefill(c: PooledConn)
      requires Valid() && Knows(conns, c)
      modifies this
      ensures Valid() && Grown() && model == OnClosed(old(model), c.id)
    {
      hide Listed, Awaits, AllCarry, Numbered, Drop, Open;
      Forget(c);
      ListedLengths(conns, idle, busy, connecting, model);
      if queue != [] && |idle| + |busy| + |connecting| < cap {
        var r := queue[0];
        queue := queue[1..];
        model := model.(queue := model.queue[1..]);
        OpenFor(r);
      }
    }

    method Touch(c: PooledConn, now: nat)
      requires Valid() && Knows(conns, c)
      modifies c`lastUsed
      ensures Valid()
    {
      hide Listed, Awaits, Numbered;
      c.lastUsed := now;
    }

    // ---- The events: what the pool's users and its connections rely on ----

    /** A request of a user. */
    method Request()
      requires Valid() && Inv(model)
      modifies this, conns.Values
      ensures Valid() && Grown() && Inv(model) && model == Apply(old(model), Event.Request)
    {
      hide Inv, Submit, Listed, Awaits, AllCarry, Numbered;
      StepKeeps(model, Event.Request);
      SubmitOne();
    }

    /** The connection is established: its pending request starts. */
    method Ready(c: PooledConn, now: nat)
      requires Valid() && Knows(conns, c) && Inv(model) && Enabled(model, Event.Ready(c.id))
      modifies this, c
      ensures Valid() && conns == old(conns) && Inv(model) && model == Apply(old(model), Event.Ready(c.id))
    {
      hide Inv, Listed, Awaits, AllCarry, Numbered, Remove, Elems;
      StepKeeps(model, Event.Ready(c.id));
      Touch(c, now);
      AwaitsDrop(conns, created, pending, model.pending, c);
      var others := RemoveKnown(conns, connecting, model.connecting, c);
      if c in pending {
        BecomeBusy(c, others);
      } else {
        ListedAdd(conns, idle, model.idle, c);
        connecting, idle := others, idle + [c];
        model := OnReady(model, c.id);
      }
    }

    method BecomeBusy(c: PooledConn, others: seq<PooledConn>)
      requires Valid() && Knows(conns, c) && c in pending && c.id in model.pending
      requires Listed(conns, others, Remove(model.connecting, c.id))
      modifies this, c
      ensures Valid() && conns == old(conns) && model == OnReady(old(model), c.id)
    {
      hide Listed, Awaits, AllCarry, Numbered, Remove;
      var r := pending[c];
      PendingRequest(conns, pending, model.pending, c);
      AwaitsDrop(conns, created, pending, model.pending, c);
      ListedAdd(conns, busy, model.busy, c);
      connecting, busy, pending := others, busy + [c], pending - {c};
      model := model.(connecting := Remove(model.connecting, c.id), busy := model.busy + [c.id], pending := model.pending - {c.id});
      StartOn(c, r);
    }

    /** Bytes have completed a response on the connection, or do not parse.  Solicited or
        not, the pool does what is specified, and keeps its rules exactly when that is
        possible. */
    method Consume(c: PooledConn, wellFormed: bool, keepAlive: bool, n: nat, now: nat)
      requires Valid() && Knows(conns, c) && Inv(model)
      modifies this, conns.Values
      ensures Valid() && Grown()
      ensures model == if wellFormed then OnResponse(old(model), c.id, keepAlive, n) else OnMalformed(old(model), c.id, n)
      ensures Inv(model) <==> !wellFormed || ResponseSafe(old(model), c.id, keepAlive)
    {
      hide Inv, Listed, Awaits, AllCarry, Numbered, OnFree, Complete, ResponseSafe;
      assert conns[c.id] in conns.Values;
      if !wellFormed {
        if c.id in model.callback { OnMalformedKeeps(model, c.id, n); }
        var cb := TakeFrom(c);
        if cb.Some? { Notify(cb.value, MalformedResponse, n); }
        return;
      }
      ResponseIsSafeIff(model, c.id, keepAlive, n);
      MarkDone(c);
      Touch(c, now);
      var cb := TakeFrom(c);
      if keepAlive { Free(c); }
      if cb.Some? { Notify(cb.value, Delivered, n); }
    }

    /** The connection went down; its request, if unanswered, is completed first. */
    method Disconnected(c: PooledConn, eofBody: bool, n: nat)
      requires Valid() && Knows(conns, c) && Inv(model)
      modifies this, conns.Values
      ensures Valid() && Grown() && model == OnDisconnect(old(model), c.id, eofBody, n)
      ensures Inv(model) <==> c.id !in Elems(old(model).connecting)
      ensures c.id !in Elems(old(model).connecting) ==> Gone(model, c.id) && Dropped(c)
    {
      hide Inv, Listed, Awaits, AllCarry, Numbered, OnDisconnect, Elems, Gone, Dropped;
      CloseIsSafeIff(model, c.id, eofBody, n);
      if c.id !in Elems(model.connecting) {
        MadeBefore(conns, created, c);
        ClosedIsGone(model, c.id, eofBody, n);
      }
      GoDown(c, eofBody, n);
      if Gone(model, c.id) { GoneIsDropped(c); }
    }

    /** The unanswered request is completed first, then the connection is dropped. */
    method GoDown(c: PooledConn, eofBody: bool, n: nat)
      requires Valid() && Knows(conns, c)
      modifies this, conns.Values
      ensures Valid() && Grown() && model == OnDisconnect(old(model), c.id, eofBody, n)
    {
      hide Listed, Awaits, AllCarry, Numbered, OnClosed, Complete;
      assert conns[c.id] in conns.Values;
      OwnFlags(conns, c, model.callback, model.busyFlag, model.doneFlag);
      if c.busy && !c.done {
        MarkDone(c);
        var cb := TakeFrom(c);
        if cb.Some? { Notify(cb.value, if eofBody then DeliveredAtEof else ClosedEarly, n); }
      }
      DropAndRefill(c);
    }

    method FailParked(parked: seq<Req>, ns: seq<nat>)
      requires Valid() && |ns| == |parked|
      modifies this, conns.Values
      ensures Valid() && Grown() && model == FailAll(old(model), parked, ns)
    {
      hide Listed, Awaits, AllCarry, Numbered, Complete;
      ghost var p := model;
      for i := 0 to |parked|
        invariant Valid() && Grown()
        invariant FailAll(model, parked[i..], ns[i..]) == FailAll(p, parked, ns)
      {
        assert parked[i..][1..] == parked[i + 1..] && ns[i..][1..] == ns[i + 1..];
        Notify(parked[i], DnsFailed, ns[i]);
      }
    }

    method DispatchParked(parked: seq<Req>)
      requires Valid()
      modifies this, conns.Values
      ensures Valid() && Grown() && model == DispatchAll(old(model), parked)
    {
      hide Listed, Awaits, AllCarry, Numbered, Dispatch;
      ghost var p := model;
      for i := 0 to |parked|
        invariant Valid() && Grown()
        invariant DispatchAll(model, parked[i..]) == DispatchAll(p, parked)
      {
        assert parked[i..][1..] == parked[i + 1..];
        DispatchRequest(parked[i]);
      }
    }

    /** The lookup has ended: the parked requests are dispatched, or all fail. */
    method LookedUp(ok: bool, ns: seq<nat>)
      requires Valid() && Inv(model) && Enabled(model, Event.Resolved(ok, ns))
      modifies this, conns.Values
      ensures Valid() && Grown() && Inv(model) && model == Apply(old(model), Event.Resolved(ok, ns))
    {
      hide Inv, Listed, Awaits, AllCarry, Numbered, DispatchAll, FailAll, Elems;
      StepKeeps(model, Event.Resolved(ok, ns));
      var parked := waiting;
      waiting, resolving := [], false;
      model := TakeAll(model);
      if !ok {
        FailParked(parked, ns);
        return;
      }
      resolved := true;
      model := model.(resolved := true);
      DispatchParked(parked);
    }

    /** Takes the given connections off the idle list, one by one. */
    method Evict(late: seq<PooledConn>, ghost stale: set<Conn>)
      requires Valid() && Inv(model) && (forall c :: c in late ==> Knows(conns, c))
      requires Ids(late) == Picked(model.idle, stale)
      modifies this`idle, this`model
      ensures Valid() && Inv(model) && model == Apply(old(model), Event.Evict(stale))
    {
      hide Inv, Awaits, AllCarry, Numbered, Remove, Picked, RemoveEach, Keep;
      StepKeeps(model, Event.Evict(stale));
      RemovePicked(model.idle, stale);
      idle := RemoveAll(idle, late);
      model := OnEvict(model, stale);
    }

    /** Picks the connections that were idle for too long, then evicts them. */
    method EvictIdle(now: nat, timeout: nat)
      requires Valid() && Inv(model)
      modifies this`idle, this`model
      ensures Valid() && Inv(model) && model == Apply(old(model), Event.Evict(old(Late(idle, now, timeout))))
    {
      hide Inv, Awaits, AllCarry, Numbered, Picked;
      var late := PickLate(idle, now, timeout);
      Evict(late, Late(idle, now, timeout));
    }
  }

  // ---- Every history -------------------------------------------------------------------------------

  /** The pool after a list of events. */
  ghost function After(p: Pool, es: seq<Event>): Pool
    requires Legal(p, es)
    decreases |es|
  {
    if es == [] then p else After(Apply(p, es[0]), es[1..])
  }

  /** Each event is possible when it comes, and speaks of a connection that was made. */
  ghost predicate Legal(p: Pool, es: seq<Event>)
    decreases |es|
  {
    es == [] || (Enabled(p, es[0]) && (es[0].Closed? ==> es[0].c < p.created) && Legal(Apply(p, es[0]), es[1..]))
  }

  lemma {:induction false} LegalRuns(p: Pool, es: seq<Event>)
    requires Legal(p, es)
    ensures Run(p, es, After(p, es))
    decreases |es|
  {
    if es != [] { LegalRuns(Apply(p, es[0]), es[1..]); }
  }

  /** Where the object of an event is found. */
  lemma ObjectOf(pool: PoolImpl, e: Event)
    requires pool.Valid() && Enabled(pool.model, e) && (e.Closed? ==> e.c < pool.model.created)
    ensures e.Ready? || e.Response? || e.Malformed? || e.Closed? ==>
              e.c in pool.conns && Knows(pool.conns, pool.conns[e.c]) && pool.conns[e.c].id == e.c
  {
    if e.Ready? {
      var i :| 0 <= i < |pool.model.connecting| && pool.model.connecting[i] == e.c;
      assert pool.connecting[i] in pool.connecting && Ids(pool.connecting)[i] == e.c;
    }
  }

  method PickThese(v: seq<PooledConn>, stale: set<Conn>) returns (late: seq<PooledConn>)
    ensures Ids(late) == Picked(Ids(v), stale) && forall c :: c in late ==> c in v
  {
    hide Picked;
    late := [];
    ghost var ids := Ids(v);
    assert ids[0..] == ids;
    for i := 0 to |v|
      invariant Picked(ids, stale) == Ids(late) + Picked(ids[i..], stale)
      invariant forall c :: c in late ==> c in v
    {
      PickedAt(ids, stale, i);
      ghost var before, rest := Ids(late), Picked(ids[i + 1..], stale);
      if v[i].id in stale {
        late := late + [v[i]];
        assert Ids(late) == before + [ids[i]] && before + ([ids[i]] + rest) == Ids(late) + rest;
      } else {
        assert before + ([] + rest) == Ids(late) + rest;
      }
    }
    assert ids[|v|..] == [];
    NonePicked(stale);
  }

  /** One event, told by identities, on the objects. */
  method HandleEvent(pool: PoolImpl, e: Event)
    requires pool.Valid() && Inv(pool.model) && Enabled(pool.model, e) && (e.Closed? ==> e.c < pool.model.created)
    modifies pool, pool.conns.Values
    ensures pool.Valid() && Inv(pool.model) && pool.model == Apply(old(pool.model), e)
    ensures forall i :: i in pool.conns ==> pool.conns[i] in old(pool.conns.Values) || fresh(pool.conns[i])
  {
    hide Inv, Listed, Awaits, AllCarry, Numbered, Elems, Picked, ResponseSafe;
    ObjectOf(pool, e);
    match e
    case Request => pool.Request();
    case Resolved(ok, ns) => pool.LookedUp(ok, ns);
    case Ready(c) => pool.Ready(pool.conns[c], 0);
    case Response(c, keepAlive, n) =>
      SafeInFlight(pool.model, c, keepAlive);
      pool.Consume(pool.conns[c], true, keepAlive, n, 0);
    case Malformed(c, n) => pool.Consume(pool.conns[c], false, false, n, 0);
    case Closed(c, eofBody, n) => pool.Disconnected(pool.conns[c], eofBody, n);
    case Evict(stale) =>
      IdleKnown(pool);
      var late := PickThese(pool.idle, stale);
      pool.Evict(late, stale);
  }

  lemma SafeInFlight(p: Pool, c: Conn, keepAlive: bool)
    requires c in p.callback
    ensures ResponseSafe(p, c, keepAlive)
  {
  }

  lemma IdleKnown(pool: PoolImpl)
    requires pool.Valid()
    ensures Ids(pool.idle) == pool.model.idle && forall c :: c in pool.idle ==> Knows(pool.conns, c)
  {
  }

  /** Every history of the pool object, from its construction: it stands for the pool of
      `ConnectionPool` after the same events, and so keeps all its rules. */
  method Replay(cap: nat, resolved: bool, es: seq<Event>) returns (pool: PoolImpl)
    requires cap > 0 && Legal(Init(cap, resolved), es)
    ensures pool.Valid() && Inv(pool.model) && Run(Init(cap, resolved), es, pool.model)
  {
    hide Inv, PoolImpl.Valid, Apply, Enabled;
    pool := new PoolImpl(cap, resolved);
    ghost var p := Init(cap, resolved);
    InitOk(cap, resolved);
    for i := 0 to |es|
      invariant pool.Valid() && fresh(pool) && (forall k :: k in pool.conns ==> fresh(pool.conns[k]))
      invariant Inv(pool.model) && Legal(pool.model, es[i..]) && After(pool.model, es[i..]) == After(p, es)
    {
      assert es[i..][1..] == es[i + 1..];
      HandleEvent(pool, es[i]);
    }
    LegalRuns(p, es);
  }
}
