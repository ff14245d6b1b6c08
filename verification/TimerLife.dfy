/** The life of one timer: what adding, cancelling and firing mean for it, over every
    run of the queue (reactor/timer_queue.cc). */
module TimerLife {

  import opened Elements
  import opened TimerQueue

  // ---- Adding and cancelling -----------------------------------------------------------------

  /** A new number: no live timer and nothing in the history has it. */
  ghost predicate Unused(q: Queue, id: Id) {
    && id !in q.active && (forall t :: t in All(q) ==> t.id != id)
    && (forall n :: n in Elems(q.log) ==> (if n.Ran? then n.timer.id else n.id) != id)
  }

  /** Adding queues exactly one timer, with this expiration and interval and a new number. */
  lemma AddQueues(addr: Address, q: Queue, when: int, interval: nat, clock: int)
    requires Inv(q)
    ensures var r := Add(addr, q, when, interval, clock);
            && Elems(r.timers) == Elems(q.timers) + {Timer(r.created, when, interval)}
            && Unused(q, r.created) && r.active == q.active + {r.created}
            && r.done == q.done && r.todo == q.todo && r.cancelling == q.cancelling && r.log == q.log && r.calling == q.calling
  {
    hide Elems, Distinct, Ordered, Insert;
    var t := Timer(q.created + 1, when, interval);
    TrackAdd(All(q), q.active, q.created, t);
    InsertElems(addr, q.timers, t);
    assert t.id !in q.active;
    forall n | n in Elems(q.log)
      ensures (if n.Ran? then n.timer.id else n.id) != t.id
    {
      NoteAt(q.log, n);
    }
  }

  lemma NoteAt(log: seq<Note>, n: Note)
    requires n in Elems(log)
    ensures exists i :: 0 <= i < |log| && log[i] == n
  {
  }

  /** Cancelling takes the timer off the queue, or marks it in the batch being fired;
      every other timer stays as it was. */
  lemma CancelRemoves(q: Queue, id: Id)
    requires Inv(q) && id in q.active
    ensures var r := Cancel(q, id);
            && Elems(r.timers) == (set t | t in Elems(q.timers) && t.id != id)
            && (forall t :: t in Elems(r.done) + Elems(r.todo) && t.id == id ==> id in r.cancelling)
            && q.cancelling <= r.cancelling <= q.cancelling + {id}
            && r.done == q.done && r.todo == q.todo && r.calling == q.calling && r.log == q.log + [Cancelled(id)]
  {
    hide Elems, Distinct, Ordered, LogOk, Without, Served;
    HoldsIffIn(q.timers, id);
    EmptyElems<Timer>();
    assert forall u :: u in Elems(q.timers) ==> u in All(q);
    assert forall u :: u in Elems(q.done) + Elems(q.todo) ==> u in All(q);
    if Holds(q.timers, id) {
      WithoutElems(q.timers, id);
    }
  }

  // ---- A timer that is not cancelled ------------------------------------------------------------

  /** Queued, or in the batch being fired and not cancelled. */
  ghost predicate Live(q: Queue, t: Timer) {
    t in Elems(q.timers) || (t in Elems(q.done) + Elems(q.todo) && t.id !in q.cancelling)
  }

  ghost predicate HasRun(log: seq<Note>, t: Timer) {
    exists batch: nat, now: int :: Ran(t, batch, now) in Elems(log)
  }

  /** A repeating timer is live, perhaps with a later expiration; a one-shot is live as it
      was added, until it has run. */
  ghost predicate Kept(q: Queue, t: Timer) {
    if t.interval > 0 then exists u :: Live(q, u) && u.id == t.id && u.interval == t.interval
    else HasRun(q.log, t) || (Live(q, t) && t !in Elems(q.done))
  }

  lemma AddKept(addr: Address, q: Queue, when: int, interval: nat, clock: int, t: Timer)
    requires Inv(q) && Kept(q, t)
    ensures Kept(Add(addr, q, when, interval, clock), t)
  {
    hide Inv, Add, HasRun;
    AddQueues(addr, q, when, interval, clock);
    var r := Add(addr, q, when, interval, clock);
    assert forall u :: Live(q, u) ==> Live(r, u);
  }

  lemma CancelKept(q: Queue, id: Id, t: Timer)
    requires Inv(q) && id in q.active && id != t.id && Kept(q, t)
    ensures Kept(Cancel(q, id), t)
  {
    hide Inv, Cancel;
    CancelRemoves(q, id);
    var r := Cancel(q, id);
    AddLast(q.log, Cancelled(id));
    assert forall u :: Live(q, u) && u.id == t.id ==> Live(r, u);
    assert HasRun(q.log, t) ==> HasRun(r.log, t);
  }

  lemma BeginSplits(q: Queue, now: int)
    requires Inv(q) && !q.calling
    ensures var r := Begin(q, now);
            Elems(r.timers) + Elems(r.todo) == Elems(q.timers) && r.done == [] && r.cancelling == {} && r.log == q.log
  {
    hide Elems, Distinct, Ordered, Due;
    Split(q.timers, Due(q.timers, now));
  }

  lemma BeginKept(q: Queue, now: int, t: Timer)
    requires Inv(q) && !q.calling && Kept(q, t)
    ensures Kept(Begin(q, now), t)
  {
    hide Ok, Begin, HasRun, Elems;
    BeginSplits(q, now);
    EmptyElems<Timer>();
    var r := Begin(q, now);
    assert forall u :: Live(q, u) ==> Live(r, u);
  }

  lemma RunNextMoves(q: Queue)
    requires Inv(q) && q.calling && q.todo != []
    ensures var r, x := RunNext(q), q.todo[0];
            && r.timers == q.timers && r.cancelling == q.cancelling
            && Elems(r.done) == Elems(q.done) + {x} && Elems(r.todo) == Elems(q.todo) - {x}
            && r.todo == q.todo[1..] && r.now == q.now && r.batches == q.batches
            && Elems(r.log) == Elems(q.log) + (if x.id in q.cancelling then {} else {Ran(x, q.batches, q.now)})
  {
    hide Elems, Distinct, Ordered;
    var x := q.todo[0];
    FirstAndRest(q.todo);
    AddLast(q.done, x);
    AddLast(q.log, Ran(x, q.batches, q.now));
  }

  lemma RunNextKept(q: Queue, t: Timer)
    requires Inv(q) && q.calling && q.todo != [] && Kept(q, t)
    ensures Kept(RunNext(q), t)
  {
    hide Inv, RunNext, Elems;
    RunNextMoves(q);
    var r, x := RunNext(q), q.todo[0];
    assert x in Elems(q.todo) by { InElems(q.todo, 0); }
    assert forall u :: Live(q, u) ==> Live(r, u);
    if t.interval == 0 && !HasRun(q.log, t) && x == t {
      assert t.id !in q.cancelling by { FiringIsUncancelled(q, t); }
      assert Ran(t, q.batches, q.now) in Elems(r.log);
    }
    assert HasRun(q.log, t) ==> HasRun(r.log, t);
  }

  /** A live timer that is in the batch is not in the queue as well. */
  lemma FiringIsUncancelled(q: Queue, t: Timer)
    requires Inv(q) && Live(q, t) && t in Elems(q.todo)
    ensures t.id !in q.cancelling
  {
    hide Elems, Distinct, Ordered, Tracked, LogOk, Served;
  }

  lemma {:induction false} ResetAllLog(addr: Address, q: Queue)
    ensures ResetAll(addr, q).log == q.log && ResetAll(addr, q).cancelling == q.cancelling
    decreases |q.done|
  {
    hide Insert;
    if q.done != [] {
      ResetAllLog(addr, ResetOne(addr, q));
    }
  }

  lemma FinishKept(addr: Address, q: Queue, clock: int, t: Timer)
    requires Inv(q) && q.calling && q.todo == [] && Kept(q, t)
    ensures Kept(Finish(addr, q, clock), t)
  {
    hide Elems, Distinct, Ordered, LogOk, Tracked, Served, ResetAll, HasRun;
    EmptyElems<Timer>();
    var q1 := q.(calling := false);
    assert All(q1) == All(q);
    ResetAllRearms(addr, q1);
    ResetAllLog(addr, q1);
    ResetAllKeeps(addr, q1);
    var r := Finish(addr, q, clock);
    assert Elems(r.done) == {};
    if t.interval > 0 {
      var u :| Live(q, u) && u.id == t.id && u.interval == t.interval;
      if u in Elems(q.timers) {
        assert Live(r, u);
      } else {
        assert Live(r, u.(when := q.now + u.interval * 1000));
      }
    }
  }

  lemma KeptStep(addr: Address, q: Queue, e: Event, t: Timer)
    requires Inv(q) && Enabled(q, e) && e != DoCancel(t.id) && Kept(q, t)
    ensures Kept(Apply(addr, q, e), t)
  {
    hide Inv, Kept, Add, Cancel, Begin, RunNext, Finish;
    match e
    case DoAdd(when, interval, clock) => AddKept(addr, q, when, interval, clock, t);
    case DoCancel(id) => CancelKept(q, id, t);
    case DoBegin(now) => BeginKept(q, now, t);
    case DoRunNext => RunNextKept(q, t);
    case DoFinish(clock) => FinishKept(addr, q, clock, t);
  }

  /** Until it is cancelled, a repeating timer is queued or being fired in every later
      state, and a one-shot is queued with its expiration until it has run. */
  lemma {:induction false} KeptUntilCancelled(addr: Address, q: Queue, es: seq<Event>, r: Queue, t: Timer)
    requires Inv(q) && Run(addr, q, es, r) && Kept(q, t)
    requires forall i :: 0 <= i < |es| ==> es[i] != DoCancel(t.id)
    ensures Kept(r, t)
    decreases |es|
  {
    hide Inv, Kept;
    if es != [] {
      StepKeeps(addr, q, es[0]);
      KeptStep(addr, q, es[0], t);
      KeptUntilCancelled(addr, Apply(addr, q, es[0]), es[1..], r, t);
    }
  }

  /** The life of a timer from the call that adds it. */
  lemma AddedIsKept(addr: Address, q: Queue, when: int, interval: nat, clock: int, es: seq<Event>, r: Queue)
    requires Inv(q) && Run(addr, Add(addr, q, when, interval, clock), es, r)
    requires forall i :: 0 <= i < |es| ==> es[i] != DoCancel(Add(addr, q, when, interval, clock).created)
    ensures Kept(r, Timer(Add(addr, q, when, interval, clock).created, when, interval))
  {
    hide Inv, Add, HasRun;
    var q1 := Add(addr, q, when, interval, clock);
    var t := Timer(q1.created, when, interval);
    AddQueues(addr, q, when, interval, clock);
    AddKeeps(addr, q, when, interval, clock);
    assert Live(q1, t);
    assert forall u :: u in Elems(q.done) ==> u in All(q);
    KeptUntilCancelled(addr, q1, es, r, t);
  }

  // ---- A cancelled timer -------------------------------------------------------------------------

  lemma StepLog(addr: Address, q: Queue, e: Event)
    requires Enabled(q, e)
    ensures q.log <= Apply(addr, q, e).log
  {
    hide ResetAll, Insert, Holds, Without, Due;
    if e.DoFinish? {
      ResetAllLog(addr, q.(calling := false));
    }
  }

  lemma {:induction false} RunLog(addr: Address, q: Queue, es: seq<Event>, r: Queue)
    requires Run(addr, q, es, r)
    ensures q.log <= r.log
    decreases |es|
  {
    hide Apply;
    if es != [] {
      StepLog(addr, q, es[0]);
      RunLog(addr, Apply(addr, q, es[0]), es[1..], r);
    }
  }

  /** A cancelled timer is never queued and never runs again, whatever happens later. */
  lemma CancelIsFinal(addr: Address, q: Queue, id: Id, es: seq<Event>, r: Queue)
    requires Inv(q) && id in q.active && Run(addr, Cancel(q, id), es, r)
    ensures forall t :: t in Elems(r.timers) ==> t.id != id
    ensures forall t :: Live(r, t) ==> t.id != id
    ensures forall j :: |q.log| < j < |r.log| && r.log[j].Ran? ==> r.log[j].timer.id != id
  {
    hide Cancel, ListsOk, Tracked, Served, Known, Spaced, Past, ExpiredBy, InTurn, Elems;
    CancelRemoves(q, id);
    CancelKeeps(q, id);
    RunKeeps(addr, Cancel(q, id), es, r);
    RunLog(addr, Cancel(q, id), es, r);
    var k := |q.log|;
    assert Cancel(q, id).log[k] == Cancelled(id);
    assert r.log[k] == Cancelled(id);
    assert GoneNote(r.log[k], Elems(r.timers), Elems(r.done) + Elems(r.todo), r.cancelling);
    forall j | k < j < |r.log| && r.log[j].Ran?
      ensures r.log[j].timer.id != id
    {
      assert Follows(r.log[k], r.log[j]);
    }
  }

  // ---- The timerfd ----------------------------------------------------------------------------------

  function Max(a: int, b: int): int {
    if a < b then b else a
  }

  /** The timerfd does not fire before the earliest expiration, nor at once when that has
      passed, but a microsecond later. */
  lemma ArmedExactly(addr: Address, q: Queue, clock: int, when: int, interval: nat)
    requires Inv(q)
    ensures var r := Add(addr, q, when, interval, clock);
            if q.timers == [] || when < q.timers[0].when then r.arming == Armed(clock, Max(when, clock + 1)) else r.arming == q.arming
    ensures q.calling && q.todo == [] ==>
              var r := Finish(addr, q, clock);
              r.timers != [] ==> r.arming == Armed(clock, Max(r.timers[0].when, clock + 1))
  {
    hide ResetAll, Insert, Ok;
  }

  // ---- Equal expirations ------------------------------------------------------------------------------

  /** Timers with the same expiration are kept in the order of their addresses. */
  ghost predicate TiesInOrder(addr: Address, ts: seq<Timer>) {
    forall i, j :: 0 <= i < j < |ts| && ts[i].when == ts[j].when ==> addr(ts[i].id) <= addr(ts[j].id)
  }

  lemma TiesRest(addr: Address, ts: seq<Timer>, k: nat)
    requires TiesInOrder(addr, ts) && k <= |ts|
    ensures TiesInOrder(addr, ts[k..])
  {
  }

  lemma TiesFirst(addr: Address, t: Timer, ts: seq<Timer>)
    requires TiesInOrder(addr, ts) && forall i :: 0 <= i < |ts| && ts[i].when == t.when ==> addr(t.id) <= addr(ts[i].id)
    ensures TiesInOrder(addr, [t] + ts)
  {
  }

  /** Every timer of `ts` with this expiration has an address from `a` on. */
  ghost predicate TiesFrom(addr: Address, ts: seq<Timer>, when: int, a: nat) {
    forall i :: 0 <= i < |ts| && ts[i].when == when ==> a <= addr(ts[i].id)
  }

  lemma {:induction false} InsertTiesFrom(addr: Address, ts: seq<Timer>, t: Timer, when: int, a: nat)
    requires TiesFrom(addr, ts, when, a) && (t.when == when ==> a <= addr(t.id))
    ensures TiesFrom(addr, Insert(addr, ts, t), when, a)
    decreases |ts|
  {
    if !(ts == [] || Less(addr, t, ts[0])) {
      InsertTiesFrom(addr, ts[1..], t, when, a);
    }
  }

  lemma {:induction false} InsertTies(addr: Address, ts: seq<Timer>, t: Timer)
    requires Ordered(ts) && TiesInOrder(addr, ts)
    ensures TiesInOrder(addr, Insert(addr, ts, t))
    decreases |ts|
  {
    if ts == [] || Less(addr, t, ts[0]) {
      assert forall i :: 0 < i < |ts| ==> ts[0].when <= ts[i].when;
      TiesFirst(addr, t, ts);
    } else {
      TiesRest(addr, ts, 1);
      OrderedRest(ts);
      InsertTies(addr, ts[1..], t);
      InsertTiesFrom(addr, ts[1..], t, ts[0].when, addr(ts[0].id));
      TiesFirst(addr, ts[0], Insert(addr, ts[1..], t));
    }
  }

  lemma {:induction false} WithoutTies(addr: Address, ts: seq<Timer>, id: Id)
    requires TiesInOrder(addr, ts)
    ensures TiesInOrder(addr, Without(ts, id))
    ensures forall when, a :: TiesFrom(addr, ts, when, a) ==> TiesFrom(addr, Without(ts, id), when, a)
    decreases |ts|
  {
    if ts != [] {
      TiesRest(addr, ts, 1);
      forall when, a | TiesFrom(addr, ts, when, a) ensures TiesFrom(addr, ts[1..], when, a) {
        assert forall i :: 0 <= i < |ts[1..]| ==> ts[1..][i] == ts[i + 1];
      }
      if ts[0].id != id {
        WithoutTies(addr, ts[1..], id);
        assert TiesFrom(addr, ts[1..], ts[0].when, addr(ts[0].id));
        TiesFirst(addr, ts[0], Without(ts[1..], id));
      }
    }
  }

  lemma {:induction false} ResetTies(addr: Address, q: Queue)
    requires Ordered(q.timers) && TiesInOrder(addr, q.timers)
    ensures TiesInOrder(addr, ResetAll(addr, q).timers)
    decreases |q.done|
  {
    hide Insert, Ordered, TiesInOrder;
    if q.done != [] {
      var t := q.done[0];
      InsertOrdered(addr, q.timers, t.(when := q.now + t.interval * 1000));
      InsertTies(addr, q.timers, t.(when := q.now + t.interval * 1000));
      ResetTies(addr, ResetOne(addr, q));
    }
  }

  lemma StepTies(addr: Address, q: Queue, e: Event)
    requires Inv(q) && Enabled(q, e) && TiesInOrder(addr, q.timers)
    ensures TiesInOrder(addr, Apply(addr, q, e).timers)
  {
    hide TiesInOrder, Ordered, Distinct, Tracked, LogOk, Served, Insert, Without, Due, ResetAll, Holds;
    match e
    case DoAdd(when, interval, clock) => InsertTies(addr, q.timers, Timer(q.created + 1, when, interval));
    case DoCancel(id) => WithoutTies(addr, q.timers, id);
    case DoBegin(now) => TiesRest(addr, q.timers, Due(q.timers, now));
    case DoRunNext =>
    case DoFinish(clock) => ResetTies(addr, q.(calling := false));
  }

  /** In every run timers that expire together fire in the order of their addresses. */
  lemma {:induction false} TiesStayInOrder(addr: Address, q: Queue, es: seq<Event>, r: Queue)
    requires Inv(q) && Run(addr, q, es, r) && TiesInOrder(addr, q.timers)
    ensures TiesInOrder(addr, r.timers)
    decreases |es|
  {
    hide Inv, TiesInOrder, Add, Cancel, Begin, RunNext, Finish;
    if es != [] {
      StepKeeps(addr, q, es[0]);
      StepTies(addr, q, es[0]);
      TiesStayInOrder(addr, Apply(addr, q, es[0]), es[1..], r);
    }
  }
}
