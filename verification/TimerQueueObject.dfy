/** The timer queue as the object it is: each method computes the corresponding
    step of `TimerQueue`, and handleRead a whole batch of them, with callbacks that
    add and cancel timers while the batch is firing. */
module TimerQueueObject {

  import opened Elements
  import opened TimerQueue
  import opened TimerLife

  datatype Action = AddIt(when: int, interval: nat, clock: int) | CancelIt(id: Id)

  /** What the callback of a timer does when it is run. */
  type Script = Id -> seq<Action>

  function EventOf(a: Action): Event {
    match a
    case AddIt(when, interval, clock) => DoAdd(when, interval, clock)
    case CancelIt(id) => DoCancel(id)
  }

  /** A callback's actions, as long as it cancels live timers only. */
  ghost predicate LegalActions(addr: Address, q: Queue, actions: seq<Action>)
    decreases |actions|
  {
    actions == [] || (Enabled(q, EventOf(actions[0])) && LegalActions(addr, Apply(addr, q, EventOf(actions[0])), actions[1..]))
  }

  ghost function Act(addr: Address, q: Queue, actions: seq<Action>): Queue
    requires LegalActions(addr, q, actions)
    ensures var r := Act(addr, q, actions); r.todo == q.todo && r.done == q.done && r.now == q.now && r.calling == q.calling
    decreases |actions|
  {
    if actions == [] then q else Act(addr, Apply(addr, q, EventOf(actions[0])), actions[1..])
  }

  function Actions(q: Queue, script: Script): seq<Action>
    requires q.todo != []
  {
    if q.todo[0].id in q.cancelling then [] else script(q.todo[0].id)
  }

  ghost predicate Legal(addr: Address, q: Queue, script: Script)
    decreases |q.todo|
  {
    q.todo == [] ||
    (LegalActions(addr, RunNext(q), Actions(q, script)) && Legal(addr, Act(addr, RunNext(q), Actions(q, script)), script))
  }

  /** The callback loop. */
  ghost function Fire(addr: Address, q: Queue, script: Script): Queue
    requires Legal(addr, q, script)
    ensures Fire(addr, q, script).todo == []
    decreases |q.todo|
  {
    if q.todo == [] then q else Fire(addr, Act(addr, RunNext(q), Actions(q, script)), script)
  }

  lemma {:induction false} ActKeeps(addr: Address, q: Queue, actions: seq<Action>)
    requires Inv(q) && q.calling && LegalActions(addr, q, actions)
    ensures Inv(Act(addr, q, actions)) && Act(addr, q, actions).calling
    decreases |actions|
  {
    hide Inv;
    if actions != [] {
      StepKeeps(addr, q, EventOf(actions[0]));
      ActKeeps(addr, Apply(addr, q, EventOf(actions[0])), actions[1..]);
    }
  }

  lemma {:induction false} FireKeeps(addr: Address, q: Queue, script: Script)
    requires Inv(q) && q.calling && Legal(addr, q, script)
    ensures Inv(Fire(addr, q, script)) && Fire(addr, q, script).calling
    decreases |q.todo|
  {
    hide Inv;
    if q.todo != [] {
      RunNextKeeps(q);
      ActKeeps(addr, RunNext(q), Actions(q, script));
      FireKeeps(addr, Act(addr, RunNext(q), Actions(q, script)), script);
    }
  }

  /** One whole expiry, callbacks included, keeps the invariant and leaves the
      timerfd armed in time. */
  lemma HandleReadKeeps(addr: Address, q: Queue, now: int, script: Script, clock: int)
    requires Inv(q) && !q.calling && Legal(addr, Begin(q, now), script)
    ensures var r := Finish(addr, Fire(addr, Begin(q, now), script), clock);
            Inv(r) && !r.calling && Arrives(r.arming, r.timers)
  {
    hide Ok, Fire, Finish, Legal;
    BeginKeeps(q, now);
    FireKeeps(addr, Begin(q, now), script);
    FinishKeeps(addr, Fire(addr, Begin(q, now), script), clock);
  }

  lemma {:induction false} ActLog(addr: Address, q: Queue, actions: seq<Action>)
    requires LegalActions(addr, q, actions)
    ensures var r := Act(addr, q, actions); q.log <= r.log && r.batches == q.batches
    decreases |actions|
  {
    hide Insert, Holds, Without;
    if actions != [] {
      StepLog(addr, q, EventOf(actions[0]));
      ActLog(addr, Apply(addr, q, EventOf(actions[0])), actions[1..]);
    }
  }

  /** The loop takes the whole batch, in order. */
  lemma {:induction false} FireTakesAll(addr: Address, q: Queue, script: Script)
    requires Legal(addr, q, script)
    ensures var r := Fire(addr, q, script); r.done == q.done + q.todo && r.now == q.now && r.batches == q.batches
    decreases |q.todo|
  {
    hide Act, LegalActions, Actions;
    if q.todo != [] {
      ActLog(addr, RunNext(q), Actions(q, script));
      FireTakesAll(addr, Act(addr, RunNext(q), Actions(q, script)), script);
      assert q.done + [q.todo[0]] + q.todo[1..] == q.done + q.todo;
    }
  }

  /** In an expiry every timer that is due runs, unless it has been cancelled. */
  ghost predicate DueHaveRun(timers: set<Timer>, now: int, batches: nat, log: seq<Note>) {
    forall t :: t in timers && t.when <= now ==> Ran(t, batches, now) in Elems(log) || Cancelled(t.id) in Elems(log)
  }

  lemma ExpiryRunsDue(addr: Address, q: Queue, now: int, script: Script, clock: int)
    requires Inv(q) && !q.calling && Legal(addr, Begin(q, now), script)
    ensures var r := Finish(addr, Fire(addr, Begin(q, now), script), clock);
            DueHaveRun(Elems(q.timers), now, q.batches + 1, r.log)
  {
    hide Elems, Distinct, Ordered, LogOk, Tracked, Fire, Legal, ResetAll, Due, ListsOk;
    var b := Begin(q, now);
    BeginKeeps(q, now);
    FireKeeps(addr, b, script);
    FireTakesAll(addr, b, script);
    var f := Fire(addr, b, script);
    assert f.done == b.todo;
    ResetAllLog(addr, f.(calling := false));
    assert Served(f.log, Elems(f.done), f.cancelling, f.batches, f.now);
  }

  // ---- The ordered set as a list --------------------------------------------------------------

  /** Past the timers that are not after `t`, insertion puts `t` in front. */
  lemma InsertAt(addr: Address, ts: seq<Timer>, t: Timer, i: nat)
    requires i <= |ts|
    ensures i == |ts| || Less(addr, t, ts[i]) ==> Insert(addr, ts[i..], t) == [t] + ts[i..]
    ensures i < |ts| && !Less(addr, t, ts[i]) ==> Insert(addr, ts[i..], t) == [ts[i]] + Insert(addr, ts[i + 1..], t)
  {
    if i < |ts| { assert ts[i..][1..] == ts[i + 1..]; }
  }

  lemma FindAt(ts: seq<Timer>, id: Id, i: nat)
    requires i < |ts|
    ensures ts[i].id == id ==> Holds(ts[i..], id) && Without(ts[i..], id) == ts[i + 1..]
    ensures ts[i].id != id ==>
              Holds(ts[i..], id) == Holds(ts[i + 1..], id) && Without(ts[i..], id) == [ts[i]] + Without(ts[i + 1..], id)
  {
    assert ts[i..][1..] == ts[i + 1..];
  }

  lemma HoldsNone(id: Id)
    ensures !Holds([], id)
  {
  }

  class Timers {
    const addr: Address
    var timers: seq<Timer>
    var active: set<Id>
    var cancelling: set<Id>
    var calling: bool
    var created: Id
    var arming: Arming
    ghost var done: seq<Timer>
    ghost var todo: seq<Timer>
    ghost var now: int
    ghost var batches: nat
    ghost var log: seq<Note>

    ghost function View(): Queue
      reads this
    {
      Queue(timers, active, cancelling, calling, done, todo, now, batches, created, arming, log)
    }

    constructor (addr: Address)
      ensures View() == Init() && this.addr == addr
    {
      this.addr := addr;
      timers, active, cancelling, calling, created, arming := [], {}, {}, false, 0, Disarmed;
      done, todo, now, batches, log := [], [], 0, 0, [];
    }

    method InsertTimer(t: Timer) returns (earliest: bool)
      modifies this`timers
      ensures timers == Insert(addr, old(timers), t)
      ensures earliest == (old(timers) == [] || t.when < old(timers)[0].when)
    {
      hide Insert, Less;
      earliest := timers == [] || t.when < timers[0].when;
      var ts, i := timers, 0;
      assert ts[0..] == ts;
      InsertAt(addr, ts, t, 0);
      while i < |ts| && !Less(addr, t, ts[i])
        invariant i <= |ts|
        invariant Insert(addr, ts, t) == ts[..i] + Insert(addr, ts[i..], t)
      {
        InsertAt(addr, ts, t, i);
        ghost var rest := Insert(addr, ts[i + 1..], t);
        assert ts[..i] + ([ts[i]] + rest) == ts[..i + 1] + rest;
        i := i + 1;
      }
      InsertAt(addr, ts, t, i);
      timers := ts[..i] + ([t] + ts[i..]);
    }

    method AddTimer(when: int, interval: nat, clock: int) returns (id: Id)
      requires Inv(View())
      modifies this
      ensures Inv(View()) && View() == Add(addr, old(View()), when, interval, clock) && id == created
      ensures Elems(timers) == old(Elems(timers)) + {Timer(id, when, interval)} && Unused(old(View()), id)
    {
      hide Insert, Ok, Arrives, Unused, Elems;
      AddKeeps(addr, View(), when, interval, clock);
      AddQueues(addr, View(), when, interval, clock);
      id := created + 1;
      created := id;
      var earliest := InsertTimer(Timer(id, when, interval));
      active := active + {id};
      if earliest {
        arming := Arm(clock, when);
      }
    }

    /** Looks the timer up in the ordered set. */
    method Find(id: Id) returns (i: nat)
      ensures i <= |timers| && (i < |timers| <==> Holds(timers, id))
      ensures i < |timers| ==> Without(timers, id) == timers[..i] + timers[i + 1..]
    {
      hide Holds, Without;
      var ts := timers;
      i := 0;
      assert ts[0..] == ts;
      while i < |ts| && ts[i].id != id
        invariant i <= |ts|
        invariant Holds(ts, id) == Holds(ts[i..], id)
        invariant Without(ts, id) == ts[..i] + Without(ts[i..], id)
      {
        FindAt(ts, id, i);
        ghost var rest := Without(ts[i + 1..], id);
        assert ts[..i] + ([ts[i]] + rest) == ts[..i + 1] + rest;
        i := i + 1;
      }
      if i < |ts| { FindAt(ts, id, i); } else { HoldsNone(id); assert ts[i..] == []; }
    }

    /** Cancels a live timer, queued or in the batch being fired. */
    method CancelTimer(id: Id)
      requires Inv(View()) && id in active
      modifies this
      ensures Inv(View()) && View() == Cancel(old(View()), id)
      ensures Elems(timers) == (set t | t in old(Elems(timers)) && t.id != id)
      ensures forall t :: Live(View(), t) ==> t.id != id
    {
      hide Holds, Without, Ok, Arrives, Elems;
      CancelKeeps(View(), id);
      CancelRemoves(View(), id);
      log := log + [Cancelled(id)];
      var i := Find(id);
      if i < |timers| {
        active := active - {id};
        timers := timers[..i] + timers[i + 1..];
      } else if calling {
        cancelling := cancelling + {id};
      }
    }

    method GetExpired(now: int) returns (expired: seq<Timer>)
      modifies this`timers
      ensures expired == old(timers)[..Due(old(timers), now)] && timers == old(timers)[Due(old(timers), now)..]
    {
      var ts := timers;
      expired := [];
      var i := 0;
      while i < |ts| && ts[i].when <= now
        invariant i <= |ts| && Due(ts, now) == i + Due(ts[i..], now)
        invariant expired == ts[..i]
      {
        assert ts[..i + 1] == ts[..i] + [ts[i]] && ts[i..][1..] == ts[i + 1..];
        expired := expired + [ts[i]];
        i := i + 1;
      }
      timers := ts[i..];
    }

    /** What a callback does. */
    method Perform(actions: seq<Action>)
      requires Inv(View()) && LegalActions(addr, View(), actions)
      modifies this
      ensures Inv(View()) && calling == old(calling) && View() == Act(addr, old(View()), actions)
    {
      hide Add, Cancel, Inv;
      ghost var q := View();
      for i := 0 to |actions|
        invariant Inv(View())
        invariant LegalActions(addr, View(), actions[i..])
        invariant Act(addr, View(), actions[i..]) == Act(addr, q, actions)
      {
        assert actions[i..][1..] == actions[i + 1..];
        match actions[i]
        case AddIt(when, interval, clock) => var _ := AddTimer(when, interval, clock);
        case CancelIt(id) => CancelTimer(id);
      }
    }

    /** The batch after its callbacks: repeating timers go back, the others are freed. */
    method Reset(expired: seq<Timer>, now: int, clock: int)
      requires done == expired && this.now == now && todo == []
      modifies this
      ensures View() == Rearm(ResetAll(addr, old(View())), clock)
    {
      hide Insert;
      ghost var q := View();
      for i := 0 to |expired|
        invariant done == expired[i..] && this.now == now
        invariant ResetAll(addr, View()) == ResetAll(addr, q)
      {
        var t := expired[i];
        assert expired[i..][1..] == expired[i + 1..];
        done := done[1..];
        if t.interval > 0 && t.id !in cancelling {
          var _ := InsertTimer(t.(when := now + t.interval * 1000));
        } else {
          active := active - {t.id};
        }
      }
      if timers != [] {
        arming := Arm(clock, timers[0].when);
      }
    }

    /** Reads the timerfd and takes the expired timers off the set. */
    method StartBatch(now: int) returns (expired: seq<Timer>)
      modifies this
      ensures View() == Begin(old(View()), now) && expired == todo && done == [] && this.now == now
    {
      hide Due;
      expired := GetExpired(now);
      todo, done := expired, [];
      calling, cancelling := true, {};
      this.now, batches, arming := now, batches + 1, Disarmed;
    }

    /** One turn of the callback loop, up to the callback itself. */
    method Turn(t: Timer) returns (run: bool)
      requires Inv(View()) && calling && todo != [] && todo[0] == t
      modifies this
      ensures Inv(View()) && calling && View() == RunNext(old(View())) && run == (t.id !in old(cancelling))
      ensures done == old(done) + [t] && todo == old(todo)[1..] && now == old(now)
    {
      hide Ok, Arrives;
      RunNextKeeps(View());
      run := t.id !in cancelling;
      done, todo := done + [t], todo[1..];
      if run {
        log := log + [Ran(t, batches, now)];
      }
    }

    /** The callback loop over a batch. */
    method FireAll(expired: seq<Timer>, script: Script)
      requires Inv(View()) && calling && done == [] && todo == expired && Legal(addr, View(), script)
      modifies this
      ensures Inv(View()) && calling && done == expired && todo == [] && now == old(now)
      ensures View() == Fire(addr, old(View()), script)
    {
      hide Inv, RunNext, LegalActions, Act;
      ghost var q := View();
      for i := 0 to |expired|
        invariant Inv(View()) && calling && Legal(addr, View(), script)
        invariant Fire(addr, View(), script) == Fire(addr, q, script)
        invariant done == expired[..i] && todo == expired[i..] && now == old(now)
      {
        assert expired[i..][1..] == expired[i + 1..] && expired[..i + 1] == expired[..i] + [expired[i]];
        var run := Turn(expired[i]);
        Perform(if run then script(expired[i].id) else []);
      }
      assert expired[..|expired|] == expired && expired[|expired|..] == [];
    }

    /** One expiry: the due timers are taken, their callbacks run, the repeating ones go
        back, and the timerfd is armed in time. */
    method HandleRead(now: int, script: Script, clock: int)
      requires Inv(View()) && !calling && Legal(addr, Begin(View(), now), script)
      modifies this
      ensures View() == Finish(addr, Fire(addr, Begin(old(View()), now), script), clock)
      ensures Inv(View()) && !calling && Arrives(arming, timers)
      ensures DueHaveRun(old(Elems(timers)), now, old(batches) + 1, log)
    {
      hide Ok, Arrives, Fire, Legal, ResetAll, Rearm, Due, Elems, DueHaveRun;
      ExpiryRunsDue(addr, View(), now, script, clock);
      HandleReadKeeps(addr, View(), now, script, clock);
      BeginKeeps(View(), now);
      var expired := StartBatch(now);
      FireAll(expired, script);
      calling := false;
      Reset(expired, now, clock);
    }
  }

  // ---- Every history -----------------------------------------------------------------------------

  /** What happens to the queue between expiries, and an expiry with its callbacks. */
  datatype Op = Do(action: Action) | Expire(now: int, script: Script, clock: int)

  ghost predicate LegalOps(addr: Address, q: Queue, ops: seq<Op>)
    decreases |ops|
  {
    ops == [] ||
    match ops[0]
    case Do(a) => Enabled(q, EventOf(a)) && LegalOps(addr, Apply(addr, q, EventOf(a)), ops[1..])
    case Expire(now, script, clock) =>
      && !q.calling && Legal(addr, Begin(q, now), script)
      && LegalOps(addr, Finish(addr, Fire(addr, Begin(q, now), script), clock), ops[1..])
  }

  /** Every history of the timer queue object: the log of what ran and what was cancelled
      is as promised, the index is exact and the timerfd is armed in time. */
  method Replay(addr: Address, ops: seq<Op>) returns (t: Timers)
    requires LegalOps(addr, Init(), ops)
    ensures Inv(t.View()) && History(t.log) && t.active == TimerQueue.Ids(All(t.View()))
    ensures !t.calling && Arrives(t.arming, t.timers)
  {
    hide Ok, Arrives, Fire, Legal, Begin, Finish, Insert, Holds, Without;
    t := new Timers(addr);
    EmptyOk();
    for i := 0 to |ops|
      invariant fresh(t) && t.addr == addr && Inv(t.View()) && !t.calling && LegalOps(addr, t.View(), ops[i..])
    {
      assert ops[i..][1..] == ops[i + 1..];
      match ops[i]
      case Do(a) =>
        match a {
          case AddIt(when, interval, clock) => var _ := t.AddTimer(when, interval, clock);
          case CancelIt(id) => t.CancelTimer(id);
        }
      case Expire(now, script, clock) => t.HandleRead(now, script, clock);
    }
    Promises(t.View());
  }

  lemma EmptyOk()
    ensures Inv(Init())
  {
    var addr: Address := (n: Id) => 0;
    assert Run(addr, Init(), [], Init());
    TimerTheorem(addr, [], Init());
  }

  lemma Promises(q: Queue)
    requires Inv(q)
    ensures History(q.log) && q.active == TimerQueue.Ids(All(q)) && (!q.calling ==> Arrives(q.arming, q.timers))
  {
  }
}
