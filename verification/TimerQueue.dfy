/** The timer queue: timers ordered by expiration, a batch of expired ones whose
    callbacks may add and cancel timers, and the timerfd that is armed for the
    earliest (reactor/timer_queue.cc, reactor/timer.h).

    A timer is identified by its sequence number.  Equal expirations are ordered by
    the timers' addresses, which the model takes as a function `addr`.  Times are in
    microseconds. */
module TimerQueue {

  import opened Elements

  newtype Id = n: int | 0 <= n

  /** A live timer; `interval` is in milliseconds, 0 for a one-shot. */
  datatype Timer = Timer(id: Id, when: int, interval: nat)

  /** The clock when the timerfd was armed, and when it will fire. */
  datatype Arming = Disarmed | Armed(clock: int, deadline: int)

  /** The history: callbacks run, with the batch and its time, and cancellations. */
  datatype Note = Ran(timer: Timer, batch: nat, now: int) | Cancelled(id: Id)

  /** `done` and `todo` are the batch being fired, before and after the current position. */
  datatype Queue = Queue(
    timers: seq<Timer>, active: set<Id>, cancelling: set<Id>, calling: bool,
    done: seq<Timer>, todo: seq<Timer>, now: int, batches: nat,
    created: Id, arming: Arming, log: seq<Note>)

  type Address = Id -> nat

  // ---- Operations ----------------------------------------------------------------------

  predicate Less(addr: Address, a: Timer, b: Timer) {
    a.when < b.when || (a.when == b.when && addr(a.id) < addr(b.id))
  }

  /** Insertion into the ordered set. */
  function Insert(addr: Address, ts: seq<Timer>, t: Timer): seq<Timer> {
    if ts == [] || Less(addr, t, ts[0]) then [t] + ts else [ts[0]] + Insert(addr, ts[1..], t)
  }

  /** resetTimerfd: at least a microsecond ahead, since zero would disarm it. */
  function Arm(clock: int, when: int): Arming {
    Armed(clock, clock + if when - clock < 1 then 1 else when - clock)
  }

  function Add(addr: Address, q: Queue, when: int, interval: nat, clock: int): Queue {
    var t := Timer(q.created + 1, when, interval);
    q.(timers := Insert(addr, q.timers, t), active := q.active + {t.id}, created := t.id,
       arming := if q.timers == [] || when < q.timers[0].when then Arm(clock, when) else q.arming)
  }

  function Without(ts: seq<Timer>, id: Id): seq<Timer> {
    if ts == [] then [] else if ts[0].id == id then ts[1..] else [ts[0]] + Without(ts[1..], id)
  }

  predicate Holds(ts: seq<Timer>, id: Id) {
    ts != [] && (ts[0].id == id || Holds(ts[1..], id))
  }

  /** Cancels a live timer: removes it if it is queued, else marks it so that the
      batch in progress neither runs nor re-arms it. */
  function Cancel(q: Queue, id: Id): Queue {
    var q1 := q.(log := q.log + [Cancelled(id)]);
    if Holds(q.timers, id) then q1.(timers := Without(q.timers, id), active := q.active - {id})
    else if q.calling then q1.(cancelling := q.cancelling + {id})
    else q1
  }

  /** How many timers have expired at `now`. */
  function Due(ts: seq<Timer>, now: int): nat
    ensures Due(ts, now) <= |ts|
  {
    if ts == [] || ts[0].when > now then 0 else 1 + Due(ts[1..], now)
  }

  /** handleRead up to the callbacks: the timerfd is read and the expired are taken. */
  function Begin(q: Queue, now: int): Queue {
    var k := Due(q.timers, now);
    q.(timers := q.timers[k..], todo := q.timers[..k], done := [], calling := true, cancelling := {},
       now := now, batches := q.batches + 1, arming := Disarmed)
  }

  /** One turn of the callback loop; what the callback itself does follows as steps. */
  function RunNext(q: Queue): Queue
    requires q.todo != []
  {
    var t := q.todo[0];
    var q1 := q.(done := q.done + [t], todo := q.todo[1..]);
    if t.id in q.cancelling then q1 else q1.(log := q.log + [Ran(t, q.batches, q.now)])
  }

  /** One turn of the loop in reset: re-arm a repeating timer, free any other. */
  function ResetOne(addr: Address, q: Queue): Queue
    requires q.done != []
  {
    var t := q.done[0];
    var q1 := q.(done := q.done[1..]);
    if t.interval > 0 && t.id !in q.cancelling
    then q1.(timers := Insert(addr, q.timers, t.(when := q.now + t.interval * 1000)))
    else q1.(active := q.active - {t.id})
  }

  function ResetAll(addr: Address, q: Queue): Queue
    decreases |q.done|
  {
    if q.done == [] then q else ResetAll(addr, ResetOne(addr, q))
  }

  function Rearm(q: Queue, clock: int): Queue {
    if q.timers == [] then q else q.(arming := Arm(clock, q.timers[0].when))
  }

  /** The end of handleRead. */
  function Finish(addr: Address, q: Queue, clock: int): Queue {
    Rearm(ResetAll(addr, q.(calling := false)), clock)
  }

  // ---- The invariant --------------------------------------------------------------------

  ghost predicate Ordered(ts: seq<Timer>) {
    forall i, j :: 0 <= i < j < |ts| ==> ts[i].when <= ts[j].when
  }

  /** A sequence number names one timer, and has been handed out. */
  ghost predicate OneEach(all: set<Timer>, created: Id) {
    && (forall t :: t in all ==> t.id <= created)
    && (forall t, u :: t in all && u in all && t.id == u.id ==> t == u)
  }

  ghost function Ids(all: set<Timer>): set<Id> {
    set t | t in all :: t.id
  }

  ghost function All(q: Queue): set<Timer> {
    Elems(q.timers) + Elems(q.done) + Elems(q.todo)
  }

  /** The lists do not repeat or share timers, are in order of expiration, and the
      index of sequence numbers agrees with them. */
  ghost predicate ListsOk(q: Queue) {
    && Distinct(q.timers) && Distinct(q.done) && Distinct(q.todo)
    && Elems(q.timers) !! Elems(q.done) && Elems(q.timers) !! Elems(q.todo) && Elems(q.done) !! Elems(q.todo)
    && Ordered(q.timers) && Ordered(q.todo)
  }

  ghost predicate Tracked(all: set<Timer>, active: set<Id>, created: Id) {
    OneEach(all, created) && active == Ids(all)
  }

  /** Timers still to run: not before an interval after their last run. */
  ghost predicate SpacedNote(n: Note, ts: set<Timer>) {
    n.Ran? ==> forall t :: t in ts && t.id == n.timer.id ==>
      t.interval == n.timer.interval && t.interval > 0 && n.now + t.interval * 1000 <= t.when
  }

  ghost predicate Spaced(log: seq<Note>, ts: set<Timer>) {
    forall i :: 0 <= i < |log| ==> SpacedNote(log[i], ts)
  }

  /** Timers past their turn in this batch. */
  ghost predicate PastNote(n: Note, ts: set<Timer>, now: int) {
    n.Ran? ==> forall t :: t in ts && t.id == n.timer.id ==> t.interval == n.timer.interval && n.now <= now
  }

  ghost predicate Past(log: seq<Note>, ts: set<Timer>, now: int) {
    forall i :: 0 <= i < |log| ==> PastNote(log[i], ts, now)
  }

  ghost predicate ExpiredBy(ts: set<Timer>, now: int) {
    forall t :: t in ts ==> t.when <= now
  }

  /** Cancelled timers are not queued, and are skipped by the batch. */
  ghost predicate GoneNote(n: Note, timers: set<Timer>, batch: set<Timer>, cancelling: set<Id>) {
    n.Cancelled? ==>
      && (forall t :: t in timers ==> t.id != n.id)
      && (forall t :: t in batch && t.id == n.id ==> t.id in cancelling)
  }

  ghost predicate Gone(log: seq<Note>, timers: set<Timer>, batch: set<Timer>, cancelling: set<Id>) {
    forall i :: 0 <= i < |log| ==> GoneNote(log[i], timers, batch, cancelling)
  }

  ghost predicate KnownNote(n: Note, created: Id) {
    (if n.Ran? then n.timer.id else n.id) <= created
  }

  ghost predicate Known(log: seq<Note>, created: Id) {
    forall i :: 0 <= i < |log| ==> KnownNote(log[i], created)
  }

  /** What of this batch has run expired no later than what is to come. */
  ghost predicate TurnNote(n: Note, batches: nat, now: int, todo: set<Timer>) {
    n.Ran? ==>
      && n.batch <= batches
      && (n.batch == batches ==> n.now == now && forall t :: t in todo ==> n.timer.when <= t.when)
  }

  ghost predicate InTurn(log: seq<Note>, batches: nat, now: int, todo: set<Timer>) {
    forall i :: 0 <= i < |log| ==> TurnNote(log[i], batches, now, todo)
  }

  /** No timer runs before its expiration. */
  ghost predicate NotEarly(n: Note) {
    n.Ran? ==> n.timer.when <= n.now
  }

  /** What may come after what: a timer that runs again repeats, and a whole interval
      has passed; a cancelled timer does not run; a batch is in order of expiration. */
  ghost predicate Follows(a: Note, b: Note) {
    b.Ran? ==>
      if a.Cancelled? then a.id != b.timer.id
      else
        && (a.timer.id == b.timer.id ==>
             a.timer.interval == b.timer.interval > 0 && a.now + a.timer.interval * 1000 <= b.now)
        && (a.batch == b.batch ==> a.timer.when <= b.timer.when && a.now == b.now)
  }

  /** The promise, about everything that has happened. */
  ghost predicate History(log: seq<Note>) {
    && (forall i :: 0 <= i < |log| ==> NotEarly(log[i]))
    && (forall i, j :: 0 <= i < j < |log| ==> Follows(log[i], log[j]))
  }

  ghost predicate LogOk(log: seq<Note>, created: Id, timers: set<Timer>, done: set<Timer>, todo: set<Timer>,
                        cancelling: set<Id>, batches: nat, now: int) {
    && History(log) && Known(log, created)
    && Spaced(log, timers) && Spaced(log, todo) && Past(log, done, now)
    && ExpiredBy(done + todo, now)
    && Gone(log, timers, done + todo, cancelling)
    && InTurn(log, batches, now, todo)
  }

  /** Whatever had its turn in this batch ran, unless it had been cancelled. */
  ghost predicate Served(log: seq<Note>, done: set<Timer>, cancelling: set<Id>, batches: nat, now: int) {
    && (forall t :: t in done ==> t.id in cancelling || Ran(t, batches, now) in Elems(log))
    && (forall id :: id in cancelling ==> Cancelled(id) in Elems(log))
  }

  /** The timerfd fires no later than the earliest expiration, or at once if that
      was due when it was armed. */
  ghost predicate Arrives(arming: Arming, timers: seq<Timer>) {
    timers != [] ==>
      && arming.Armed?
      && (arming.deadline <= timers[0].when || arming.deadline <= arming.clock + 1)
  }

  /** What holds inside handleRead. */
  ghost predicate Ok(q: Queue) {
    && ListsOk(q) && Tracked(All(q), q.active, q.created)
    && LogOk(q.log, q.created, Elems(q.timers), Elems(q.done), Elems(q.todo), q.cancelling, q.batches, q.now)
    && Served(q.log, Elems(q.done), q.cancelling, q.batches, q.now)
  }

  /** What holds at every step. */
  ghost predicate Inv(q: Queue) {
    Ok(q) && (!q.calling ==> q.done == [] && q.todo == [] && Arrives(q.arming, q.timers))
  }

  // ---- The ordered set ---------------------------------------------------------------------

  lemma OrderedFirst(t: Timer, ts: seq<Timer>)
    requires Ordered(ts) && (ts != [] ==> t.when <= ts[0].when)
    ensures Ordered([t] + ts)
  {
  }

  lemma OrderedRest(ts: seq<Timer>)
    requires ts != [] && Ordered(ts)
    ensures Ordered(ts[1..]) && forall t :: t in Elems(ts) ==> ts[0].when <= t.when
  {
  }

  lemma {:induction false} InsertOrdered(addr: Address, ts: seq<Timer>, t: Timer)
    requires Ordered(ts)
    ensures Ordered(Insert(addr, ts, t)) && Insert(addr, ts, t) != []
    ensures Insert(addr, ts, t)[0].when == if ts == [] || t.when < ts[0].when then t.when else ts[0].when
    decreases |ts|
  {
    hide Ordered;
    if ts == [] || Less(addr, t, ts[0]) {
      OrderedFirst(t, ts);
    } else {
      OrderedRest(ts);
      assert ts[1..] != [] ==> ts[1] in Elems(ts);
      InsertOrdered(addr, ts[1..], t);
      OrderedFirst(ts[0], Insert(addr, ts[1..], t));
    }
  }

  lemma {:induction false} InsertElems(addr: Address, ts: seq<Timer>, t: Timer)
    requires Distinct(ts) && t !in Elems(ts)
    ensures Elems(Insert(addr, ts, t)) == Elems(ts) + {t} && Distinct(Insert(addr, ts, t))
    decreases |ts|
  {
    hide Elems, Distinct, Less;
    if ts == [] || Less(addr, t, ts[0]) {
      AddFirst(t, ts);
    } else {
      FirstAndRest(ts);
      InsertElems(addr, ts[1..], t);
      AddFirst(ts[0], Insert(addr, ts[1..], t));
    }
  }

  lemma {:induction false} WithoutElems(ts: seq<Timer>, id: Id)
    requires Distinct(ts) && Ordered(ts) && (forall t, u :: t in Elems(ts) && u in Elems(ts) && t.id == u.id ==> t == u)
    ensures Elems(Without(ts, id)) == (set t | t in Elems(ts) && t.id != id)
    ensures Distinct(Without(ts, id)) && Ordered(Without(ts, id))
    ensures Without(ts, id) != [] ==> ts != [] && ts[0].when <= Without(ts, id)[0].when
    decreases |ts|
  {
    hide Elems, Distinct, Ordered;
    EmptyElems<Timer>();
    if ts != [] {
      FirstAndRest(ts);
      OrderedRest(ts);
      if ts[1..] != [] { InElems(ts[1..], 0); }
      if ts[0].id != id {
        WithoutElems(ts[1..], id);
        var rest := Without(ts[1..], id);
        AddFirst(ts[0], rest);
        OrderedFirst(ts[0], rest);
      }
    }
  }

  lemma InElems<T>(v: seq<T>, i: nat)
    requires i < |v|
    ensures v[i] in Elems(v)
  {
  }

  lemma {:induction false} HoldsIffIn(ts: seq<Timer>, id: Id)
    ensures Holds(ts, id) <==> exists t :: t in Elems(ts) && t.id == id
    decreases |ts|
  {
    if ts != [] {
      HoldsIffIn(ts[1..], id);
      assert ts == [ts[0]] + ts[1..];
      AddFirst(ts[0], ts[1..]);
      assert ts[0] in Elems(ts);
    }
  }

  /** The expired timers are a prefix, and exactly those that are due. */
  lemma {:induction false} DueSplits(ts: seq<Timer>, now: int)
    requires Ordered(ts)
    ensures forall i :: 0 <= i < |ts| ==> (i < Due(ts, now) <==> ts[i].when <= now)
    decreases |ts|
  {
    if ts != [] && ts[0].when <= now {
      DueSplits(ts[1..], now);
      forall i | 0 <= i < |ts| ensures i < Due(ts, now) <==> ts[i].when <= now {
        if i > 0 { assert ts[i] == ts[1..][i - 1]; }
      }
    }
  }

  lemma Split(ts: seq<Timer>, k: nat)
    requires k <= |ts| && Distinct(ts) && Ordered(ts)
    ensures Distinct(ts[..k]) && Distinct(ts[k..]) && Ordered(ts[..k]) && Ordered(ts[k..])
    ensures Elems(ts[..k]) + Elems(ts[k..]) == Elems(ts) && Elems(ts[..k]) !! Elems(ts[k..])
  {
    assert ts == ts[..k] + ts[k..];
    forall i, j | 0 <= i < k && 0 <= j < |ts| - k ensures ts[..k][i] != ts[k..][j] {
      assert ts[i] != ts[k + j];
    }
  }

  // ---- The log, step by step ---------------------------------------------------------------

  lemma LogAdd(log: seq<Note>, created: Id, timers: set<Timer>, done: set<Timer>, todo: set<Timer>,
               cancelling: set<Id>, batches: nat, now: int, t: Timer)
    requires LogOk(log, created, timers, done, todo, cancelling, batches, now) && t.id == created + 1
    ensures LogOk(log, t.id, timers + {t}, done, todo, cancelling, batches, now)
  {
    hide History, Past, ExpiredBy, InTurn;
  }

  /** One more note. */
  lemma LogNote(log: seq<Note>, created: Id, timers: set<Timer>, done: set<Timer>, todo: set<Timer>,
                cancelling: set<Id>, batches: nat, now: int, n: Note)
    requires LogOk(log, created, timers, done, todo, cancelling, batches, now)
    requires NotEarly(n) && (forall i :: 0 <= i < |log| ==> Follows(log[i], n)) && KnownNote(n, created)
    requires SpacedNote(n, timers) && SpacedNote(n, todo) && PastNote(n, done, now)
    requires GoneNote(n, timers, done + todo, cancelling) && TurnNote(n, batches, now, todo)
    ensures LogOk(log + [n], created, timers, done, todo, cancelling, batches, now)
  {
    hide NotEarly, Follows, KnownNote, SpacedNote, PastNote, GoneNote, TurnNote, ExpiredBy;
  }

  lemma LogCancel(log: seq<Note>, created: Id, timers: set<Timer>, done: set<Timer>, todo: set<Timer>,
                  cancelling: set<Id>, batches: nat, now: int, id: Id, timers': set<Timer>, cancelling': set<Id>)
    requires LogOk(log, created, timers, done, todo, cancelling, batches, now) && id <= created
    requires timers' <= timers && (forall t :: t in timers' ==> t.id != id)
    requires cancelling <= cancelling' && ((forall t :: t in done + todo ==> t.id != id) || id in cancelling')
    ensures LogOk(log + [Cancelled(id)], created, timers', done, todo, cancelling', batches, now)
  {
    hide History, Past, InTurn, ExpiredBy, Known;
    assert LogOk(log, created, timers', done, todo, cancelling', batches, now);
    LogNote(log, created, timers', done, todo, cancelling', batches, now, Cancelled(id));
  }

  lemma LogBegin(log: seq<Note>, created: Id, timers: set<Timer>, cancelling: set<Id>, batches: nat, now: int,
                 rest: set<Timer>, todo: set<Timer>, now': int)
    requires LogOk(log, created, timers, {}, {}, cancelling, batches, now)
    requires rest <= timers && todo <= timers && ExpiredBy(todo, now')
    ensures LogOk(log, created, rest, {}, todo, {}, batches + 1, now')
  {
    hide History;
    assert {} + todo == todo;
    assert Spaced(log, rest) && Spaced(log, todo);
    assert Gone(log, rest, todo, {});
    assert InTurn(log, batches + 1, now', todo);
  }

  lemma LogSkip(log: seq<Note>, created: Id, timers: set<Timer>, done: set<Timer>, todo: set<Timer>,
                cancelling: set<Id>, batches: nat, now: int, t: Timer)
    requires LogOk(log, created, timers, done, todo, cancelling, batches, now) && t in todo
    ensures LogOk(log, created, timers, done + {t}, todo - {t}, cancelling, batches, now)
  {
    hide History, Known;
    assert (done + {t}) + (todo - {t}) == done + todo;
    assert Past(log, done + {t}, now);
  }

  lemma LogRun(log: seq<Note>, created: Id, timers: set<Timer>, done: set<Timer>, todo: set<Timer>,
               cancelling: set<Id>, batches: nat, now: int, t: Timer)
    requires LogOk(log, created, timers, done, todo, cancelling, batches, now) && t in todo && t.id !in cancelling
    requires OneEach(timers + done + todo, created) && t !in timers && t !in done
    requires forall u :: u in todo ==> t.when <= u.when
    ensures LogOk(log + [Ran(t, batches, now)], created, timers, done + {t}, todo - {t}, cancelling, batches, now)
  {
    hide LogOk, Follows;
    var n := Ran(t, batches, now);
    RunFollows(log, created, timers, done, todo, cancelling, batches, now, t);
    LogSkip(log, created, timers, done, todo, cancelling, batches, now, t);
    assert t in timers + done + todo;
    assert forall u :: u in timers || u in done || u in todo ==> u in timers + done + todo;
    LogNote(log, created, timers, done + {t}, todo - {t}, cancelling, batches, now, n);
  }

  lemma RunFollows(log: seq<Note>, created: Id, timers: set<Timer>, done: set<Timer>, todo: set<Timer>,
                   cancelling: set<Id>, batches: nat, now: int, t: Timer)
    requires LogOk(log, created, timers, done, todo, cancelling, batches, now) && t in todo && t.id !in cancelling
    ensures NotEarly(Ran(t, batches, now))
    ensures forall i :: 0 <= i < |log| ==> Follows(log[i], Ran(t, batches, now))
  {
    hide History, Known, Past;
    assert t in done + todo;
    forall i | 0 <= i < |log| ensures Follows(log[i], Ran(t, batches, now)) {
      assert SpacedNote(log[i], todo) && GoneNote(log[i], timers, done + todo, cancelling) && TurnNote(log[i], batches, now, todo);
    }
  }

  lemma LogFree(log: seq<Note>, created: Id, timers: set<Timer>, done: set<Timer>,
                cancelling: set<Id>, batches: nat, now: int, t: Timer)
    requires LogOk(log, created, timers, done, {}, cancelling, batches, now)
    ensures LogOk(log, created, timers, done - {t}, {}, cancelling, batches, now)
  {
    hide History, Known, Spaced, InTurn;
    assert forall u :: u in (done - {t}) + {} ==> u in done + {};
  }

  lemma LogRearm(log: seq<Note>, created: Id, timers: set<Timer>, done: set<Timer>,
                 cancelling: set<Id>, batches: nat, now: int, t: Timer)
    requires LogOk(log, created, timers, done, {}, cancelling, batches, now) && t in done
    requires t.interval > 0 && t.id !in cancelling
    ensures LogOk(log, created, timers + {t.(when := now + t.interval * 1000)}, done - {t}, {}, cancelling, batches, now)
  {
    hide History, Known, InTurn;
    LogFree(log, created, timers, done, cancelling, batches, now, t);
    assert t in done + {};
    assert Spaced(log, timers + {t.(when := now + t.interval * 1000)});
    assert Gone(log, timers + {t.(when := now + t.interval * 1000)}, (done - {t}) + {}, cancelling);
  }

  // ---- The index of sequence numbers ----------------------------------------------------------

  lemma TrackAdd(all: set<Timer>, active: set<Id>, created: Id, t: Timer)
    requires Tracked(all, active, created) && t.id == created + 1
    ensures Tracked(all + {t}, active + {t.id}, t.id) && t !in all
  {
    assert Ids(all + {t}) == Ids(all) + {t.id};
  }

  lemma TrackRemove(all: set<Timer>, active: set<Id>, created: Id, t: Timer)
    requires Tracked(all, active, created) && t in all
    ensures Tracked(all - {t}, active - {t.id}, created)
  {
    forall n | n in Ids(all) && n != t.id ensures n in Ids(all - {t}) {
      var u :| u in all && u.id == n;
      assert u in all - {t};
    }
  }

  /** A timer that restarts keeps its number. */
  lemma TrackRestart(all: set<Timer>, active: set<Id>, created: Id, t: Timer, t': Timer)
    requires Tracked(all, active, created) && t in all && t'.id == t.id
    ensures Tracked(all - {t} + {t'}, active, created) && (t' in all ==> t' == t)
  {
    TrackRemove(all, active, created, t);
    assert Ids(all - {t} + {t'}) == Ids(all - {t}) + {t.id};
    assert t.id in Ids(all);
  }

  lemma ActiveTimer(all: set<Timer>, active: set<Id>, created: Id, id: Id) returns (t: Timer)
    requires Tracked(all, active, created) && id in active
    ensures t in all && t.id == id && id <= created && forall u :: u in all && u.id == id ==> u == t
  {
    t :| t in all && t.id == id;
  }

  // ---- Every step keeps the invariant --------------------------------------------------------------

  lemma AddKeeps(addr: Address, q: Queue, when: int, interval: nat, clock: int)
    requires Inv(q)
    ensures Inv(Add(addr, q, when, interval, clock))
  {
    hide Elems, Distinct, Ordered, Tracked, LogOk, Insert;
    var t := Timer(q.created + 1, when, interval);
    TrackAdd(All(q), q.active, q.created, t);
    InsertOrdered(addr, q.timers, t);
    InsertElems(addr, q.timers, t);
    LogAdd(q.log, q.created, Elems(q.timers), Elems(q.done), Elems(q.todo), q.cancelling, q.batches, q.now, t);
    assert All(q) + {t} == All(Add(addr, q, when, interval, clock));
  }

  lemma CancelQueuedKeeps(q: Queue, t: Timer)
    requires Inv(q) && t in Elems(q.timers)
    ensures Holds(q.timers, t.id) && Inv(Cancel(q, t.id))
  {
    hide Elems, Distinct, Ordered, LogOk, Without, Ids;
    AddLast(q.log, Cancelled(t.id));
    HoldsIffIn(q.timers, t.id);
    assert forall u :: u in Elems(q.timers) ==> u in All(q);
    assert forall u :: u in Elems(q.done) + Elems(q.todo) ==> u in All(q);
    TrackRemove(All(q), q.active, q.created, t);
    WithoutElems(q.timers, t.id);
    LogCancel(q.log, q.created, Elems(q.timers), Elems(q.done), Elems(q.todo), q.cancelling, q.batches, q.now,
              t.id, Elems(Without(q.timers, t.id)), q.cancelling);
    assert All(q) - {t} == All(Cancel(q, t.id));
  }

  lemma CancelFiringKeeps(q: Queue, t: Timer)
    requires Inv(q) && t in All(q) && t !in Elems(q.timers)
    ensures !Holds(q.timers, t.id) && Inv(Cancel(q, t.id))
  {
    hide Elems, Distinct, Ordered, LogOk, Without, Ids;
    AddLast(q.log, Cancelled(t.id));
    HoldsIffIn(q.timers, t.id);
    EmptyElems<Timer>();
    assert forall u :: u in Elems(q.timers) ==> u in All(q);
    assert q.calling;
    LogCancel(q.log, q.created, Elems(q.timers), Elems(q.done), Elems(q.todo), q.cancelling, q.batches, q.now,
              t.id, Elems(q.timers), q.cancelling + {t.id});
  }

  lemma CancelKeeps(q: Queue, id: Id)
    requires Inv(q) && id in q.active
    ensures Inv(Cancel(q, id))
  {
    hide Elems, ListsOk, Tracked, LogOk, Cancel;
    var t := ActiveTimer(All(q), q.active, q.created, id);
    if t in Elems(q.timers) { CancelQueuedKeeps(q, t); } else { CancelFiringKeeps(q, t); }
  }

  lemma BeginKeeps(q: Queue, now: int)
    requires Inv(q) && !q.calling
    ensures Inv(Begin(q, now))
    ensures forall t :: t in Elems(q.timers) ==> (t in Elems(Begin(q, now).todo) <==> t.when <= now)
  {
    hide Elems, Distinct, Ordered, Tracked, LogOk, Due;
    var k := Due(q.timers, now);
    EmptyElems<Timer>();
    Split(q.timers, k);
    assert ExpiredBy(Elems(q.timers[..k]), now) && (forall t :: t in Elems(q.timers[k..]) ==> t.when > now) by {
      DueElems(q.timers, now);
    }
    LogBegin(q.log, q.created, Elems(q.timers), q.cancelling, q.batches, q.now, Elems(q.timers[k..]), Elems(q.timers[..k]), now);
    assert All(Begin(q, now)) == All(q);
  }

  lemma DueElems(ts: seq<Timer>, now: int)
    requires Ordered(ts)
    ensures ExpiredBy(Elems(ts[..Due(ts, now)]), now)
    ensures forall t :: t in Elems(ts[Due(ts, now)..]) ==> t.when > now
  {
    hide Due;
    DueSplits(ts, now);
  }

  lemma RunNextKeeps(q: Queue)
    requires Inv(q) && q.calling && q.todo != []
    ensures Inv(RunNext(q))
  {
    hide Elems, Distinct, Ordered, LogOk, Ids;
    var t := q.todo[0];
    AddLast(q.log, Ran(t, q.batches, q.now));
    FirstAndRest(q.todo);
    OrderedRest(q.todo);
    AddLast(q.done, t);
    assert Elems(q.todo[1..]) == Elems(q.todo) - {t};
    if t.id in q.cancelling {
      LogSkip(q.log, q.created, Elems(q.timers), Elems(q.done), Elems(q.todo), q.cancelling, q.batches, q.now, t);
    } else {
      LogRun(q.log, q.created, Elems(q.timers), Elems(q.done), Elems(q.todo), q.cancelling, q.batches, q.now, t);
    }
    assert All(RunNext(q)) == All(q);
  }

  lemma ResetOneKeeps(addr: Address, q: Queue)
    requires Ok(q) && q.todo == [] && q.done != []
    ensures Ok(ResetOne(addr, q))
  {
    hide Elems, Distinct, Ordered, LogOk, Tracked, Insert;
    var t := q.done[0];
    FirstAndRest(q.done);
    EmptyElems<Timer>();
    assert Elems(q.done[1..]) == Elems(q.done) - {t};
    if t.interval > 0 && t.id !in q.cancelling {
      var t' := t.(when := q.now + t.interval * 1000);
      TrackRestart(All(q), q.active, q.created, t, t');
      InsertOrdered(addr, q.timers, t');
      InsertElems(addr, q.timers, t');
      LogRearm(q.log, q.created, Elems(q.timers), Elems(q.done), q.cancelling, q.batches, q.now, t);
      assert All(ResetOne(addr, q)) == All(q) - {t} + {t'};
    } else {
      TrackRemove(All(q), q.active, q.created, t);
      LogFree(q.log, q.created, Elems(q.timers), Elems(q.done), q.cancelling, q.batches, q.now, t);
      assert All(ResetOne(addr, q)) == All(q) - {t};
    }
  }

  lemma {:induction false} ResetAllKeeps(addr: Address, q: Queue)
    requires Ok(q) && q.todo == []
    ensures Ok(ResetAll(addr, q)) && ResetAll(addr, q).done == [] && ResetAll(addr, q).todo == []
    ensures ResetAll(addr, q).calling == q.calling
    decreases |q.done|
  {
    hide Ok;
    if q.done != [] {
      ResetOneKeeps(addr, q);
      ResetAllKeeps(addr, ResetOne(addr, q));
    }
  }

  /** Re-arming: the queued timers stay, and every repeating timer of the batch that
      was not cancelled is queued again, one interval after the batch. */
  lemma {:induction false} ResetAllRearms(addr: Address, q: Queue)
    requires Ok(q) && q.todo == []
    ensures Elems(q.timers) <= Elems(ResetAll(addr, q).timers)
    ensures forall t :: t in Elems(q.done) && t.interval > 0 && t.id !in q.cancelling ==>
              t.(when := q.now + t.interval * 1000) in Elems(ResetAll(addr, q).timers)
    decreases |q.done|
  {
    hide Elems, Distinct, Ordered, LogOk, Tracked, Served, Insert;
    EmptyElems<Timer>();
    if q.done != [] {
      var t := q.done[0];
      var t' := t.(when := q.now + t.interval * 1000);
      FirstAndRest(q.done);
      TrackRestart(All(q), q.active, q.created, t, t');
      InsertElems(addr, q.timers, t');
      ResetOneKeeps(addr, q);
      ResetAllRearms(addr, ResetOne(addr, q));
    }
  }

  lemma FinishKeeps(addr: Address, q: Queue, clock: int)
    requires Inv(q) && q.calling && q.todo == []
    ensures Inv(Finish(addr, q, clock)) && !Finish(addr, q, clock).calling
  {
    hide Elems, Distinct, Ordered, LogOk, Tracked, ResetAll;
    assert All(q.(calling := false)) == All(q);
    ResetAllKeeps(addr, q.(calling := false));
    var r := ResetAll(addr, q.(calling := false));
    assert All(Rearm(r, clock)) == All(r);
  }

  // ---- Every run -----------------------------------------------------------------------------------

  /** A callback's own actions come after its `RunNext`. */
  datatype Event =
    | DoAdd(when: int, interval: nat, clock: int)
    | DoCancel(id: Id)
    | DoBegin(now: int)
    | DoRunNext
    | DoFinish(clock: int)

  /** Only a live timer is cancelled: the handle is dereferenced. */
  predicate Enabled(q: Queue, e: Event) {
    match e
    case DoAdd(_, _, _) => true
    case DoCancel(id) => id in q.active
    case DoBegin(_) => !q.calling
    case DoRunNext => q.calling && q.todo != []
    case DoFinish(_) => q.calling && q.todo == []
  }

  function Apply(addr: Address, q: Queue, e: Event): Queue
    requires Enabled(q, e)
  {
    match e
    case DoAdd(when, interval, clock) => Add(addr, q, when, interval, clock)
    case DoCancel(id) => Cancel(q, id)
    case DoBegin(now) => Begin(q, now)
    case DoRunNext => RunNext(q)
    case DoFinish(clock) => Finish(addr, q, clock)
  }

  function Init(): Queue {
    Queue([], {}, {}, false, [], [], 0, 0, 0, Disarmed, [])
  }

  predicate Run(addr: Address, q: Queue, es: seq<Event>, r: Queue)
    decreases |es|
  {
    if es == [] then r == q
    else Enabled(q, es[0]) && Run(addr, Apply(addr, q, es[0]), es[1..], r)
  }

  lemma StepKeeps(addr: Address, q: Queue, e: Event)
    requires Inv(q) && Enabled(q, e)
    ensures Inv(Apply(addr, q, e))
  {
    hide Inv, Add, Cancel, Begin, RunNext, Finish;
    match e
    case DoAdd(when, interval, clock) => AddKeeps(addr, q, when, interval, clock);
    case DoCancel(id) => CancelKeeps(q, id);
    case DoBegin(now) => BeginKeeps(q, now);
    case DoRunNext => RunNextKeeps(q);
    case DoFinish(clock) => FinishKeeps(addr, q, clock);
  }

  lemma {:induction false} RunKeeps(addr: Address, q: Queue, es: seq<Event>, r: Queue)
    requires Inv(q) && Run(addr, q, es, r)
    ensures Inv(r)
    decreases |es|
  {
    hide Inv;
    if es != [] {
      StepKeeps(addr, q, es[0]);
      RunKeeps(addr, Apply(addr, q, es[0]), es[1..], r);
    }
  }

  /** Every run from an empty queue: the history is as promised, the index agrees
      with the live timers, and outside handleRead the timerfd is armed in time. */
  lemma TimerTheorem(addr: Address, es: seq<Event>, q: Queue)
    requires Run(addr, Init(), es, q)
    ensures Inv(q) && History(q.log) && q.active == Ids(All(q))
    ensures !q.calling ==> Arrives(q.arming, q.timers)
  {
    assert Inv(Init()) by {
      EmptyElems<Timer>();
      EmptyElems<Note>();
      assert Ids({}) == {};
    }
    RunKeeps(addr, Init(), es, q);
  }
}
