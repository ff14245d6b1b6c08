/** The worker pool with a bounded queue (concurrent/thread_pool.cc), as atomic
    steps: each step is what one thread does while it holds the mutex, or one task
    it runs outside it.  A thread that waits on a condition variable is un-notified
    until a notification, or a spurious wakeup, reaches it; then it must still take
    the mutex and look at its condition again.

    A pool without workers, because it was started with none or because `stop` has
    joined and cleared them, runs tasks in the caller's thread. */
module ThreadPool {

  newtype Task = n: int | 0 <= n
  newtype Producer = p: int | 0 <= p

  /** A worker: about to take the mutex, waiting for tasks, woken from that wait,
      running the rest of its batch, or returned from its loop. */
  datatype Worker = Fetching | Waiting | Woken | Running(batch: seq<Task>) | Exited

  /** A call of `run`, or of tryRun (`Trying`), that saw workers and has not returned. */
  datatype Call = Entering(task: Task) | Blocked(task: Task) | Notified(task: Task) | Trying(task: Task)

  /** How far `stop` has come. */
  datatype Stop = NotCalled | FlagCleared | WorkersNotified | Joining | Returned

  /** `limit` 0 is unbounded.  `accepted`, `taken` and `executed` are history. */
  datatype Pool = Pool(
    limit: nat, batchSize: nat,
    queue: seq<Task>, workers: seq<Worker>, calls: map<Producer, Call>,
    running: bool, stop: Stop,
    accepted: seq<Task>, taken: seq<Task>, executed: seq<Task>)

  // ---- Under the mutex ---------------------------------------------------------------------

  predicate Full(limit: nat, queue: seq<Task>) {
    limit > 0 && |queue| >= limit
  }

  /** Rounded up. */
  function FairShare(queued: nat, workers: nat): nat
    requires workers > 0
  {
    (queued + workers - 1) / workers
  }

  function Min(a: nat, b: nat): nat {
    if a < b then a else b
  }

  function BatchLength(queued: nat, workers: nat, batchSize: nat): nat
    requires workers > 0
  {
    Min(Min(if batchSize > 0 then batchSize else 1, FairShare(queued, workers)), queued)
  }

  /** A worker takes at least one task, no more than its share and the batch size. */
  lemma BatchBounds(queued: nat, workers: nat, batchSize: nat)
    requires workers > 0 && queued > 0
    ensures var n := BatchLength(queued, workers, batchSize);
            && 1 <= n <= queued && (batchSize > 0 ==> n <= batchSize)
            && (n - 1) * workers < queued
  {
    var share := FairShare(queued, workers);
    assert queued + workers - 1 == share * workers + (queued + workers - 1) % workers;
    assert share >= 1 && (share - 1) * workers < queued;
    var n := BatchLength(queued, workers, batchSize);
    assert (n - 1) * workers <= (share - 1) * workers;
  }

  /** The loop of takeBatch: moves `n` tasks from the front of the queue. */
  method TakeTasks(queue: seq<Task>, n: nat) returns (out: seq<Task>, rest: seq<Task>)
    requires n <= |queue|
    ensures out == queue[..n] && rest == queue[n..]
  {
    out, rest := [], queue;
    for i := 0 to n
      invariant out == queue[..i] && rest == queue[i..]
    {
      out := out + [rest[0]];
      rest := rest[1..];
    }
  }

  /** notify_one on the workers: `w` is one that waits, if any does. */
  function WakeOne(workers: seq<Worker>, w: nat): seq<Worker> {
    if w < |workers| && workers[w].Waiting? then workers[w := Woken] else workers
  }

  function WakeWorkers(workers: seq<Worker>): (r: seq<Worker>)
    ensures |r| == |workers|
    ensures forall i :: 0 <= i < |r| ==> r[i] == if workers[i].Waiting? then Woken else workers[i]
  {
    if workers == [] then []
    else [if workers[0].Waiting? then Woken else workers[0]] + WakeWorkers(workers[1..])
  }

  function WakeCalls(calls: map<Producer, Call>): map<Producer, Call> {
    map p | p in calls :: if calls[p].Blocked? then Notified(calls[p].task) else calls[p]
  }

  function Push(p: Pool, t: Task, w: nat): Pool {
    p.(queue := p.queue + [t], accepted := p.accepted + [t], workers := WakeOne(p.workers, w))
  }

  /** `run` with the mutex: block while full, give up when stopping, else push. */
  function Submit(p: Pool, c: Producer, w: nat): Pool
    requires c in p.calls
  {
    var t := p.calls[c].task;
    if Full(p.limit, p.queue) && p.running then p.(calls := p.calls[c := Blocked(t)])
    else
      var p1 := p.(calls := p.calls - {c});
      if p.running then Push(p1, t, w) else p1
  }

  /** tryRun with the mutex: rejected when stopping or full. */
  function TrySubmit(p: Pool, c: Producer, w: nat): Pool
    requires c in p.calls
  {
    var p1 := p.(calls := p.calls - {c});
    if !p.running || Full(p.limit, p.queue) then p1 else Push(p1, p.calls[c].task, w)
  }

  /** Without workers the caller runs it at once. */
  function Inline(p: Pool, t: Task): Pool {
    p.(accepted := p.accepted + [t], taken := p.taken + [t], executed := p.executed + [t])
  }

  /** takeBatch with the mutex: wait, leave the loop, or take a batch and wake every
      blocked producer if the queue had been full. */
  function Fetch(p: Pool, i: nat): Pool
    requires i < |p.workers|
  {
    if p.queue == [] then p.(workers := p.workers[i := if p.running then Waiting else Exited])
    else
      var n := BatchLength(|p.queue|, |p.workers|, p.batchSize);
      p.(queue := p.queue[n..], taken := p.taken + p.queue[..n], workers := p.workers[i := Running(p.queue[..n])],
         calls := if Full(p.limit, p.queue) then WakeCalls(p.calls) else p.calls)
  }

  /** A worker runs the next task of its batch. */
  function Execute(p: Pool, i: nat): Pool
    requires i < |p.workers| && p.workers[i].Running? && p.workers[i].batch != []
  {
    var b := p.workers[i].batch;
    p.(executed := p.executed + [b[0]], workers := p.workers[i := if |b| == 1 then Fetching else Running(b[1..])])
  }

  // ---- Steps -----------------------------------------------------------------------------------

  datatype Event =
    | CallRun(c: Producer, t: Task)
    | DoSubmit(c: Producer, w: nat)
    | CallTryRun(c: Producer, t: Task)
    | DoTryRun(c: Producer, w: nat)
    | RunInline(t: Task)
    | DoFetch(i: nat)
    | DoExecute(i: nat)
    | WorkerSpurious(i: nat)
    | ProducerSpurious(c: Producer)
    | StopFlag
    | StopNotifyWorkers
    | StopNotifyProducers
    | StopJoined

  ghost predicate AnyWaiting(workers: seq<Worker>) {
    exists i :: 0 <= i < |workers| && workers[i].Waiting?
  }

  /** notify_one must pick a waiting worker if there is one. */
  ghost predicate Choice(workers: seq<Worker>, w: nat) {
    AnyWaiting(workers) ==> w < |workers| && workers[w].Waiting?
  }

  ghost predicate AllExited(workers: seq<Worker>) {
    forall i :: 0 <= i < |workers| ==> workers[i].Exited?
  }

  ghost predicate Enabled(p: Pool, e: Event) {
    match e
    case CallRun(c, _) => c !in p.calls && p.workers != []
    case DoSubmit(c, w) => c in p.calls && (p.calls[c].Entering? || p.calls[c].Notified?) && Choice(p.workers, w)
    case CallTryRun(c, _) => c !in p.calls && p.workers != []
    case DoTryRun(c, w) => c in p.calls && p.calls[c].Trying? && Choice(p.workers, w)
    case RunInline(_) => p.workers == []
    case DoFetch(i) => i < |p.workers| && (p.workers[i].Fetching? || p.workers[i].Woken?)
    case DoExecute(i) => i < |p.workers| && p.workers[i].Running? && p.workers[i].batch != []
    case WorkerSpurious(i) => i < |p.workers| && p.workers[i].Waiting?
    case ProducerSpurious(c) => c in p.calls && p.calls[c].Blocked?
    case StopFlag => p.stop.NotCalled?
    case StopNotifyWorkers => p.stop.FlagCleared?
    case StopNotifyProducers => p.stop.WorkersNotified?
    case StopJoined => p.stop.Joining? && AllExited(p.workers)
  }

  ghost function Apply(p: Pool, e: Event): Pool
    requires Enabled(p, e)
  {
    match e
    case CallRun(c, t) => p.(calls := p.calls[c := Entering(t)])
    case DoSubmit(c, w) => Submit(p, c, w)
    case CallTryRun(c, t) => p.(calls := p.calls[c := Trying(t)])
    case DoTryRun(c, w) => TrySubmit(p, c, w)
    case RunInline(t) => Inline(p, t)
    case DoFetch(i) => Fetch(p, i)
    case DoExecute(i) => Execute(p, i)
    case WorkerSpurious(i) => p.(workers := p.workers[i := Woken])
    case ProducerSpurious(c) => p.(calls := p.calls[c := Notified(p.calls[c].task)])
    case StopFlag => p.(running := false, stop := FlagCleared)
    case StopNotifyWorkers => p.(workers := WakeWorkers(p.workers), stop := WorkersNotified)
    case StopNotifyProducers => p.(calls := WakeCalls(p.calls), stop := Joining)
    case StopJoined => p.(workers := [], stop := Returned)
  }

  /** Just started, with `n` workers. */
  function Init(n: nat, limit: nat, batchSize: nat): Pool {
    Pool(limit, batchSize, [], seq(n, i => Fetching), map[], true, NotCalled, [], [], [])
  }

  // ---- The invariant ------------------------------------------------------------------------------

  /** How often `t` occurs in a list. */
  function Count(s: seq<Task>, t: Task): nat {
    multiset(s)[t]
  }

  lemma CountConcat(a: seq<Task>, b: seq<Task>, t: Task)
    ensures Count(a + b, t) == Count(a, t) + Count(b, t)
  {
  }

  function Held(w: Worker, t: Task): nat {
    if w.Running? then Count(w.batch, t) else 0
  }

  /** How often the workers have taken `t` and not yet run it. */
  function InHand(workers: seq<Worker>, t: Task): nat {
    if workers == [] then 0 else Held(workers[0], t) + InHand(workers[1..], t)
  }

  ghost predicate Accounted(workers: seq<Worker>, taken: seq<Task>, executed: seq<Task>) {
    forall t :: Count(taken, t) == InHand(workers, t) + Count(executed, t)
  }

  /** Every accepted task is queued, in one worker's batch, or has run, once; tasks
      are taken in the order they were accepted. */
  ghost predicate Conserved(queue: seq<Task>, workers: seq<Worker>, accepted: seq<Task>, taken: seq<Task>, executed: seq<Task>) {
    accepted == taken + queue && Accounted(workers, taken, executed)
  }

  /** A blocked producer that nobody has notified faces a full queue, or a `stop`
      that has yet to notify. */
  ghost predicate NoLostProducer(p: Pool) {
    forall c :: c in p.calls && p.calls[c].Blocked? ==>
      Full(p.limit, p.queue) && (p.running || p.stop.FlagCleared? || p.stop.WorkersNotified?)
  }

  predicate Awake(w: Worker) {
    w.Fetching? || w.Woken? || w.Running?
  }

  ghost predicate SomeAwake(workers: seq<Worker>) {
    exists i :: 0 <= i < |workers| && Awake(workers[i])
  }

  /** While tasks are queued some worker is on its way to them. */
  ghost predicate NoLostWorker(p: Pool) {
    p.queue != [] ==> SomeAwake(p.workers)
  }

  ghost predicate WorkersOk(p: Pool) {
    && (p.workers == [] ==> p.queue == [] && (p.calls == map[] || !p.running))
    && (forall i :: 0 <= i < |p.workers| && p.workers[i].Running? ==> p.workers[i].batch != [])
    && (forall i :: 0 <= i < |p.workers| && p.workers[i].Exited? ==> !p.running && p.queue == [])
    && (forall i :: 0 <= i < |p.workers| && p.workers[i].Waiting? ==> p.running || p.stop.FlagCleared?)
  }

  ghost predicate StopOk(p: Pool) {
    && (p.running <==> p.stop.NotCalled?)
    && (p.stop.Returned? ==> p.workers == [])
  }

  ghost predicate Inv(p: Pool) {
    && Conserved(p.queue, p.workers, p.accepted, p.taken, p.executed)
    && NoLostProducer(p) && NoLostWorker(p) && WorkersOk(p) && StopOk(p)
    && (p.limit > 0 ==> |p.queue| <= p.limit)
  }

  // ---- Tasks in hand -------------------------------------------------------------------------------

  lemma {:induction false} InHandUpdate(workers: seq<Worker>, i: nat, w: Worker, t: Task)
    requires i < |workers|
    ensures InHand(workers[i := w], t) + Held(workers[i], t) == InHand(workers, t) + Held(w, t)
    decreases i
  {
    hide Held;
    var v := workers[i := w];
    if i == 0 {
      assert v[1..] == workers[1..];
    } else {
      assert v[1..] == workers[1..][i - 1 := w];
      InHandUpdate(workers[1..], i - 1, w, t);
    }
  }

  lemma {:induction false} InHandWake(workers: seq<Worker>, t: Task)
    ensures InHand(WakeWorkers(workers), t) == InHand(workers, t)
  {
    if workers != [] {
      InHandWake(workers[1..], t);
      assert WakeWorkers(workers)[1..] == WakeWorkers(workers[1..]);
    }
  }

  lemma {:induction false} NothingInHand(workers: seq<Worker>, t: Task)
    requires forall i :: 0 <= i < |workers| ==> Held(workers[i], t) == 0
    ensures InHand(workers, t) == 0
  {
    if workers != [] { NothingInHand(workers[1..], t); }
  }

  lemma ConservedSame(p: Pool, i: nat, w: Worker)
    requires Conserved(p.queue, p.workers, p.accepted, p.taken, p.executed)
    requires i < |p.workers| && !p.workers[i].Running? && !w.Running?
    ensures Conserved(p.queue, p.workers[i := w], p.accepted, p.taken, p.executed)
  {
    hide Count, InHand;
    forall t ensures InHand(p.workers[i := w], t) == InHand(p.workers, t) { InHandUpdate(p.workers, i, w, t); }
  }

  lemma ConservedPush(p: Pool, t: Task, w: nat)
    requires Conserved(p.queue, p.workers, p.accepted, p.taken, p.executed)
    ensures Conserved(p.queue + [t], WakeOne(p.workers, w), p.accepted + [t], p.taken, p.executed)
  {
    hide Accounted;
    assert p.taken + p.queue + [t] == p.taken + (p.queue + [t]);
    if w < |p.workers| && p.workers[w].Waiting? { ConservedSame(p, w, Woken); }
  }

  lemma ConservedTake(p: Pool, i: nat, n: nat)
    requires Conserved(p.queue, p.workers, p.accepted, p.taken, p.executed)
    requires i < |p.workers| && !p.workers[i].Running? && n <= |p.queue|
    ensures Conserved(p.queue[n..], p.workers[i := Running(p.queue[..n])], p.accepted, p.taken + p.queue[..n], p.executed)
  {
    hide InHand, Count;
    var b := p.queue[..n];
    assert p.taken + p.queue == p.taken + b + p.queue[n..] by { assert p.queue == b + p.queue[n..]; }
    forall t ensures Count(p.taken + b, t) == InHand(p.workers[i := Running(b)], t) + Count(p.executed, t) {
      InHandUpdate(p.workers, i, Running(b), t);
      CountConcat(p.taken, b, t);
    }
  }

  lemma ConservedExecute(p: Pool, i: nat)
    requires Conserved(p.queue, p.workers, p.accepted, p.taken, p.executed)
    requires i < |p.workers| && p.workers[i].Running? && p.workers[i].batch != []
    ensures var q := Execute(p, i); Conserved(q.queue, q.workers, q.accepted, q.taken, q.executed)
  {
    hide InHand, Count;
    var b := p.workers[i].batch;
    var w := if |b| == 1 then Fetching else Running(b[1..]);
    assert b == [b[0]] + b[1..];
    forall t ensures Count(p.taken, t) == InHand(p.workers[i := w], t) + Count(p.executed + [b[0]], t) {
      InHandUpdate(p.workers, i, w, t);
      CountConcat(p.executed, [b[0]], t);
      CountConcat([b[0]], b[1..], t);
      NoneOfNothing(t);
    }
  }

  lemma ConservedInline(p: Pool, t: Task)
    requires Conserved(p.queue, p.workers, p.accepted, p.taken, p.executed) && p.queue == []
    ensures var q := Inline(p, t); Conserved(q.queue, q.workers, q.accepted, q.taken, q.executed)
  {
    hide InHand, Count;
    assert p.taken + [t] == p.taken + [t] + [] && p.accepted == p.taken;
    forall u ensures Count(p.taken + [t], u) == InHand(p.workers, u) + Count(p.executed + [t], u) {
      CountConcat(p.taken, [t], u);
      CountConcat(p.executed, [t], u);
    }
  }

  lemma ConservedJoin(p: Pool)
    requires Conserved(p.queue, p.workers, p.accepted, p.taken, p.executed) && AllExited(p.workers)
    ensures Conserved(p.queue, [], p.accepted, p.taken, p.executed)
  {
    forall t ensures InHand(p.workers, t) == InHand([], t) { NothingInHand(p.workers, t); }
  }

  lemma NoneOfNothing(t: Task)
    ensures Count([], t) == 0
  {
  }

  // ---- Every step ------------------------------------------------------------------------------------

  lemma SomeoneAwake(p: Pool, w: nat)
    requires WorkersOk(p) && p.workers != [] && p.running && Choice(p.workers, w)
    ensures SomeAwake(WakeOne(p.workers, w))
  {
    var v := WakeOne(p.workers, w);
    if AnyWaiting(p.workers) {
      assert Awake(v[w]);
    } else {
      assert !p.workers[0].Waiting? && !p.workers[0].Exited?;
      assert Awake(v[0]);
    }
  }

  lemma PushKeeps(p: Pool, t: Task, w: nat)
    requires Inv(p) && p.workers != [] && p.running && !Full(p.limit, p.queue) && Choice(p.workers, w)
    ensures Inv(Push(p, t, w))
  {
    hide Conserved, SomeAwake;
    ConservedPush(p, t, w);
    SomeoneAwake(p, w);
  }

  lemma SubmitKeeps(p: Pool, c: Producer, w: nat)
    requires Inv(p) && c in p.calls && Choice(p.workers, w)
    ensures Inv(Submit(p, c, w))
  {
    hide Conserved, SomeAwake, Choice, WakeOne;
    if p.running && !Full(p.limit, p.queue) {
      var p1 := p.(calls := p.calls - {c});
      assert Inv(p1);
      PushKeeps(p1, p.calls[c].task, w);
    }
  }

  lemma TrySubmitKeeps(p: Pool, c: Producer, w: nat)
    requires Inv(p) && c in p.calls && Choice(p.workers, w)
    ensures Inv(TrySubmit(p, c, w))
  {
    hide Conserved, SomeAwake, Choice, WakeOne;
    var p1 := p.(calls := p.calls - {c});
    assert Inv(p1);
    if p.running && !Full(p.limit, p.queue) { PushKeeps(p1, p.calls[c].task, w); }
  }

  lemma FetchKeeps(p: Pool, i: nat)
    requires Inv(p) && i < |p.workers| && (p.workers[i].Fetching? || p.workers[i].Woken?)
    ensures Inv(Fetch(p, i))
  {
    hide Conserved, BatchLength;
    if p.queue == [] {
      ConservedSame(p, i, if p.running then Waiting else Exited);
    } else {
      var n := BatchLength(|p.queue|, |p.workers|, p.batchSize);
      BatchBounds(|p.queue|, |p.workers|, p.batchSize);
      ConservedTake(p, i, n);
      assert Awake(Fetch(p, i).workers[i]);
    }
  }

  lemma ExecuteKeeps(p: Pool, i: nat)
    requires Inv(p) && i < |p.workers| && p.workers[i].Running? && p.workers[i].batch != []
    ensures Inv(Execute(p, i))
  {
    hide Conserved;
    ConservedExecute(p, i);
    assert Awake(Execute(p, i).workers[i]);
  }

  lemma WakeKeeps(p: Pool, i: nat)
    requires Inv(p) && i < |p.workers| && p.workers[i].Waiting?
    ensures Inv(p.(workers := p.workers[i := Woken]))
  {
    hide Conserved;
    ConservedSame(p, i, Woken);
    assert Awake(p.workers[i := Woken][i]);
  }

  lemma NotifyWorkersKeeps(p: Pool)
    requires Inv(p) && p.stop.FlagCleared?
    ensures Inv(p.(workers := WakeWorkers(p.workers), stop := WorkersNotified))
  {
    forall t ensures InHand(WakeWorkers(p.workers), t) == InHand(p.workers, t) { InHandWake(p.workers, t); }
    if p.queue != [] {
      var i :| 0 <= i < |p.workers| && Awake(p.workers[i]);
      assert Awake(WakeWorkers(p.workers)[i]);
    }
  }

  lemma StepKeeps(p: Pool, e: Event)
    requires Inv(p) && Enabled(p, e)
    ensures Inv(Apply(p, e))
  {
    hide Conserved, SomeAwake, Choice, WakeOne, Submit, TrySubmit, Fetch, Execute, Push, WakeWorkers;
    match e
    case CallRun(c, t) =>
    case DoSubmit(c, w) => SubmitKeeps(p, c, w);
    case CallTryRun(c, t) =>
    case DoTryRun(c, w) => TrySubmitKeeps(p, c, w);
    case RunInline(t) => ConservedInline(p, t);
    case DoFetch(i) => FetchKeeps(p, i);
    case DoExecute(i) => ExecuteKeeps(p, i);
    case WorkerSpurious(i) => WakeKeeps(p, i);
    case ProducerSpurious(c) =>
    case StopFlag =>
    case StopNotifyWorkers => NotifyWorkersKeeps(p);
    case StopNotifyProducers =>
    case StopJoined => JoinKeeps(p);
  }

  lemma JoinKeeps(p: Pool)
    requires Inv(p) && p.stop.Joining? && AllExited(p.workers)
    ensures Inv(p.(workers := [], stop := Returned))
  {
    hide Conserved;
    ConservedJoin(p);
    if p.workers != [] { assert p.workers[0].Exited?; }
  }

  ghost predicate Run(p: Pool, es: seq<Event>, q: Pool)
    decreases |es|
  {
    if es == [] then q == p else Enabled(p, es[0]) && Run(Apply(p, es[0]), es[1..], q)
  }

  lemma {:induction false} RunKeeps(p: Pool, es: seq<Event>, q: Pool)
    requires Inv(p) && Run(p, es, q)
    ensures Inv(q)
    decreases |es|
  {
    hide Inv, Apply, Enabled;
    if es != [] {
      StepKeeps(p, es[0]);
      RunKeeps(Apply(p, es[0]), es[1..], q);
    }
  }

  /** Every interleaving, with any number of workers. */
  lemma PoolTheorem(n: nat, limit: nat, batchSize: nat, es: seq<Event>, q: Pool)
    requires Run(Init(n, limit, batchSize), es, q)
    ensures Inv(q)
  {
    forall t ensures InHand(Init(n, limit, batchSize).workers, t) == 0 {
      NothingInHand(Init(n, limit, batchSize).workers, t);
    }
    RunKeeps(Init(n, limit, batchSize), es, q);
  }

  // ---- What the invariant gives ----------------------------------------------------------------------

  /** When `stop` has returned, and ever after, every accepted task has run, exactly once. */
  lemma DrainedWhenStopped(p: Pool)
    requires Inv(p) && p.stop.Returned?
    ensures p.queue == [] && multiset(p.executed) == multiset(p.accepted)
  {
    assert p.accepted == p.taken;
    forall t ensures Count(p.executed, t) == Count(p.accepted, t) { NothingInHand(p.workers, t); }
    assert forall t :: multiset(p.executed)[t] == Count(p.executed, t) && multiset(p.accepted)[t] == Count(p.accepted, t);
  }

  /** No deadlock: whenever a task is queued or a producer is blocked un-notified
      while the pool runs, some worker can take a step; and after `stop` has notified,
      every worker that has not returned can. */
  lemma Progress(p: Pool)
    requires Inv(p)
    ensures p.queue != [] || (p.running && exists c :: c in p.calls && p.calls[c].Blocked?) ==>
              exists i :: Enabled(p, DoFetch(i)) || Enabled(p, DoExecute(i))
    ensures p.stop.WorkersNotified? || p.stop.Joining? ==>
              forall i :: 0 <= i < |p.workers| && !p.workers[i].Exited? ==> Enabled(p, DoFetch(i)) || Enabled(p, DoExecute(i))
  {
    if p.queue != [] {
      var i :| 0 <= i < |p.workers| && Awake(p.workers[i]);
      assert Enabled(p, DoFetch(i)) || Enabled(p, DoExecute(i));
    }
  }

  /** A pending call keeps its task until that is accepted, as the newest of the queue.
      `run` gives it up only to a stopping pool, tryRun also to a full queue. */
  lemma CallsEndWell(p: Pool, e: Event, c: Producer)
    requires Inv(p) && Enabled(p, e) && c in p.calls
    ensures var q := Apply(p, e);
            || (c in q.calls && q.calls[c].task == p.calls[c].task && (q.calls[c].Trying? <==> p.calls[c].Trying?))
            || (q.accepted == p.accepted + [p.calls[c].task] && q.queue == p.queue + [p.calls[c].task] && p.running)
            || (q.accepted == p.accepted && (!p.running || (p.calls[c].Trying? && p.limit > 0 && |p.queue| == p.limit)))
  {
    hide Conserved, NoLostProducer, NoLostWorker, WorkersOk, BatchLength, WakeWorkers;
  }

  /** A call is recorded with its task, and disturbs no other. */
  lemma CallStarts(p: Pool, e: Event)
    requires Enabled(p, e) && (e.CallRun? || e.CallTryRun?)
    ensures var q := Apply(p, e);
            && e.c in q.calls && q.calls[e.c].task == e.t && (q.calls[e.c].Trying? <==> e.CallTryRun?)
            && !q.calls[e.c].Blocked? && q == p.(calls := q.calls)
            && forall c :: c in p.calls ==> c in q.calls && q.calls[c] == p.calls[c]
  {
  }

  /** `run` on a running pool is accepted if there is room and blocks if there is not; a
      stopping pool drops it. */
  lemma RunAccepts(p: Pool, c: Producer, w: nat)
    requires Inv(p) && Enabled(p, DoSubmit(c, w))
    ensures var q, t := Apply(p, DoSubmit(c, w)), p.calls[c].task;
            if p.running && p.limit > 0 && |p.queue| == p.limit
            then c in q.calls && q.calls[c] == Blocked(t) && q.accepted == p.accepted
            else c !in q.calls && (if p.running then q.accepted == p.accepted + [t] && q.queue == p.queue + [t]
                                   else q.accepted == p.accepted && q.queue == p.queue)
  {
    hide Conserved, NoLostProducer, NoLostWorker, WorkersOk;
  }

  /** A worker that looks at the queue takes the next tasks, at least one and at most its
      share; with nothing queued it waits, or returns if the pool stops.  If the queue had
      been full, no producer stays blocked. */
  lemma FetchTakes(p: Pool, i: nat)
    requires Inv(p) && Enabled(p, DoFetch(i))
    ensures var q := Apply(p, DoFetch(i));
            && |q.workers| == |p.workers| && (forall j :: 0 <= j < |p.workers| && j != i ==> q.workers[j] == p.workers[j])
            && (if p.queue == [] then q.workers[i] == if p.running then Waiting else Exited
                else && q.workers[i].Running? && q.workers[i].batch != [] && p.queue == q.workers[i].batch + q.queue
                     && (|q.workers[i].batch| - 1) * |p.workers| < |p.queue|
                     && (p.limit > 0 && |p.queue| == p.limit ==> forall c :: c in q.calls ==> !q.calls[c].Blocked?))
  {
    hide Conserved, NoLostProducer, NoLostWorker, BatchLength;
    if p.queue != [] {
      BatchBounds(|p.queue|, |p.workers|, p.batchSize);
    }
  }

  /** A worker runs the tasks of its batch in order. */
  lemma ExecuteRuns(p: Pool, i: nat)
    requires Enabled(p, DoExecute(i))
    ensures var q, b := Apply(p, DoExecute(i)), p.workers[i].batch;
            && q.executed == p.executed + [b[0]] && q.queue == p.queue && |q.workers| == |p.workers|
            && Rest(q.workers[i]) == b[1..] && (b[1..] == [] ==> q.workers[i].Fetching?)
            && forall j :: 0 <= j < |p.workers| && j != i ==> q.workers[j] == p.workers[j]
  {
  }

  function Rest(w: Worker): seq<Task> {
    if w.Running? then w.batch else []
  }

  /** tryRun, having seen workers, sheds load exactly when the pool is stopping or its
      queue is at the limit. */
  lemma TryRunSheds(p: Pool, c: Producer, w: nat)
    requires Inv(p) && Enabled(p, DoTryRun(c, w))
    ensures var q := Apply(p, DoTryRun(c, w));
            && c !in q.calls
            && (if p.running && (p.limit == 0 || |p.queue| != p.limit)
                then q.accepted == p.accepted + [p.calls[c].task] && q.queue == p.queue + [p.calls[c].task]
                else q.accepted == p.accepted && q.queue == p.queue)
  {
    hide Conserved, NoLostProducer, NoLostWorker, WorkersOk;
  }

  /** After `stop` has returned nothing is queued any more: a new call finds no workers
      and runs its task at once, also through tryRun, and a call that had seen workers
      before is dropped. */
  lemma AfterStopTasksRunInline(p: Pool, e: Event)
    requires Inv(p) && p.stop.Returned? && Enabled(p, e)
    ensures var q := Apply(p, e);
            && q.stop.Returned? && !e.CallRun? && !e.CallTryRun? && q.queue == []
            && q.accepted == (if e.RunInline? then p.accepted + [e.t] else p.accepted)
            && multiset(q.executed) == multiset(q.accepted)
  {
    hide Conserved, NoLostProducer, NoLostWorker, WakeOne, Choice;
    StepKeeps(p, e);
    DrainedWhenStopped(Apply(p, e));
  }

  // ---- Draining ends -------------------------------------------------------------------------------------

  function Weight(w: Worker): nat {
    match w
    case Exited => 0
    case Running(b) => 1 + |b|
    case _ => 1
  }

  function Weights(workers: seq<Worker>): nat {
    if workers == [] then 0 else Weight(workers[0]) + Weights(workers[1..])
  }

  /** The steps the workers of a stopped pool still have to take, at most. */
  function Remaining(p: Pool): nat {
    2 * |p.queue| + Weights(p.workers)
  }

  lemma {:induction false} WeightsUpdate(workers: seq<Worker>, i: nat, w: Worker)
    requires i < |workers|
    ensures Weights(workers[i := w]) + Weight(workers[i]) == Weights(workers) + Weight(w)
    decreases i
  {
    hide Weight;
    var v := workers[i := w];
    if i == 0 {
      assert v[1..] == workers[1..];
    } else {
      assert v[1..] == workers[1..][i - 1 := w];
      WeightsUpdate(workers[1..], i - 1, w);
    }
  }

  lemma {:induction false} WeightsWake(workers: seq<Worker>)
    ensures Weights(WakeWorkers(workers)) == Weights(workers)
  {
    if workers != [] {
      WeightsWake(workers[1..]);
      assert WakeWorkers(workers)[1..] == WakeWorkers(workers[1..]);
    }
  }

  lemma NoWeight()
    ensures Weights([]) == 0
  {
  }

  predicate WorkerStep(e: Event) {
    e.DoFetch? || e.DoExecute?
  }

  /** While `stop` is at work nothing more is accepted, and every step of a worker
      brings the end nearer; with `Progress`, `stop` returns as soon as the workers have
      taken their turns.  Without workers there is nothing to wait for. */
  lemma StoppedPoolDrains(p: Pool, e: Event)
    requires Inv(p) && !p.running && Enabled(p, e)
    ensures var q := Apply(p, e);
            && !q.running && (p.workers != [] ==> q.accepted == p.accepted)
            && Remaining(q) <= Remaining(p) && (WorkerStep(e) ==> Remaining(q) < Remaining(p))
  {
    hide Conserved, NoLostProducer, NoLostWorker, Weights, WakeWorkers, BatchLength;
    match e
    case DoFetch(i) =>
      if p.queue == [] {
        WeightsUpdate(p.workers, i, Exited);
      } else {
        var n := BatchLength(|p.queue|, |p.workers|, p.batchSize);
        BatchBounds(|p.queue|, |p.workers|, p.batchSize);
        WeightsUpdate(p.workers, i, Running(p.queue[..n]));
      }
    case DoExecute(i) =>
      var b := p.workers[i].batch;
      WeightsUpdate(p.workers, i, if |b| == 1 then Fetching else Running(b[1..]));
    case WorkerSpurious(i) => WeightsUpdate(p.workers, i, Woken);
    case StopNotifyWorkers => WeightsWake(p.workers);
    case StopJoined => NoWeight();
    case _ =>
  }

  lemma RunCons(p: Pool, e: Event, es: seq<Event>, q: Pool) returns (es': seq<Event>)
    requires Enabled(p, e) && Run(Apply(p, e), es, q)
    ensures Run(p, es', q)
  {
    es' := [e] + es;
    assert es'[1..] == es;
  }

  lemma RunNone(p: Pool) returns (es: seq<Event>)
    ensures Run(p, es, p)
  {
    es := [];
  }

  lemma {:induction false} RunJoin(p: Pool, a: seq<Event>, q: Pool, b: seq<Event>, r: Pool)
    requires Run(p, a, q) && Run(q, b, r)
    ensures Run(p, a + b, r)
    decreases |a|
  {
    hide Apply, Enabled;
    if a == [] {
      assert a + b == b;
    } else {
      RunJoin(Apply(p, a[0]), a[1..], q, b, r);
      assert (a + b)[1..] == a[1..] + b;
    }
  }

  lemma WorkerStepKeepsStop(p: Pool, e: Event)
    requires Enabled(p, e) && WorkerStep(e)
    ensures Apply(p, e).stop == p.stop && Apply(p, e).running == p.running && (Apply(p, e).workers == [] <==> p.workers == [])
  {
  }

  /** The workers of a stopping pool return when they are left to run. */
  lemma {:induction false} WorkersReturn(p: Pool) returns (es: seq<Event>, q: Pool)
    requires Inv(p) && p.stop.Joining?
    ensures Run(p, es, q) && Inv(q) && q.stop.Joining? && AllExited(q.workers)
    ensures q.accepted == p.accepted
    decreases Remaining(p)
  {
    hide Run, Remaining, Conserved, NoLostProducer, NoLostWorker;
    if AllExited(p.workers) {
      es := RunNone(p);
      q := p;
    } else {
      Progress(p);
      var i :| 0 <= i < |p.workers| && !p.workers[i].Exited?;
      var e := if p.workers[i].Running? then DoExecute(i) else DoFetch(i);
      StepKeeps(p, e);
      StoppedPoolDrains(p, e);
      WorkerStepKeepsStop(p, e);
      es, q := WorkersReturn(Apply(p, e));
      es := RunCons(p, e, es, q);
    }
  }

  /** From every state `stop` can run to its end, and then everything accepted has run. */
  lemma StopReturns(p: Pool) returns (es: seq<Event>, q: Pool)
    requires Inv(p) && p.stop.NotCalled?
    ensures Run(p, es, q) && q.stop.Returned?
    ensures multiset(q.executed) == multiset(p.accepted)
  {
    hide Run, Inv, WakeWorkers, WakeCalls;
    var p1 := Apply(p, StopFlag);
    StepKeeps(p, StopFlag);
    var p2 := Apply(p1, StopNotifyWorkers);
    StepKeeps(p1, StopNotifyWorkers);
    var p3 := Apply(p2, StopNotifyProducers);
    StepKeeps(p2, StopNotifyProducers);
    var joined: Pool;
    es, joined := WorkersReturn(p3);
    q := Apply(joined, StopJoined);
    StepKeeps(joined, StopJoined);
    DrainedWhenStopped(q);
    var last := RunNone(q);
    last := RunCons(joined, StopJoined, last, q);
    RunJoin(p3, es, joined, last, q);
    es := es + last;
    es := RunCons(p2, StopNotifyProducers, es, q);
    es := RunCons(p1, StopNotifyWorkers, es, q);
    es := RunCons(p, StopFlag, es, q);
  }
}
