/** The event loop's task queue and its eventfd wakeup (reactor/event_loop.cc), as
    atomic steps of the loop thread and of the threads that post to it. */
module EventLoop {

  newtype Thread = t: int | 0 <= t

  /** Who posted a task, and for the loop thread in which part of its turn. */
  datatype Origin = Foreign(thread: Thread) | BeforeLoop | InDispatch | InDrain

  datatype Post = Post(task: nat, origin: Origin)

  /** Where the loop thread is: not in `loop` yet, in poll, handling channels
      (`wake`: the wakeup channel is still among them), past them, in
      doPendingTasks after the swap, or out of `loop`. */
  datatype Phase = Outside | Polling | Dispatching(wake: bool) | Swapping | Draining | Ended

  /** `writers` are the threads between their push and their write to the eventfd.
      `posted` and `executed` are history. */
  datatype Loop = Loop(
    phase: Phase, processing: bool, quit: bool,
    pending: seq<Post>, draining: seq<Post>, eventfd: nat, writers: set<Thread>,
    posted: seq<Post>, executed: seq<Post>)

  datatype Event =
    | PostForeign(task: nat, thread: Thread)
    | WriteWakeup(thread: Thread)
    | PostLocal(task: nat)
    | Quit
    | EnterLoop
    | PollReturns
    | PickChannel
    | HandleWakeup
    | RemoveProcessed
    | EndDispatch
    | SwapTasks
    | RunTask
    | NextTurn

  function Push(l: Loop, p: Post): Loop {
    l.(pending := l.pending + [p], posted := l.posted + [p])
  }

  function LocalOrigin(phase: Phase): Origin {
    match phase
    case Draining => InDrain
    case Dispatching(_) => InDispatch
    case _ => BeforeLoop
  }

  /** The loop thread posts: a wakeup is written only while a channel is processed. */
  function Local(l: Loop, task: nat): Loop {
    var l1 := Push(l, Post(task, LocalOrigin(l.phase)));
    if l.processing then l1.(eventfd := l.eventfd + 1) else l1
  }

  /** User code runs on the loop thread before `loop`, in handlers and in tasks.  Poll
      may return for any reason, and reports the eventfd if it is readable. */
  predicate Enabled(l: Loop, e: Event) {
    match e
    case PostForeign(_, t) => t !in l.writers
    case WriteWakeup(t) => t in l.writers
    case PostLocal(_) => l.phase.Outside? || l.phase.Dispatching? || l.phase.Draining?
    case Quit => true
    case EnterLoop => l.phase.Outside?
    case PollReturns => l.phase.Polling?
    case PickChannel => l.phase.Dispatching?
    case HandleWakeup => l.phase.Dispatching? && l.phase.wake
    case RemoveProcessed => l.phase.Dispatching?
    case EndDispatch => l.phase.Dispatching? && !l.phase.wake
    case SwapTasks => l.phase.Swapping?
    case RunTask => l.phase.Draining? && l.draining != []
    case NextTurn => l.phase.Draining? && l.draining == []
  }

  function Turn(l: Loop): Loop {
    l.(phase := if l.quit then Ended else Polling)
  }

  function Apply(l: Loop, e: Event): Loop
    requires Enabled(l, e)
  {
    match e
    case PostForeign(task, t) => Push(l, Post(task, Foreign(t))).(writers := l.writers + {t})
    case WriteWakeup(t) => l.(eventfd := l.eventfd + 1, writers := l.writers - {t})
    case PostLocal(task) => Local(l, task)
    case Quit => l.(quit := true)
    case EnterLoop => Turn(l)
    case PollReturns => l.(phase := Dispatching(l.eventfd > 0))
    case PickChannel => l.(processing := true)
    case HandleWakeup => l.(phase := Dispatching(false), processing := true, eventfd := 0)
    case RemoveProcessed => l.(processing := false)
    case EndDispatch => l.(phase := Swapping, processing := false)
    case SwapTasks => l.(phase := Draining, draining := l.pending, pending := [])
    case RunTask => l.(draining := l.draining[1..], executed := l.executed + [l.draining[0]])
    case NextTurn => Turn(l)
  }

  function Init(): Loop {
    Loop(Outside, false, false, [], [], 0, {}, [], [])
  }

  ghost predicate Run(l: Loop, es: seq<Event>, m: Loop)
    decreases |es|
  {
    if es == [] then m == l else Enabled(l, es[0]) && Run(Apply(l, es[0]), es[1..], m)
  }

  // ---- The invariant ----------------------------------------------------------------------

  /** Tasks run in the order they were posted, with no loss and no duplicate. */
  ghost predicate InOrder(l: Loop) {
    l.posted == l.executed + (l.draining + l.pending)
  }

  /** A task that waits will be noticed: its poster is about to wake the loop, or the
      eventfd is readable.  Posts of the loop thread outside a dispatch are
      the exception. */
  ghost predicate Noticed(p: Post, eventfd: nat, writers: set<Thread>) {
    match p.origin
    case Foreign(t) => eventfd > 0 || t in writers
    case BeforeLoop => true
    case InDrain => true
    case InDispatch => false
  }

  /** From the swap until poll returns. */
  predicate Away(phase: Phase) {
    phase.Draining? || phase.Polling? || phase.Outside?
  }

  ghost predicate NoneLost(pending: seq<Post>, eventfd: nat, writers: set<Thread>) {
    forall i :: 0 <= i < |pending| ==> Noticed(pending[i], eventfd, writers)
  }

  ghost predicate Inv(l: Loop) {
    && InOrder(l)
    && (Away(l.phase) ==> NoneLost(l.pending, l.eventfd, l.writers))
    && (!l.phase.Draining? ==> l.draining == [])
    && (l.processing ==> l.phase.Dispatching?)
  }

  lemma PushInOrder(l: Loop, p: Post)
    requires InOrder(l)
    ensures InOrder(Push(l, p))
  {
    assert l.executed + (l.draining + l.pending) + [p] == l.executed + (l.draining + (l.pending + [p]));
  }

  lemma RunInOrder(l: Loop)
    requires InOrder(l) && l.draining != []
    ensures InOrder(l.(draining := l.draining[1..], executed := l.executed + [l.draining[0]]))
  {
    assert l.draining == [l.draining[0]] + l.draining[1..];
    assert l.executed + ([l.draining[0]] + l.draining[1..] + l.pending)
        == (l.executed + [l.draining[0]]) + (l.draining[1..] + l.pending);
  }

  lemma SwapInOrder(l: Loop)
    requires InOrder(l) && l.draining == []
    ensures InOrder(l.(draining := l.pending, pending := []))
  {
    assert l.draining + l.pending == l.pending + [];
  }

  lemma StepKeeps(l: Loop, e: Event)
    requires Inv(l) && Enabled(l, e)
    ensures Inv(Apply(l, e))
  {
    hide InOrder;
    match e
    case PostForeign(task, t) => PushInOrder(l, Post(task, Foreign(t))); SameOrder(Push(l, Post(task, Foreign(t))), Apply(l, e));
    case PostLocal(task) => PushInOrder(l, Post(task, LocalOrigin(l.phase))); SameOrder(Push(l, Post(task, LocalOrigin(l.phase))), Apply(l, e));
    case SwapTasks => SwapInOrder(l); SameOrder(l.(draining := l.pending, pending := []), Apply(l, e));
    case RunTask => RunInOrder(l);
    case _ => SameOrder(l, Apply(l, e));
  }

  lemma SameOrder(l: Loop, m: Loop)
    requires InOrder(l) && m.posted == l.posted && m.executed == l.executed && m.draining == l.draining && m.pending == l.pending
    ensures InOrder(m)
  {
  }

  lemma {:induction false} RunKeeps(l: Loop, es: seq<Event>, m: Loop)
    requires Inv(l) && Run(l, es, m)
    ensures Inv(m)
    decreases |es|
  {
    hide Inv, Apply, Enabled;
    if es != [] {
      StepKeeps(l, es[0]);
      RunKeeps(Apply(l, es[0]), es[1..], m);
    }
  }

  // ---- What every run guarantees ----------------------------------------------------------------

  function Asked(e: Event): seq<nat> {
    match e
    case PostForeign(task, _) => [task]
    case PostLocal(task) => [task]
    case _ => []
  }

  /** The tasks handed to the loop in the course of a run. */
  function AllAsked(es: seq<Event>): seq<nat> {
    if es == [] then [] else Asked(es[0]) + AllAsked(es[1..])
  }

  function Tasks(posts: seq<Post>): seq<nat> {
    seq(|posts|, i requires 0 <= i < |posts| => posts[i].task)
  }

  lemma StepPosts(l: Loop, e: Event)
    requires Enabled(l, e)
    ensures Tasks(Apply(l, e).posted) == Tasks(l.posted) + Asked(e)
  {
  }

  lemma {:induction false} RunPosts(l: Loop, es: seq<Event>, m: Loop)
    requires Run(l, es, m)
    ensures Tasks(m.posted) == Tasks(l.posted) + AllAsked(es)
    decreases |es|
  {
    hide Apply, Enabled, Tasks;
    if es != [] {
      StepPosts(l, es[0]);
      RunPosts(Apply(l, es[0]), es[1..], m);
    }
  }

  /** In every interleaving the tasks handed over are executed, in execution or waiting,
      each once and in the order they were posted. */
  lemma HandoffTheorem(es: seq<Event>, l: Loop)
    requires Run(Init(), es, l)
    ensures Inv(l) && Tasks(l.executed + l.draining + l.pending) == AllAsked(es)
  {
    RunKeeps(Init(), es, l);
    RunPosts(Init(), es, l);
    assert l.executed + l.draining + l.pending == l.executed + (l.draining + l.pending);
  }

  // ---- A turn of the loop ------------------------------------------------------------------------

  /** Steps of the loop thread itself, without user code or other threads. */
  predicate OwnStep(e: Event) {
    e.PollReturns? || e.HandleWakeup? || e.EndDispatch? || e.SwapTasks? || e.RunTask? || e.NextTurn?
  }

  predicate OwnSteps(es: seq<Event>) {
    forall i :: 0 <= i < |es| ==> OwnStep(es[i])
  }

  lemma OwnCons(l: Loop, e: Event, es: seq<Event>, m: Loop) returns (es': seq<Event>)
    requires Enabled(l, e) && Run(Apply(l, e), es, m) && OwnStep(e) && OwnSteps(es)
    ensures Run(l, es', m) && OwnSteps(es')
  {
    es' := [e] + es;
    assert es'[1..] == es;
  }

  /** The end of a turn: the tasks taken are run, and the loop polls again or ends. */
  lemma {:induction false} DrainAll(l: Loop) returns (es: seq<Event>, m: Loop)
    requires l.phase.Draining?
    ensures Run(l, es, m) && OwnSteps(es)
    ensures m == l.(phase := if l.quit then Ended else Polling, draining := [], executed := l.executed + l.draining)
    decreases |l.draining|
  {
    hide Run, OwnSteps;
    if l.draining == [] {
      assert l.executed + [] == l.executed;
      m := Apply(l, NextTurn);
      es := OwnNone(m);
      es := OwnCons(l, NextTurn, es, m);
    } else {
      es, m := DrainAll(Apply(l, RunTask));
      assert l.executed + [l.draining[0]] + l.draining[1..] == l.executed + l.draining;
      es := OwnCons(l, RunTask, es, m);
    }
  }

  lemma OwnNone(l: Loop) returns (es: seq<Event>)
    ensures Run(l, es, l) && OwnSteps(es)
  {
    es := [];
  }

  /** A turn left to itself runs every task that was posted before it, leaves the eventfd
      unreadable, so that the next poll sleeps, and ends the loop if it was asked to. */
  lemma TurnRunsAll(l: Loop) returns (es: seq<Event>, m: Loop)
    requires Inv(l) && l.phase.Polling?
    ensures Run(l, es, m) && OwnSteps(es)
    ensures m.executed == m.posted == l.posted && m.pending == [] && m.eventfd == 0
    ensures m.phase == if l.quit then Ended else Polling
  {
    hide Run, OwnSteps, NoneLost;
    var l1 := Apply(l, PollReturns);
    var l2 := if l1.phase.wake then Apply(l1, HandleWakeup) else l1;
    var l3 := Apply(l2, EndDispatch);
    var l4 := Apply(l3, SwapTasks);
    es, m := DrainAll(l4);
    es := OwnCons(l3, SwapTasks, es, m);
    es := OwnCons(l2, EndDispatch, es, m);
    if l1.phase.wake { es := OwnCons(l1, HandleWakeup, es, m); }
    es := OwnCons(l, PollReturns, es, m);
    assert l.executed + ([] + l.pending) == l.executed + l.pending;
  }

  /** Poll returns at once, or will: the eventfd is readable or a write is coming. */
  ghost predicate WakeComing(l: Loop) {
    l.eventfd > 0 || l.writers != {}
  }

  predicate OwnPost(p: Post) {
    p.origin.InDrain? || p.origin.BeforeLoop?
  }

  /** The loop sleeps on a task with no wakeup under way only if the loop thread
      itself posted every waiting task, from a task or before `loop`. */
  lemma NoLostWakeup(es: seq<Event>, l: Loop, i: nat)
    requires Run(Init(), es, l) && l.phase.Polling? && i < |l.pending|
    ensures l.pending[i].origin.Foreign? ==> l.eventfd > 0 || l.pending[i].origin.thread in l.writers
    ensures !WakeComing(l) ==> OwnPost(l.pending[i])
  {
    RunKeeps(Init(), es, l);
    assert Noticed(l.pending[i], l.eventfd, l.writers);
  }

  // ---- When the loop thread's own posts are slept on ------------------------------------------

  /** The k-th task ever posted is still in the queue. */
  ghost predicate PendingAt(l: Loop, k: nat) {
    |l.executed| + |l.draining| <= k < |l.posted|
  }

  /** The loop is in poll while that task waits, and nothing is about to wake it. */
  ghost predicate Sleeps(l: Loop, k: nat) {
    l.phase.Polling? && PendingAt(l, k) && !WakeComing(l)
  }

  ghost predicate CanSleep(l: Loop, k: nat) {
    exists es, m :: Run(l, es, m) && Sleeps(m, k)
  }

  /** Whether a task that the loop thread posts now can be slept on: exactly when it is
      posted before `loop` or from doPendingTasks, poll is still to come, and no wakeup
      is coming anyway.  A post made while channels are handled never is, whether or
      not it writes a wakeup itself. */
  lemma LocalPostSleepsIff(l: Loop, task: nat)
    requires Inv(l) && Enabled(l, PostLocal(task))
    ensures CanSleep(Apply(l, PostLocal(task)), |l.posted|) <==>
              (l.phase.Outside? || l.phase.Draining?) && !l.quit && !WakeComing(l)
  {
    hide InOrder, NoneLost;
    var m, k := Apply(l, PostLocal(task)), |l.posted|;
    StepKeeps(l, PostLocal(task));
    if l.phase.Dispatching? || WakeComing(l) {
      forall es, n | Run(m, es, n) ensures !Sleeps(n, k) { AttendedRun(m, es, n, k); }
    } else if l.quit {
      forall es, n | Run(m, es, n) ensures !Sleeps(n, k) { QuitRun(m, es, n); }
    } else {
      assert PendingAt(m, k) by { NewestPends(l, m); }
      if l.phase.Draining? {
        DrainToSleep(m, k);
      } else {
        var es := RunNone(Apply(m, EnterLoop));
        es := RunCons(m, EnterLoop, es, Apply(m, EnterLoop));
        assert Sleeps(Apply(m, EnterLoop), k);
      }
    }
  }

  lemma NewestPends(l: Loop, m: Loop)
    requires InOrder(l) && |m.posted| == |l.posted| + 1 && m.executed == l.executed && m.draining == l.draining
    ensures PendingAt(m, |l.posted|)
  {
  }

  /** Task `k` is out of the queue, or poll will return, or has returned. */
  ghost predicate Attended(l: Loop, k: nat) {
    k < |l.posted| && (Away(l.phase) && PendingAt(l, k) ==> WakeComing(l))
  }

  lemma {:induction false} AttendedRun(l: Loop, es: seq<Event>, m: Loop, k: nat)
    requires Inv(l) && Attended(l, k) && Run(l, es, m)
    ensures Attended(m, k)
    decreases |es|
  {
    hide NoneLost;
    if es != [] {
      StepKeeps(l, es[0]);
      assert Attended(Apply(l, es[0]), k);
      AttendedRun(Apply(l, es[0]), es[1..], m, k);
    }
  }

  lemma {:induction false} QuitRun(l: Loop, es: seq<Event>, m: Loop)
    requires l.quit && (l.phase.Outside? || l.phase.Draining? || l.phase.Ended?) && Run(l, es, m)
    ensures !m.phase.Polling?
    decreases |es|
  {
    if es != [] { QuitRun(Apply(l, es[0]), es[1..], m); }
  }

  /** The tasks being drained finish, and the loop goes to poll. */
  lemma {:induction false} DrainToSleep(l: Loop, k: nat)
    requires l.phase.Draining? && !l.quit && PendingAt(l, k) && !WakeComing(l)
    ensures CanSleep(l, k)
    decreases |l.draining|
  {
    var e := if l.draining == [] then NextTurn else RunTask;
    var next := Apply(l, e);
    var es: seq<Event>, m: Loop;
    if l.draining == [] {
      es := RunNone(next);
      m := next;
      assert Sleeps(next, k);
    } else {
      DrainToSleep(next, k);
      es, m :| Run(next, es, m) && Sleeps(m, k);
    }
    es := RunCons(l, e, es, m);
  }

  lemma RunNone(l: Loop) returns (es: seq<Event>)
    ensures Run(l, es, l)
  {
    es := [];
  }

  lemma RunCons(l: Loop, e: Event, es: seq<Event>, m: Loop) returns (es': seq<Event>)
    requires Enabled(l, e) && Run(Apply(l, e), es, m)
    ensures Run(l, es', m)
  {
    es' := [e] + es;
    assert es'[1..] == es;
  }

  const ONE := Post(1, BeforeLoop)
  const TWO := Post(2, InDrain)

  lemma DrainPostTail(end: Loop) returns (es: seq<Event>)
    requires end == Loop(Polling, false, false, [TWO], [], 0, {}, [ONE, TWO], [ONE])
    ensures Run(Loop(Draining, false, false, [], [ONE], 0, {}, [ONE], []), es, end)
  {
    hide Run;
    var drained := Loop(Draining, false, false, [], [], 0, {}, [ONE], [ONE]);
    assert drained.pending + [TWO] == [TWO] && drained.pending + [ONE] == [ONE];
    assert [ONE] + [TWO] == [ONE, TWO] && [ONE][1..] == [];
    es := RunNone(end);
    es := RunCons(end.(phase := Draining), NextTurn, es, end);
    es := RunCons(drained, PostLocal(2), es, end);
    es := RunCons(drained.(draining := [ONE], executed := []), RunTask, es, end);
  }

  /** A task posted before `loop` is slept on. */
  lemma EarlyPostSleeps()
    ensures exists es, l :: Run(Init(), es, l) && l.phase.Polling? && l.pending == [ONE] && !WakeComing(l)
  {
    hide Run;
    var end := Loop(Polling, false, false, [ONE], [], 0, {}, [ONE], []);
    assert Init().pending + [ONE] == [ONE];
    var es := RunNone(end);
    es := RunCons(end.(phase := Outside), EnterLoop, es, end);
    es := RunCons(Init(), PostLocal(1), es, end);
  }

  /** And so is one posted by a task from doPendingTasks. */
  lemma DrainPostSleeps()
    ensures exists es, l :: Run(Init(), es, l) && l.phase.Polling? && l.pending == [TWO] && !WakeComing(l)
  {
    hide Run;
    var end := Loop(Polling, false, false, [TWO], [], 0, {}, [ONE, TWO], [ONE]);
    var start := Loop(Polling, false, false, [ONE], [], 0, {}, [ONE], []);
    assert Init().pending + [ONE] == [ONE];
    var es := DrainPostTail(end);
    es := RunCons(start.(phase := Swapping), SwapTasks, es, end);
    es := RunCons(start.(phase := Dispatching(false)), EndDispatch, es, end);
    es := RunCons(start, PollReturns, es, end);
    es := RunCons(start.(phase := Outside), EnterLoop, es, end);
    es := RunCons(Init(), PostLocal(1), es, end);
  }
}
