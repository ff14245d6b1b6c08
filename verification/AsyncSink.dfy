/** The asynchronous log sink: producers append to a bounded buffer, a writer thread
    swaps it out and does its output without the lock (logging/async_sink.cc).  A
    step is what one thread does while it holds the mutex, or one line it hands
    downstream outside it.  The writer's timed wait may end at any moment. */
module AsyncSink {

  type Line = string

  /** What reaches the downstream sink: a line, or the notice that some were dropped. */
  datatype Output = Text(line: Line) | Notice(count: nat)

  datatype Writer = AtLock | Delivering | Exited

  newtype Caller = c: int | 0 <= c

  datatype Stop = NotCalled | FlagCleared | Joined

  /** `batch` and `due` are the writer's local variables: lines still to deliver and
      the drops to announce after them; `flushing` are the calls of `flush` that have not
      returned.  The rest from `accepted` on is history. */
  datatype Sink = Sink(
    max: nat, current: seq<Line>, writing: seq<Line>, batch: seq<Line>, due: nat,
    dropped: nat, reported: nat, running: bool, writer: Writer, stop: Stop, flushing: set<Caller>,
    accepted: seq<Line>, appended: nat, delivered: seq<Output>)

  datatype Event =
    | Append(line: Line) | Swap | Deliver | FinishBatch | StopFlag | StopJoin
    | FlushCall(c: Caller) | FlushReturn(c: Caller)

  /** A line is dropped, and counted, when the buffer is full. */
  function DoAppend(s: Sink, line: Line): Sink {
    if !s.running then s
    else
      var s1 := s.(appended := s.appended + 1);
      if |s.current| + |s.writing| >= s.max then s1.(dropped := s.dropped + 1)
      else s1.(current := s.current + [line], accepted := s.accepted + [line])
  }

  /** The writer with the lock: leave when stopped and drained, else swap the buffers
      twice and note the drops that are not announced yet. */
  function DoSwap(s: Sink): Sink {
    if !s.running && s.current == [] then s.(writer := Exited)
    else s.(batch := s.current, current := s.writing, writing := [], writer := Delivering,
            due := if s.dropped > s.reported then s.dropped - s.reported else 0,
            reported := if s.dropped > s.reported then s.dropped else s.reported)
  }

  function DoFinish(s: Sink): Sink {
    s.(writer := AtLock, due := 0, delivered := if s.due > 0 then s.delivered + [Notice(s.due)] else s.delivered)
  }

  function Texts(lines: seq<Line>): (r: seq<Output>)
    ensures |r| == |lines| && forall i :: 0 <= i < |lines| ==> r[i] == Text(lines[i])
  {
    seq(|lines|, i requires 0 <= i < |lines| => Text(lines[i]))
  }

  /** `stop` after the join: whatever is left goes downstream. */
  function DoJoin(s: Sink): Sink {
    s.(delivered := s.delivered + Texts(s.writing + s.current), writing := [], current := [], stop := Joined)
  }

  /** What `flush` waits for. */
  predicate FlushCondition(s: Sink) {
    (s.current == [] && s.writing == []) || !s.running
  }

  predicate Enabled(s: Sink, e: Event) {
    match e
    case Append(_) => true
    case Swap => s.writer.AtLock?
    case Deliver => s.writer.Delivering? && s.batch != []
    case FinishBatch => s.writer.Delivering? && s.batch == []
    case StopFlag => s.stop.NotCalled?
    case StopJoin => s.stop.FlagCleared? && s.writer.Exited?
    case FlushCall(c) => c !in s.flushing
    case FlushReturn(c) => c in s.flushing && FlushCondition(s)
  }

  function Apply(s: Sink, e: Event): Sink
    requires Enabled(s, e)
  {
    match e
    case Append(line) => DoAppend(s, line)
    case Swap => DoSwap(s)
    case Deliver => s.(delivered := s.delivered + [Text(s.batch[0])], batch := s.batch[1..])
    case FinishBatch => DoFinish(s)
    case StopFlag => s.(running := false, stop := FlagCleared)
    case StopJoin => DoJoin(s)
    case FlushCall(c) => s.(flushing := s.flushing + {c})
    case FlushReturn(c) => s.(flushing := s.flushing - {c})
  }

  function Init(max: nat): Sink {
    Sink(if max == 0 then 1 else max, [], [], [], 0, 0, 0, true, AtLock, NotCalled, {}, [], 0, [])
  }

  ghost predicate Run(s: Sink, es: seq<Event>, t: Sink)
    decreases |es|
  {
    if es == [] then t == s else Enabled(s, es[0]) && Run(Apply(s, es[0]), es[1..], t)
  }

  // ---- The invariant --------------------------------------------------------------------------

  /** The lines among what went downstream. */
  function Lines(out: seq<Output>): seq<Line> {
    if out == [] then []
    else Lines(out[..|out| - 1]) + (var o := out[|out| - 1]; if o.Text? then [o.line] else [])
  }

  /** The drops announced downstream. */
  function Announced(out: seq<Output>): nat {
    if out == [] then 0
    else Announced(out[..|out| - 1]) + (var o := out[|out| - 1]; if o.Notice? then o.count else 0)
  }

  lemma OneMore(out: seq<Output>, o: Output)
    ensures Lines(out + [o]) == Lines(out) + (if o.Text? then [o.line] else [])
    ensures Announced(out + [o]) == Announced(out) + (if o.Notice? then o.count else 0)
  {
    assert (out + [o])[..|out|] == out;
  }

  lemma {:induction false} ManyMore(out: seq<Output>, lines: seq<Line>)
    ensures Lines(out + Texts(lines)) == Lines(out) + lines
    ensures Announced(out + Texts(lines)) == Announced(out)
    decreases |lines|
  {
    if lines == [] {
      assert out + Texts(lines) == out;
    } else {
      var n := |lines| - 1;
      ManyMore(out, lines[..n]);
      OneMore(out + Texts(lines[..n]), Text(lines[n]));
      assert out + Texts(lines) == out + Texts(lines[..n]) + [Text(lines[n])];
      assert lines == lines[..n] + [lines[n]];
    }
  }

  /** Nothing accepted is lost, repeated or reordered. */
  ghost predicate Conserved(s: Sink) {
    Lines(s.delivered) + (s.batch + s.current) == s.accepted
  }

  ghost predicate Counted(s: Sink) {
    && |s.accepted| + s.dropped == s.appended
    && Announced(s.delivered) + s.due == s.reported <= s.dropped
  }

  ghost predicate Bounded(s: Sink) {
    s.max > 0 && s.writing == [] && |s.current| <= s.max && |s.batch| <= s.max
  }

  ghost predicate Inv(s: Sink) {
    && Conserved(s) && Counted(s) && Bounded(s)
    && (s.batch != [] || s.due > 0 ==> s.writer.Delivering?)
    && (s.writer.Exited? ==> !s.running && s.current == [])
    && (s.running <==> s.stop.NotCalled?)
    && (s.stop.Joined? ==> s.writer.Exited?)
  }

  lemma AppendKeeps(s: Sink, line: Line)
    requires Inv(s)
    ensures Inv(DoAppend(s, line))
  {
    hide Lines, Announced;
    assert Lines(s.delivered) + (s.batch + (s.current + [line])) == Lines(s.delivered) + (s.batch + s.current) + [line];
  }

  lemma SwapKeeps(s: Sink)
    requires Inv(s) && s.writer.AtLock?
    ensures Inv(DoSwap(s))
  {
    hide Lines, Announced;
    assert s.batch + s.current == s.current + [];
  }

  lemma DeliverKeeps(s: Sink)
    requires Inv(s) && Enabled(s, Deliver)
    ensures Inv(Apply(s, Deliver))
  {
    hide Lines, Announced;
    var o := Text(s.batch[0]);
    OneMore(s.delivered, o);
    assert s.batch == [s.batch[0]] + s.batch[1..];
    assert Lines(s.delivered) + ([s.batch[0]] + s.batch[1..] + s.current)
        == Lines(s.delivered) + [s.batch[0]] + (s.batch[1..] + s.current);
  }

  lemma FinishKeeps(s: Sink)
    requires Inv(s) && Enabled(s, FinishBatch)
    ensures Inv(DoFinish(s))
  {
    hide Lines, Announced;
    OneMore(s.delivered, Notice(s.due));
    assert Lines(s.delivered) + [] == Lines(s.delivered);
  }

  lemma JoinKeeps(s: Sink)
    requires Inv(s) && Enabled(s, StopJoin)
    ensures Inv(DoJoin(s)) && Lines(DoJoin(s).delivered) == s.accepted
  {
    hide Lines, Announced;
    ManyMore(s.delivered, s.writing + s.current);
    assert s.batch + s.current == [] && s.writing + s.current == [];
    assert Lines(s.delivered) + [] == Lines(s.delivered);
  }

  lemma StepKeeps(s: Sink, e: Event)
    requires Inv(s) && Enabled(s, e)
    ensures Inv(Apply(s, e))
  {
    hide Lines, Announced, DoAppend, DoSwap, DoFinish, DoJoin;
    match e
    case Append(line) => AppendKeeps(s, line);
    case Swap => SwapKeeps(s);
    case Deliver => DeliverKeeps(s);
    case FinishBatch => FinishKeeps(s);
    case StopFlag =>
    case StopJoin => JoinKeeps(s);
    case FlushCall(_) =>
    case FlushReturn(_) =>
  }

  lemma {:induction false} RunKeeps(s: Sink, es: seq<Event>, t: Sink)
    requires Inv(s) && Run(s, es, t)
    ensures Inv(t) && t.max == s.max
    decreases |es|
  {
    hide Inv;
    if es != [] {
      StepKeeps(s, es[0]);
      RunKeeps(Apply(s, es[0]), es[1..], t);
    }
  }

  // ---- What every interleaving guarantees ----------------------------------------------------------

  /** Delivered lines, the rest of the writer's batch and the buffer are the accepted
      lines in order; every append was accepted or counted as dropped; no more drops
      are announced than happened; the buffer keeps to its bound. */
  lemma SinkTheorem(max: nat, es: seq<Event>, s: Sink)
    requires Run(Init(max), es, s)
    ensures Inv(s) && Lines(s.delivered) + s.batch + s.current == s.accepted
    ensures |s.accepted| + s.dropped == s.appended
    ensures Announced(s.delivered) <= s.reported <= s.dropped
    ensures |s.current| <= s.max && |s.current| + |s.writing| + |s.batch| <= 2 * s.max
  {
    RunKeeps(Init(max), es, s);
    assert Lines(s.delivered) + s.batch + s.current == Lines(s.delivered) + (s.batch + s.current);
  }

  /** After `stop` everything accepted has been delivered. */
  lemma StopLosesNothing(max: nat, es: seq<Event>, s: Sink)
    requires Run(Init(max), es, s) && s.stop.Joined?
    ensures Lines(s.delivered) == s.accepted
  {
    RunKeeps(Init(max), es, s);
    assert Lines(s.delivered) + (s.batch + s.current) == Lines(s.delivered);
  }

  lemma {:induction false} RunThen(s: Sink, es: seq<Event>, t: Sink, e: Event)
    requires Run(s, es, t) && Enabled(t, e)
    ensures Run(s, es + [e], Apply(t, e))
    decreases |es|
  {
    if es == [] {
      assert Run(Apply(t, e), [], Apply(t, e)) && [e][1..] == [];
      assert es + [e] == [e];
    } else {
      assert (es + [e])[1..] == es[1..] + [e];
      RunThen(Apply(s, es[0]), es[1..], t, e);
    }
  }

  lemma {:induction false} FillBuffer(s: Sink, es: seq<Event>, t: Sink, line: Line) returns (es': seq<Event>, t': Sink)
    requires Run(s, es, t) && t.running && t.writing == [] && |t.current| <= t.max
    ensures Run(s, es', t') && |t'.current| == t.max && t' == t.(current := t'.current, accepted := t'.accepted, appended := t'.appended)
    decreases t.max - |t.current|
  {
    es', t' := es, t;
    if |t.current| < t.max {
      RunThen(s, es, t, Append(line));
      es', t' := FillBuffer(s, es + [Append(line)], Apply(t, Append(line)), line);
    }
  }

  /** Twice the bound is reached: the limit covers the buffer, not the batch that the
      writer has taken out of it. */
  lemma TwiceTheBound(max: nat)
    requires max > 0
    ensures exists es, s :: Run(Init(max), es, s) && |s.current| + |s.writing| + |s.batch| == 2 * max
  {
    var s0 := Init(max);
    var es1, s1 := FillBuffer(s0, [], s0, "");
    RunThen(s0, es1, s1, Swap);
    var es2, s2 := FillBuffer(s0, es1 + [Swap], Apply(s1, Swap), "");
  }

  // ---- What `flush` promises -------------------------------------------------------------------------

  lemma Reachable(max: nat, es: seq<Event>, s: Sink)
    requires Run(Init(max), es, s)
    ensures Inv(s) && |Lines(s.delivered)| + |s.batch| + |s.current| == |s.accepted|
  {
    RunKeeps(Init(max), es, s);
  }

  /** What is delivered stays delivered. */
  lemma {:induction false} DeliveredGrows(s: Sink, es: seq<Event>, t: Sink)
    requires Run(s, es, t)
    ensures Lines(s.delivered) <= Lines(t.delivered)
    decreases |es|
  {
    hide Lines, Announced;
    if es != [] {
      var e := es[0];
      if e.Deliver? { OneMore(s.delivered, Text(s.batch[0])); }
      if e.FinishBatch? { OneMore(s.delivered, Notice(s.due)); }
      if e.StopJoin? { ManyMore(s.delivered, s.writing + s.current); }
      assert Lines(s.delivered) <= Lines(Apply(s, e).delivered);
      DeliveredGrows(Apply(s, e), es[1..], t);
    }
  }

  /** The writer took the buffer after `s`, so it had finished the batch of `s`. */
  ghost predicate Retaken(s: Sink, t: Sink) {
    |s.accepted| - |s.current| <= |Lines(t.delivered)|
  }

  lemma {:induction false} BatchFinishes(s: Sink, u: Sink, es: seq<Event>, t: Sink)
    requires Inv(s) && Inv(u) && Run(u, es, t) && s.accepted <= u.accepted
    requires Retaken(s, u) || |u.accepted| - |u.current| == |s.accepted| - |s.current|
    ensures Inv(t) && s.accepted <= t.accepted && (Retaken(s, t) || |t.accepted| - |t.current| == |s.accepted| - |s.current|)
    decreases |es|
  {
    hide Lines, Announced, Counted;
    if es != [] {
      var v := Apply(u, es[0]);
      StepKeeps(u, es[0]);
      DeliveredGrows(u, [es[0]], v);
      assert |Lines(u.delivered)| + |u.batch| + |u.current| == |u.accepted|;
      BatchFinishes(s, v, es[1..], t);
    }
  }

  /** What a return of `flush` guarantees in a running sink: at most the batch last
      taken is undelivered, and if lines were waiting at the call, everything the writer
      had taken before the call is delivered. */
  lemma FlushGuarantee(max: nat, es: seq<Event>, s: Sink, c: Caller, es': seq<Event>, t: Sink)
    requires Run(Init(max), es, s) && Enabled(s, FlushCall(c)) && Run(Apply(s, FlushCall(c)), es', t)
    requires Enabled(t, FlushReturn(c)) && t.running
    ensures Lines(t.delivered) + t.batch == t.accepted && |t.batch| <= t.max && s.accepted <= t.accepted
    ensures |s.current| <= |s.accepted|
    ensures s.current != [] ==> s.accepted[..|s.accepted| - |s.current|] <= Lines(t.delivered)
  {
    hide Lines, Announced, Counted;
    Reachable(max, es, s);
    var u := Apply(s, FlushCall(c));
    StepKeeps(s, FlushCall(c));
    BatchFinishes(s, u, es', t);
    assert t.batch + t.current == t.batch;
    var out, n := Lines(t.delivered), |s.accepted| - |s.current|;
    if s.current != [] {
      assert Retaken(s, t);
      TakenIsPrefix(s.accepted, t.accepted, out, t.batch, n);
    }
  }

  lemma TakenIsPrefix(before: seq<Line>, all: seq<Line>, out: seq<Line>, rest: seq<Line>, n: nat)
    requires before <= all && out + rest == all && n <= |before| && n <= |out|
    ensures before[..n] <= out
  {
    assert before[..n] == all[..n] == out[..n];
  }

  /** What the header promises of a call in state `s`: when it returns, every line
      accepted before it has been delivered. */
  ghost predicate FlushPromise(s: Sink, c: Caller)
    requires Enabled(s, FlushCall(c))
  {
    forall es, t :: Run(Apply(s, FlushCall(c)), es, t) && Enabled(t, FlushReturn(c)) ==> s.accepted <= Lines(t.delivered)
  }

  /** The promise is kept in every run exactly when there was nothing to wait for. */
  lemma FlushPromiseIff(max: nat, es: seq<Event>, s: Sink, c: Caller)
    requires Run(Init(max), es, s) && Enabled(s, FlushCall(c))
    ensures FlushPromise(s, c) <==> s.current == [] && s.batch == []
  {
    hide Lines, Announced, Counted, FlushPromise;
    Reachable(max, es, s);
    if s.current == [] && s.batch == [] {
      assert Lines(s.delivered) == s.accepted by { assert s.batch + s.current == []; }
      NothingToFlush(s, c);
    } else {
      FlushFails(s, c);
    }
  }

  lemma NothingToFlush(s: Sink, c: Caller)
    requires Enabled(s, FlushCall(c)) && Lines(s.delivered) == s.accepted
    ensures FlushPromise(s, c)
  {
    hide Lines;
    forall es, t | Run(Apply(s, FlushCall(c)), es, t) ensures s.accepted <= Lines(t.delivered) {
      DeliveredGrows(Apply(s, FlushCall(c)), es, t);
    }
  }

  lemma FlushFails(s: Sink, c: Caller)
    requires Inv(s) && Enabled(s, FlushCall(c)) && (s.current != [] || s.batch != [])
    ensures !FlushPromise(s, c)
  {
    hide Lines, Announced, Counted;
    var u := Apply(s, FlushCall(c));
    assert Run(u, [], u);
    assert |Lines(s.delivered)| + |s.batch| + |s.current| == |s.accepted|;
    if s.current == [] || !s.running {
      assert Enabled(u, FlushReturn(c)) && !(s.accepted <= Lines(u.delivered));
    } else {
      StepKeeps(s, FlushCall(c));
      var es, t := SwapNext(u, [], u);
      assert Enabled(t, FlushReturn(c));
      assert |Lines(t.delivered)| + |t.batch| + |t.current| == |t.accepted|;
      assert !(s.accepted <= Lines(t.delivered));
    }
  }

  /** The writer finishes its batch and takes the buffer. */
  lemma {:induction false} SwapNext(s: Sink, es: seq<Event>, t: Sink) returns (es': seq<Event>, t': Sink)
    requires Run(s, es, t) && Inv(t) && t.running
    ensures Run(s, es', t') && Inv(t') && t'.running && t'.batch == t.current && t'.current == []
    ensures t'.accepted == t.accepted && t'.flushing == t.flushing
    ensures t'.dropped == t.dropped == t'.reported && t'.writer.Delivering?
    decreases |t.batch|, if t.writer.Delivering? then 1 else 0
  {
    hide Lines, Announced, Conserved;
    var e := if t.writer.AtLock? then Swap else if t.batch != [] then Deliver else FinishBatch;
    RunThen(s, es, t, e);
    StepKeeps(t, e);
    es', t' := es + [e], Apply(t, e);
    if !t.writer.AtLock? { es', t' := SwapNext(s, es', t'); }
  }

  /** So a call right after a swap breaks it: the line is on its way, and the call
      returns at once. */
  lemma FlushReturnsEarly()
    ensures exists es, s :: Run(Init(1), es, s) && Enabled(s, FlushCall(0)) && !FlushPromise(s, 0)
  {
    hide FlushPromise;
    var s0 := Init(1);
    var s1 := Apply(s0, Append("x"));
    assert Run(s0, [], s0);
    RunThen(s0, [], s0, Append("x"));
    RunThen(s0, [] + [Append("x")], s1, Swap);
    FlushPromiseIff(1, [] + [Append("x")] + [Swap], Apply(s1, Swap), 0);
  }

  /** Lines are shed only when a whole buffer is waiting. */
  lemma DropsOnlyWhenFull(max: nat, es: seq<Event>, s: Sink, line: Line)
    requires Run(Init(max), es, s) && s.running
    ensures var t := Apply(s, Append(line));
            if |s.current| == s.max then t.dropped == s.dropped + 1 && t.accepted == s.accepted
            else t.dropped == s.dropped && t.accepted == s.accepted + [line]
  {
    RunKeeps(Init(max), es, s);
  }

  /** The steps a stopped writer still has to take, at most. */
  function Remaining(s: Sink): nat {
    3 * |s.current| + |s.batch| + match s.writer case AtLock => 1 case Delivering => 2 case Exited => 0
  }

  /** After `stop` has cleared the flag nothing is added, the writer always has a step
      to take until it exits, and each one brings the end nearer. */
  lemma StoppedWriterEnds(s: Sink, e: Event)
    requires Inv(s) && !s.running && Enabled(s, e)
    ensures Apply(s, e).accepted == s.accepted && Remaining(Apply(s, e)) <= Remaining(s)
    ensures e.Swap? || e.Deliver? || e.FinishBatch? ==> Remaining(Apply(s, e)) < Remaining(s)
    ensures !s.writer.Exited? ==> Enabled(s, Swap) || Enabled(s, Deliver) || Enabled(s, FinishBatch)
  {
    hide Conserved, Counted;
  }

  // ---- What the writer and `stop` achieve ------------------------------------------------------------

  /** The writer hands the rest of its batch downstream, and then the notice. */
  lemma {:induction false} FinishNext(s: Sink, es: seq<Event>, t: Sink) returns (es': seq<Event>, t': Sink)
    requires Run(s, es, t) && Inv(t) && t.writer.Delivering?
    ensures Run(s, es', t') && Inv(t') && t'.batch == [] && t'.due == 0 && t'.current == t.current
    ensures t'.accepted == t.accepted && t'.dropped == t.dropped && t'.reported == t.reported
    decreases |t.batch|
  {
    hide Lines, Announced, Conserved, Counted;
    var e := if t.batch != [] then Deliver else FinishBatch;
    RunThen(s, es, t, e);
    StepKeeps(t, e);
    es', t' := es + [e], Apply(t, e);
    if t.batch != [] { es', t' := FinishNext(s, es', t'); }
  }

  /** A writer left to itself delivers every line accepted so far and announces every
      drop. */
  lemma WriterCatchesUp(s: Sink) returns (es: seq<Event>, t: Sink)
    requires Inv(s) && s.running
    ensures Run(s, es, t) && Inv(t) && t.current == [] && t.batch == []
    ensures Lines(t.delivered) == t.accepted == s.accepted && Announced(t.delivered) == t.dropped == s.dropped
  {
    hide Lines, Announced, Run;
    assert Run(s, [], s) by { RunNone(s); }
    es, t := SwapNext(s, [], s);
    es, t := FinishNext(s, es, t);
    assert Lines(t.delivered) + ([] + []) == Lines(t.delivered);
  }

  lemma RunNone(s: Sink)
    ensures Run(s, [], s)
  {
  }

  lemma {:induction false} WriterExits(s: Sink, es: seq<Event>, t: Sink) returns (es': seq<Event>, t': Sink)
    requires Run(s, es, t) && Inv(t) && t.stop.FlagCleared?
    ensures Run(s, es', t') && Inv(t') && t'.stop.FlagCleared? && t'.writer.Exited? && t'.accepted == t.accepted
    decreases Remaining(t)
  {
    hide Lines, Announced, Conserved, Counted, Remaining;
    es', t' := es, t;
    if !t.writer.Exited? {
      var e := if t.writer.AtLock? then Swap else if t.batch != [] then Deliver else FinishBatch;
      RunThen(s, es, t, e);
      StepKeeps(t, e);
      StoppedWriterEnds(t, e);
      es', t' := WriterExits(s, es + [e], Apply(t, e));
    }
  }

  /** From every state `stop` can run to its end, and then everything accepted before it
      has been delivered. */
  lemma StopReturns(s: Sink) returns (es: seq<Event>, t: Sink)
    requires Inv(s) && s.stop.NotCalled?
    ensures Run(s, es, t) && t.stop.Joined? && Lines(t.delivered) == s.accepted
  {
    hide Lines, Announced, Run, Conserved, Counted;
    assert Run(s, [], s) by { RunNone(s); }
    RunThen(s, [], s, StopFlag);
    StepKeeps(s, StopFlag);
    var u: Sink;
    es, u := WriterExits(s, [] + [StopFlag], Apply(s, StopFlag));
    RunThen(s, es, u, StopJoin);
    JoinKeeps(u);
    es, t := es + [StopJoin], Apply(u, StopJoin);
  }
}
