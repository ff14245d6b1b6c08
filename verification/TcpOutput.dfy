/** The output side of a connection: a direct write when nothing is queued, a buffer
    with write interest otherwise, the write-timeout watchdog and the half-close
    (net/tcp_connection.cc).

    A system call may write any part of what it is given, or fail.  User callbacks
    may call back into the connection; what they do is part of the event that runs
    them. */
module TcpOutput {

  datatype State = Connected | Disconnecting | Disconnected

  /** `sent` is everything given to sendInLoop, `wire` what the socket has taken;
      `clean` records whether every half-close of a live connection found all of it
      on the wire. */
  datatype Conn = Conn(
    state: State, output: string, writing: bool, timerArmed: bool, bytesWritten: nat, halfClosed: bool,
    sent: string, wire: string, clean: bool)

  datatype Settings = Settings(highWater: nat, writeSeconds: nat)

  /** `Send` and `Shutdown` are calls on the loop thread; `Deliver`, `Flag` and
      `HalfClose` are the parts of calls from other threads.  `high` and `done` are
      what the high-water and write-complete callbacks do. */
  datatype Event =
    | Send(data: string, result: int, high: Script, done: Script)
    | Deliver(data: string, result: int, high: Script, done: Script)
    | Writable(result: int, done: Script)
    | Shutdown
    | Flag
    | HalfClose
    | ForceClose
    | PeerClosed
    | TimerFires

  datatype Script = Stop | Then(first: Event, rest: Script)

  // ---- Operations ------------------------------------------------------------------------

  /** What `write` returns for `len` bytes: an error, or how many it took.  After a
      half-close it takes nothing. */
  function WriteResult(result: int, len: nat, halfClosed: bool): (n: int)
    ensures -1 <= n <= len
  {
    if halfClosed && len > 0 then -1 else if result < -1 then -1 else if result > len then len else result
  }

  function OnWire(c: Conn, bytes: string): Conn {
    c.(wire := c.wire + bytes, bytesWritten := c.bytesWritten + |bytes|)
  }

  function ArmTimer(s: Settings, c: Conn): Conn {
    if s.writeSeconds == 0 || c.timerArmed || c.state != Connected then c else c.(timerArmed := true)
  }

  function Enqueue(s: Settings, c: Conn, rest: string): Conn {
    ArmTimer(s, c.(output := c.output + rest, writing := true))
  }

  /** Nothing is queued, so the data may go out at once. */
  predicate Direct(c: Conn) {
    !c.writing && c.output == []
  }

  /** How much of the data a direct write takes. */
  function Taken(c: Conn, len: nat, result: int): (n: nat)
    ensures n <= len
  {
    if Direct(c) && WriteResult(result, len, c.halfClosed) > 0 then WriteResult(result, len, c.halfClosed) else 0
  }

  predicate Crosses(s: Settings, queued: nat, more: nat) {
    queued < s.highWater && queued + more >= s.highWater
  }

  function SendInLoop(s: Settings, c: Conn, e: Event): Conn
    requires e.Send? || e.Deliver?
    decreases e, 1
  {
    if c.state.Disconnected? then c
    else
      var n := Taken(c, |e.data|, e.result);
      var c1 := OnWire(c.(sent := c.sent + e.data), e.data[..n]);
      if n < |e.data| then
        var c2 := if Crosses(s, |c.output|, |e.data| - n) then Perform(s, c1, e.high) else c1;
        Enqueue(s, c2, e.data[n..])
      else if Direct(c) && WriteResult(e.result, |e.data|, c.halfClosed) >= 0 then Perform(s, c1, e.done)
      else c1
  }

  function ShutdownInLoop(c: Conn): Conn {
    if c.writing then c
    else c.(halfClosed := true, clean := c.clean && (c.state.Disconnected? || c.wire == c.sent))
  }

  function CallShutdown(c: Conn): Conn {
    if c.state.Connected? then ShutdownInLoop(c.(state := Disconnecting)) else c
  }

  function Close(c: Conn): Conn {
    c.(state := Disconnected, timerArmed := false, writing := false)
  }

  /** All queued output is written. */
  function Drained(c: Conn): Conn {
    OnWire(c, c.output).(output := "", writing := false, timerArmed := false)
  }

  function HandleWrite(s: Settings, c: Conn, e: Event): Conn
    requires e.Writable?
    decreases e, 1
  {
    var n := WriteResult(e.result, |c.output|, c.halfClosed);
    if !c.writing || n <= 0 then c
    else
      if n < |c.output| then OnWire(c.(output := c.output[n..]), c.output[..n])
      else
        var c2 := Perform(s, Drained(c), e.done);
        if c2.state.Disconnecting? then ShutdownInLoop(c2) else c2
  }

  /** The watchdog: still backed up after the deadline. */
  function OnTimer(c: Conn): Conn {
    var c1 := c.(timerArmed := false);
    if c.timerArmed && c.output != [] && !c.state.Disconnected? then Close(c1) else c1
  }

  function Apply(s: Settings, c: Conn, e: Event): Conn
    decreases e, 2
  {
    match e
    case Send(_, _, _, _) => if c.state.Connected? then SendInLoop(s, c, e) else c
    case Deliver(_, _, _, _) => SendInLoop(s, c, e)
    case Writable(_, _) => HandleWrite(s, c, e)
    case Shutdown => CallShutdown(c)
    case Flag => if c.state.Connected? then c.(state := Disconnecting) else c
    case HalfClose => ShutdownInLoop(c)
    case ForceClose => if c.state.Disconnected? then c else Close(c)
    case PeerClosed => Close(c)
    case TimerFires => OnTimer(c)
  }

  function Perform(s: Settings, c: Conn, script: Script): Conn
    decreases script, 0
  {
    match script
    case Stop => c
    case Then(e, rest) => Perform(s, Apply(s, c, e), rest)
  }

  function Init(): Conn {
    Conn(Connected, "", false, false, 0, false, "", "", true)
  }

  // ---- The invariant ------------------------------------------------------------------------

  /** One stream: what is on the wire and what is queued are, in order, what was sent. */
  ghost predicate Stream(c: Conn) {
    c.wire + c.output == c.sent && (!c.state.Disconnected? ==> (c.writing <==> c.output != []))
  }

  ghost predicate Ok(s: Settings, c: Conn) {
    && Stream(c)
    && c.bytesWritten == |c.wire|
    && (c.timerArmed ==> c.output != [] && !c.state.Disconnected?)
    && (s.writeSeconds > 0 && c.state.Connected? && c.output != [] ==> c.timerArmed)
    && c.clean
  }

  /** What a high-water callback that runs may do: nothing, or close the connection and
      then anything.  Another thread may flag a shutdown meanwhile. */
  ghost predicate QuietHigh(script: Script) {
    match script
    case Stop => true
    case Then(e, rest) => e.ForceClose? || e.PeerClosed? || (e.Flag? && QuietHigh(rest))
  }

  /** High-water callbacks that run are quiet; write-complete callbacks may do anything. */
  ghost predicate Quiet(s: Settings, c: Conn, e: Event)
    decreases e, 1
  {
    match e
    case Send(_, _, _, _) => c.state.Connected? ==> QuietSend(s, c, e)
    case Deliver(_, _, _, _) => QuietSend(s, c, e)
    case Writable(result, done) =>
      c.writing && 0 < |c.output| == WriteResult(result, |c.output|, c.halfClosed) ==> QuietAll(s, Drained(c), done)
    case _ => true
  }

  ghost predicate QuietSend(s: Settings, c: Conn, e: Event)
    requires e.Send? || e.Deliver?
    decreases e, 0
  {
    var n := Taken(c, |e.data|, e.result);
    if c.state.Disconnected? then true
    else if n < |e.data| then Crosses(s, |c.output|, |e.data| - n) ==> QuietHigh(e.high)
    else Direct(c) && WriteResult(e.result, |e.data|, c.halfClosed) >= 0 ==>
           QuietAll(s, OnWire(c.(sent := c.sent + e.data), e.data[..n]), e.done)
  }

  ghost predicate QuietAll(s: Settings, c: Conn, script: Script)
    decreases script, 0
  {
    script.Then? ==> Quiet(s, c, script.first) && QuietAll(s, Apply(s, c, script.first), script.rest)
  }

  /** A closed connection stays closed, whatever is done to it. */
  lemma {:induction false} ClosedStays(s: Settings, c: Conn, script: Script)
    requires c.state.Disconnected? && !c.writing && !c.timerArmed
    ensures Perform(s, c, script) == c.(halfClosed := Perform(s, c, script).halfClosed)
    decreases script
  {
    match script
    case Stop =>
    case Then(e, rest) =>
      assert e.Writable? ==> HandleWrite(s, c, e) == c;
      assert e.Deliver? ==> SendInLoop(s, c, e) == c;
      ClosedStays(s, Apply(s, c, e), rest);
  }

  lemma WriteStream(s: Settings, c: Conn, data: string, n: nat)
    requires Ok(s, c) && n <= |data| && (n > 0 ==> Direct(c))
    ensures var c1 := OnWire(c.(sent := c.sent + data), data[..n]);
            && c1.wire + (c1.output + data[n..]) == c1.sent
            && c1.bytesWritten == |c1.wire|
  {
    assert data == data[..n] + data[n..];
    if n == 0 {
      assert data[..0] == "" && c.wire + "" == c.wire;
      assert c.wire + (c.output + data[0..]) == (c.wire + c.output) + data[0..];
    } else {
      assert c.wire + c.output == c.wire;
      assert (c.wire + data[..n]) + (c.output + data[n..]) == c.wire + (data[..n] + data[n..]);
    }
  }

  lemma DrainStream(s: Settings, c: Conn, n: nat)
    requires Ok(s, c) && n <= |c.output|
    ensures var c1 := OnWire(c.(output := c.output[n..]), c.output[..n]);
            c1.wire + c1.output == c1.sent && c1.bytesWritten == |c1.wire|
  {
    assert c.output == c.output[..n] + c.output[n..];
    assert (c.wire + c.output[..n]) + c.output[n..] == c.wire + (c.output[..n] + c.output[n..]);
  }

  lemma {:induction false} SendKeeps(s: Settings, c: Conn, e: Event)
    requires (e.Send? || e.Deliver?) && Ok(s, c) && QuietSend(s, c, e)
    ensures Ok(s, SendInLoop(s, c, e))
    decreases e, 1
  {
    if !c.state.Disconnected? {
      var n := Taken(c, |e.data|, e.result);
      var c1 := OnWire(c.(sent := c.sent + e.data), e.data[..n]);
      WriteStream(s, c, e.data, n);
      if n == |e.data| {
        assert c.output + e.data[n..] == c.output;
        assert Ok(s, c1);
        if Direct(c) && WriteResult(e.result, |e.data|, c.halfClosed) >= 0 { PerformKeeps(s, c1, e.done); }
      } else if Crosses(s, |c.output|, |e.data| - n) {
        HighKeeps(s, c1, e.high, e.data[n..]);
      }
    }
  }

  /** A quiet high-water callback, with `rest` still to be queued. */
  lemma {:induction false} HighKeeps(s: Settings, c: Conn, high: Script, rest: string)
    requires QuietHigh(high) && rest != "" && !c.state.Disconnected? && c.clean && c.bytesWritten == |c.wire|
    requires c.wire + (c.output + rest) == c.sent
    requires c.timerArmed ==> c.output != []
    ensures Ok(s, Enqueue(s, Perform(s, c, high), rest))
    decreases high
  {
    match high
    case Stop =>
    case Then(e, after) =>
      if e.Flag? {
        HighKeeps(s, Apply(s, c, e), after, rest);
      } else {
        ClosedStays(s, Close(c), after);
      }
  }

  lemma {:induction false} WritableKeeps(s: Settings, c: Conn, e: Event)
    requires e.Writable? && Ok(s, c) && Quiet(s, c, e)
    ensures Ok(s, HandleWrite(s, c, e))
    decreases e, 1
  {
    var n := WriteResult(e.result, |c.output|, c.halfClosed);
    if c.writing && n > 0 {
      DrainStream(s, c, n);
      if n == |c.output| {
        assert c.output[..n] == c.output && c.output[n..] == "" && c.wire + c.output + "" == c.wire + c.output;
        PerformKeeps(s, Drained(c), e.done);
        ShutdownKeeps(s, Perform(s, Drained(c), e.done));
      }
    }
  }

  lemma ShutdownKeeps(s: Settings, c: Conn)
    requires Ok(s, c)
    ensures Ok(s, ShutdownInLoop(c))
  {
    if !c.writing && !c.state.Disconnected? {
      assert c.wire + c.output == c.wire;
    }
  }

  lemma {:induction false} ApplyKeeps(s: Settings, c: Conn, e: Event)
    requires Ok(s, c) && Quiet(s, c, e)
    ensures Ok(s, Apply(s, c, e))
    decreases e, 2
  {
    hide SendInLoop, HandleWrite, ShutdownInLoop;
    match e
    case Send(_, _, _, _) => if c.state.Connected? { SendKeeps(s, c, e); }
    case Deliver(_, _, _, _) => SendKeeps(s, c, e);
    case Writable(_, _) => WritableKeeps(s, c, e);
    case Shutdown => if c.state.Connected? { ShutdownKeeps(s, c.(state := Disconnecting)); }
    case HalfClose => ShutdownKeeps(s, c);
    case _ =>
  }

  /** Whatever the system calls return, and whatever the write-complete callbacks do,
      the peer gets one stream. */
  lemma {:induction false} PerformKeeps(s: Settings, c: Conn, script: Script)
    requires Ok(s, c) && QuietAll(s, c, script)
    ensures Ok(s, Perform(s, c, script))
    decreases script, 0
  {
    match script
    case Stop =>
    case Then(e, rest) =>
      ApplyKeeps(s, c, e);
      PerformKeeps(s, Apply(s, c, e), rest);
  }

  // ---- The data handed over ------------------------------------------------------------------

  /** What an event hands over to be sent, itself and then through the callbacks it runs:
      a send counts when it finds the connection connected, one delivered from another
      thread when it finds it not closed. */
  function GivenBy(s: Settings, c: Conn, e: Event): string
    decreases e, 2
  {
    match e
    case Send(data, _, _, _) => if c.state.Connected? then data + GivenInside(s, c, e) else ""
    case Deliver(data, _, _, _) => if !c.state.Disconnected? then data + GivenInside(s, c, e) else ""
    case Writable(result, done) =>
      if c.writing && 0 < |c.output| == WriteResult(result, |c.output|, c.halfClosed) then Given(s, Drained(c), done) else ""
    case _ => ""
  }

  function GivenInside(s: Settings, c: Conn, e: Event): string
    requires e.Send? || e.Deliver?
    decreases e, 1
  {
    var n := Taken(c, |e.data|, e.result);
    var c1 := OnWire(c.(sent := c.sent + e.data), e.data[..n]);
    if n < |e.data| then (if Crosses(s, |c.output|, |e.data| - n) then Given(s, c1, e.high) else "")
    else if Direct(c) && WriteResult(e.result, |e.data|, c.halfClosed) >= 0 then Given(s, c1, e.done)
    else ""
  }

  function Given(s: Settings, c: Conn, script: Script): string
    decreases script, 0
  {
    match script
    case Stop => ""
    case Then(e, rest) => GivenBy(s, c, e) + Given(s, Apply(s, c, e), rest)
  }

  lemma {:induction false} SendTakes(s: Settings, c: Conn, e: Event)
    requires (e.Send? || e.Deliver?) && !c.state.Disconnected?
    ensures SendInLoop(s, c, e).sent == c.sent + (e.data + GivenInside(s, c, e))
    decreases e, 1
  {
    var n := Taken(c, |e.data|, e.result);
    var c1 := OnWire(c.(sent := c.sent + e.data), e.data[..n]);
    var inside := GivenInside(s, c, e);
    assert c.sent + (e.data + inside) == c.sent + e.data + inside;
    if n < |e.data| {
      if Crosses(s, |c.output|, |e.data| - n) { AllTaken(s, c1, e.high); }
    } else if Direct(c) && WriteResult(e.result, |e.data|, c.halfClosed) >= 0 {
      AllTaken(s, c1, e.done);
    }
  }

  lemma {:induction false} EventTakes(s: Settings, c: Conn, e: Event)
    ensures Apply(s, c, e).sent == c.sent + GivenBy(s, c, e)
    decreases e, 2
  {
    hide SendInLoop, GivenInside, ShutdownInLoop, Taken, Direct;
    assert c.sent + "" == c.sent;
    match e
    case Send(_, _, _, _) => if c.state.Connected? { SendTakes(s, c, e); }
    case Deliver(_, _, _, _) => if !c.state.Disconnected? { SendTakes(s, c, e); } else { ClosedIgnores(s, c, e); }
    case Writable(result, done) => AllTaken(s, Drained(c), done); ShutdownTakesNothing(Perform(s, Drained(c), done));
    case Shutdown => ShutdownTakesNothing(c.(state := Disconnecting));
    case HalfClose => ShutdownTakesNothing(c);
    case _ =>
  }

  lemma ClosedIgnores(s: Settings, c: Conn, e: Event)
    requires e.Deliver? && c.state.Disconnected?
    ensures SendInLoop(s, c, e) == c
  {
  }

  lemma ShutdownTakesNothing(c: Conn)
    ensures ShutdownInLoop(c).sent == c.sent
  {
  }

  /** Everything handed over is taken, in the order of the calls, and nothing else. */
  lemma {:induction false} AllTaken(s: Settings, c: Conn, script: Script)
    ensures Perform(s, c, script).sent == c.sent + Given(s, c, script)
    decreases script, 0
  {
    match script
    case Stop => assert c.sent + "" == c.sent;
    case Then(e, rest) =>
      EventTakes(s, c, e);
      AllTaken(s, Apply(s, c, e), rest);
      assert c.sent + (GivenBy(s, c, e) + Given(s, Apply(s, c, e), rest)) ==
             c.sent + GivenBy(s, c, e) + Given(s, Apply(s, c, e), rest);
  }

  /** The bytes on the wire followed by the bytes queued are, at every moment, the data
      handed over; so the peer gets a prefix of it, in order. */
  lemma OutputTheorem(s: Settings, script: Script)
    requires QuietAll(s, Init(), script)
    ensures var r := Perform(s, Init(), script); Ok(s, r) && r.wire + r.output == Given(s, Init(), script)
  {
    hide Perform, Given, QuietAll;
    PerformKeeps(s, Init(), script);
    AllTaken(s, Init(), script);
    assert "" + Given(s, Init(), script) == Given(s, Init(), script);
  }

  // ---- What the calls do ---------------------------------------------------------------------

  /** The wire only grows. */
  lemma {:induction false} WireGrows(s: Settings, c: Conn, script: Script)
    ensures c.wire <= Perform(s, c, script).wire
    decreases script, 0
  {
    match script
    case Stop =>
    case Then(e, rest) =>
      EventGrows(s, c, e);
      WireGrows(s, Apply(s, c, e), rest);
  }

  lemma {:induction false} EventGrows(s: Settings, c: Conn, e: Event)
    ensures c.wire <= Apply(s, c, e).wire
    decreases e, 2
  {
    match e
    case Send(_, _, _, _) => if c.state.Connected? { SendGrows(s, c, e); }
    case Deliver(_, _, _, _) => if !c.state.Disconnected? { SendGrows(s, c, e); }
    case Writable(_, done) => WireGrows(s, Drained(c), done);
    case _ =>
  }

  lemma {:induction false} SendGrows(s: Settings, c: Conn, e: Event)
    requires (e.Send? || e.Deliver?) && !c.state.Disconnected?
    ensures c.wire + e.data[..Taken(c, |e.data|, e.result)] <= SendInLoop(s, c, e).wire
    ensures c.wire <= SendInLoop(s, c, e).wire
    decreases e, 1
  {
    var c1 := OnWire(c.(sent := c.sent + e.data), e.data[..Taken(c, |e.data|, e.result)]);
    WireGrows(s, c1, e.high);
    WireGrows(s, c1, e.done);
  }

  function Min(a: int, b: int): int {
    if a < b then a else b
  }

  /** A send with nothing queued writes at once what the socket takes. */
  lemma SendWrites(s: Settings, c: Conn, e: Event)
    requires (e.Send? && c.state.Connected?) || (e.Deliver? && !c.state.Disconnected?)
    requires Direct(c) && !c.halfClosed && e.result >= 0
    ensures c.wire + e.data[..Min(e.result, |e.data|)] <= Apply(s, c, e).wire
  {
    SendGrows(s, c, e);
  }

  /** A writable socket is given the front of the queue. */
  lemma WritableWrites(s: Settings, c: Conn, result: int, done: Script)
    requires c.writing && !c.halfClosed && result >= 1
    ensures c.wire + c.output[..Min(result, |c.output|)] <= Apply(s, c, Writable(result, done)).wire
  {
    var e := Writable(result, done);
    assert Apply(s, c, e) == HandleWrite(s, c, e);
    WireGrows(s, Drained(c), done);
    assert c.output[..|c.output|] == c.output;
    assert c.output == "" ==> c.wire + c.output[..0] == c.wire;
  }

  /** A shutdown of a connected socket closes it for writing at once, unless output is
      queued; called from another thread it does the same in two parts. */
  lemma ShutdownHalfCloses(s: Settings, c: Conn)
    requires Ok(s, c) && c.state.Connected?
    ensures var r := Apply(s, c, Shutdown);
            && r.state.Disconnecting? && (r.halfClosed <==> c.halfClosed || c.output == "")
            && r == Apply(s, Apply(s, c, Flag), HalfClose)
            && r.wire == c.wire && r.output == c.output && r.timerArmed == c.timerArmed
  {
  }

  /** A forced close, a close by the peer, and a watchdog that is armed end the
      connection; a watchdog that is not armed does nothing. */
  lemma ClosesEnd(s: Settings, c: Conn, e: Event)
    requires Ok(s, c) && (e.ForceClose? || e.PeerClosed? || e.TimerFires?)
    ensures var r := Apply(s, c, e);
            && (r.state.Disconnected? <==> !e.TimerFires? || c.timerArmed || c.state.Disconnected?)
            && (r.state.Disconnected? && !c.state.Disconnected? ==> !r.writing && !r.timerArmed)
            && (e.TimerFires? && !c.timerArmed ==> r == c)
            && r.wire == c.wire && r.output == c.output && r.sent == c.sent
  {
  }

  // ---- The half-close --------------------------------------------------------------------------

  /** Nothing reaches the wire after the half-close, whatever happens. */
  lemma {:induction false} SilentApply(s: Settings, c: Conn, e: Event)
    requires c.halfClosed
    ensures Apply(s, c, e).halfClosed && Apply(s, c, e).wire == c.wire
    decreases e, 1
  {
    match e
    case Send(data, result, high, done) =>
      assert c.wire + data[..0] == c.wire;
      var c1 := OnWire(c.(sent := c.sent + data), data[..0]);
      SilentPerform(s, c1, high);
      SilentPerform(s, c1, done);
    case Deliver(data, result, high, done) =>
      assert c.wire + data[..0] == c.wire;
      var c1 := OnWire(c.(sent := c.sent + data), data[..0]);
      SilentPerform(s, c1, high);
      SilentPerform(s, c1, done);
    case _ =>
  }

  lemma {:induction false} SilentPerform(s: Settings, c: Conn, script: Script)
    requires c.halfClosed
    ensures Perform(s, c, script).halfClosed && Perform(s, c, script).wire == c.wire
    decreases script, 0
  {
    match script
    case Stop =>
    case Then(e, rest) =>
      SilentApply(s, c, e);
      SilentPerform(s, Apply(s, c, e), rest);
  }

  /** A half-close asked for while data was queued happens when the last of it is written. */
  lemma DrainCompletesShutdown(s: Settings, c: Conn, result: int)
    requires Ok(s, c) && c.state.Disconnecting? && c.writing && !c.halfClosed && result >= |c.output|
    ensures var r := Apply(s, c, Writable(result, Stop)); r.halfClosed && r.wire == c.sent && r.output == ""
  {
    var e := Writable(result, Stop);
    assert Apply(s, c, e) == HandleWrite(s, c, e);
    assert c.output[..|c.output|] == c.output && c.output[|c.output|..] == "";
    assert Perform(s, Drained(c), Stop) == Drained(c);
    assert HandleWrite(s, c, e) == ShutdownInLoop(Drained(c));
  }

  // ---- What the high-water callback must not do ---------------------------------------------------

  /** The callback runs before the rest of the data is queued, so what it sends
      overtakes that rest. */
  lemma HighWaterSendOvertakes(s: Settings, c: Conn, data: string, result: int, nested: string, nestedResult: int)
    requires Ok(s, c) && c.state.Connected? && Taken(c, |data|, result) < |data|
    requires Crosses(s, |c.output|, |data| - Taken(c, |data|, result))
    ensures var n := Taken(c, |data|, result);
            var r := Apply(s, c, Send(data, result, Then(Send(nested, nestedResult, Stop, Stop), Stop), Stop));
            && r.wire + r.output == c.sent + (data[..n] + (nested + data[n..]))
            && r.sent == c.sent + data + nested
            && (Stream(r) <==> nested + data[n..] == data[n..] + nested)
  {
    var n := Taken(c, |data|, result);
    var e := Send(data, result, Then(Send(nested, nestedResult, Stop, Stop), Stop), Stop);
    var c1 := OnWire(c.(sent := c.sent + data), data[..n]);
    var c2 := Apply(s, c1, Send(nested, nestedResult, Stop, Stop));
    var r := Apply(s, c, e);
    assert Perform(s, c2, Stop) == c2;
    assert Perform(s, c1, e.high) == c2;
    assert r == SendInLoop(s, c, e);
    assert r == Enqueue(s, c2, data[n..]);
    NestedStream(s, c, data, n, nested, nestedResult);
    assert c2.wire + (c2.output + data[n..]) == (c2.wire + c2.output) + data[n..];
    assert c.sent + data[..n] + nested + data[n..] == c.sent + (data[..n] + (nested + data[n..]));
    Overtaken(c.sent, data, n, nested);
  }

  lemma NestedStream(s: Settings, c: Conn, data: string, n: nat, nested: string, nestedResult: int)
    requires Ok(s, c) && c.state.Connected? && n < |data| && (n > 0 ==> Direct(c))
    ensures var c1 := OnWire(c.(sent := c.sent + data), data[..n]);
            var c2 := Apply(s, c1, Send(nested, nestedResult, Stop, Stop));
            && c2.wire + c2.output == c.sent + data[..n] + nested
            && c2.sent == c.sent + data + nested && c2.state == c.state
  {
    var c1 := OnWire(c.(sent := c.sent + data), data[..n]);
    assert Ok(s, c1.(sent := c.sent + data[..n])) by {
      assert n > 0 ==> c.output == "" && c.wire + "" == c.wire;
      assert data[..0] == "" && c.sent + "" == c.sent && c.wire + "" == c.wire;
    }
    var e := Send(nested, nestedResult, Stop, Stop);
    var m := Taken(c1, |nested|, nestedResult);
    var c2 := OnWire(c1.(sent := c1.sent + nested), nested[..m]);
    assert Perform(s, c2, Stop) == c2;
    assert Apply(s, c1, e) == SendInLoop(s, c1, e);
    assert SendInLoop(s, c1, e) == if m < |nested| then Enqueue(s, c2, nested[m..]) else c2;
    WriteStream(s, c1.(sent := c.sent + data[..n]), nested, m);
    assert m == |nested| ==> nested[m..] == "" && c1.output + "" == c1.output;
  }

  lemma Overtaken(sent: string, data: string, n: nat, nested: string)
    requires n <= |data|
    ensures sent + (data[..n] + (nested + data[n..])) == sent + data + nested <==> nested + data[n..] == data[n..] + nested
  {
    var p, rest := sent + data[..n], data[n..];
    assert data == data[..n] + rest;
    assert sent + data + nested == p + (rest + nested);
    assert sent + (data[..n] + (nested + rest)) == p + (nested + rest);
    if p + (nested + rest) == p + (rest + nested) {
      assert (p + (nested + rest))[|p|..] == nested + rest;
      assert (p + (rest + nested))[|p|..] == rest + nested;
    }
  }

  /** A shutdown from that callback is safe exactly when output was queued already;
      otherwise the socket is closed for writing before the rest is queued. */
  lemma HighWaterShutdownSafeIff(s: Settings, c: Conn, data: string, result: int)
    requires Ok(s, c) && c.state.Connected? && Taken(c, |data|, result) < |data|
    requires Crosses(s, |c.output|, |data| - Taken(c, |data|, result))
    ensures Apply(s, c, Send(data, result, Then(Shutdown, Stop), Stop)).clean <==> c.writing
  {
    var n := Taken(c, |data|, result);
    var c1 := OnWire(c.(sent := c.sent + data), data[..n]);
    var c2 := CallShutdown(c1);
    var e := Send(data, result, Then(Shutdown, Stop), Stop);
    assert Perform(s, c2, Stop) == c2 && Apply(s, c1, Shutdown) == c2;
    assert Perform(s, c1, e.high) == c2;
    assert Apply(s, c, e) == SendInLoop(s, c, e);
    assert SendInLoop(s, c, e) == Enqueue(s, c2, data[n..]);
    if !c.writing {
      assert c.output == "" && c.wire + "" == c.wire;
      assert |c1.wire| < |c1.sent|;
    }
  }
}
