/** The connection as the object it is: fields updated in place, output queued in the
    byte buffer, callbacks that call back into it.  `TcpOutput` is what its handlers
    compute; here they do so on the array of the buffer, and keep the stream. */
module TcpConnectionObject {

  import ByteBuffer
  import opened TcpOutput

  class TcpConnection {
    const settings: Settings
    const output: ByteBuffer.Buffer
    var state: State
    var writing: bool
    var timerArmed: bool
    var bytesWritten: nat
    var halfClosed: bool
    ghost var sent: string
    ghost var wire: string
    ghost var clean: bool

    ghost predicate Valid()
      reads this, output, output.data
    {
      output.Valid()
    }

    /** The queued output is the content of the buffer, wherever it lies in the array. */
    ghost function View(): Conn
      requires Valid()
      reads this, output, output.data
    {
      Conn(state, output.Contents(), writing, timerArmed, bytesWritten, halfClosed, sent, wire, clean)
    }

    constructor (settings: Settings)
      ensures Valid() && fresh(output) && fresh(output.data)
      ensures View() == Init() && this.settings == settings && Ok(settings, View())
    {
      this.settings := settings;
      output := new ByteBuffer.Buffer(1024);
      state, writing, timerArmed, bytesWritten, halfClosed := Connected, false, false, 0, false;
      sent, wire, clean := "", "", true;
    }

    /** The system call: the bytes it takes are on the wire. */
    method Write(bytes: string, result: int) returns (n: int)
      modifies this`wire
      ensures n == WriteResult(result, |bytes|, halfClosed)
      ensures wire == old(wire) + if n > 0 then bytes[..n] else ""
    {
      n := WriteResult(result, |bytes|, halfClosed);
      wire := wire + if n > 0 then bytes[..n] else "";
    }

    method ArmWriteTimer()
      requires Valid()
      modifies this`timerArmed
      ensures Valid() && View() == ArmTimer(settings, old(View()))
    {
      if settings.writeSeconds == 0 || timerArmed || state != Connected {
        return;
      }
      timerArmed := true;
    }

    /** Queues what could not be written and watches for writability. */
    method Queue(rest: string)
      requires Valid()
      modifies this`writing, this`timerArmed, output, output.data
      ensures Valid() && (output.data == old(output.data) || fresh(output.data))
      ensures View() == Enqueue(settings, old(View()), rest)
    {
      output.Append(rest);
      if !writing {
        writing := true;
      }
      ArmWriteTimer();
    }

    /** The fast path: with nothing queued, the data is offered to the socket first. */
    method WriteDirectly(data: string, result: int) returns (nwrote: nat, flushed: bool)
      requires Valid()
      modifies this`sent, this`wire, this`bytesWritten
      ensures Valid() && nwrote == Taken(old(View()), |data|, result)
      ensures View() == OnWire(old(View()).(sent := old(sent) + data), data[..nwrote])
      ensures nwrote == |data| ==> (flushed <==> Direct(old(View())) && WriteResult(result, |data|, old(halfClosed)) >= 0)
      ensures flushed ==> nwrote == |data|
    {
      sent := sent + data;
      nwrote, flushed := 0, false;
      if !writing && output.ReadableBytes() == 0 {
        var n := Write(data, result);
        if n >= 0 {
          bytesWritten := bytesWritten + n;
          nwrote, flushed := n, n == |data|;
        }
      }
      assert old(wire) + data[..0] == old(wire);
    }

    method DoSendInLoop(e: Event)
      requires Valid() && (e.Send? || e.Deliver?)
      modifies this, output, output.data
      ensures Valid() && (output.data == old(output.data) || fresh(output.data))
      ensures View() == SendInLoop(settings, old(View()), e)
      decreases e, 1
    {
      hide Enqueue, OnWire, Taken, WriteResult, Direct;
      if state == Disconnected {
        return;
      }
      var queued := output.ReadableBytes();
      var nwrote, flushed := WriteDirectly(e.data, e.result);
      if flushed {
        PerformScript(e.done);
      }
      if nwrote < |e.data| {
        if queued < settings.highWater && queued + |e.data| - nwrote >= settings.highWater {
          PerformScript(e.high);
        }
        Queue(e.data[nwrote..]);
      }
    }

    method DoShutdownInLoop()
      requires Valid()
      modifies this`halfClosed, this`clean
      ensures Valid() && View() == ShutdownInLoop(old(View()))
    {
      if !writing {
        halfClosed := true;
        clean := clean && (state.Disconnected? || wire == sent);
      }
    }

    /** Writes from the front of the buffer and retrieves what was taken. */
    method WriteQueued(result: int) returns (n: int)
      requires Valid()
      modifies this`wire, this`bytesWritten, output`readerIndex, output`writerIndex
      ensures Valid() && n == WriteResult(result, |old(View()).output|, halfClosed)
      ensures n <= 0 ==> View() == old(View())
      ensures n > 0 ==> View() == OnWire(old(View()).(output := old(View()).output[n..]), old(View()).output[..n])
    {
      var bytes := output.Peek(output.ReadableBytes());
      assert bytes == output.Contents();
      n := Write(bytes, result);
      if n > 0 {
        bytesWritten := bytesWritten + n;
        output.Retrieve(n);
      } else {
        assert old(wire) + "" == old(wire);
      }
    }

    method DoHandleWrite(e: Event)
      requires Valid() && e.Writable?
      modifies this, output, output.data
      ensures Valid() && (output.data == old(output.data) || fresh(output.data))
      ensures View() == HandleWrite(settings, old(View()), e)
      decreases e, 1
    {
      hide ShutdownInLoop, WriteResult;
      if !writing {
        return;
      }
      ghost var c := View();
      var n := WriteQueued(e.result);
      if n > 0 && output.ReadableBytes() == 0 {
        writing, timerArmed := false, false;
        assert c.output[..n] == c.output;
        PerformScript(e.done);
        if state == Disconnecting {
          DoShutdownInLoop();
        }
      }
    }

    method HandleClose()
      requires Valid()
      modifies this`state, this`timerArmed, this`writing
      ensures Valid() && View() == Close(old(View()))
    {
      state, timerArmed, writing := Disconnected, false, false;
    }

    /** One call or event, with the callbacks it runs. */
    method Handle(e: Event)
      requires Valid()
      modifies this, output, output.data
      ensures Valid() && (output.data == old(output.data) || fresh(output.data))
      ensures View() == Apply(settings, old(View()), e)
      decreases e, 2
    {
      hide SendInLoop, HandleWrite, ShutdownInLoop, Close;
      match e
      case Send(_, _, _, _) => if state == Connected { DoSendInLoop(e); }
      case Deliver(_, _, _, _) => DoSendInLoop(e);
      case Writable(_, _) => DoHandleWrite(e);
      case Shutdown => if state == Connected { state := Disconnecting; DoShutdownInLoop(); }
      case Flag => if state == Connected { state := Disconnecting; }
      case HalfClose => DoShutdownInLoop();
      case ForceClose => if state != Disconnected { HandleClose(); }
      case PeerClosed => HandleClose();
      case TimerFires =>
        var late := timerArmed && output.ReadableBytes() > 0 && state != Disconnected;
        timerArmed := false;
        if late { HandleClose(); }
    }

    method PerformScript(script: Script)
      requires Valid()
      modifies this, output, output.data
      ensures Valid() && (output.data == old(output.data) || fresh(output.data))
      ensures View() == Perform(settings, old(View()), script)
      decreases script, 0
    {
      match script
      case Stop =>
      case Then(e, rest) =>
        Handle(e);
        PerformScript(rest);
    }

    /** What the owner of a connection relies on: every call and event keeps the stream,
        in the array, whatever the system calls return and the callbacks do. */
    method OnEvent(e: Event)
      requires Valid() && Ok(settings, View()) && Quiet(settings, View(), e)
      modifies this, output, output.data
      ensures Valid() && (output.data == old(output.data) || fresh(output.data))
      ensures Ok(settings, View()) && View() == Apply(settings, old(View()), e)
      ensures wire + output.Contents() == old(wire + output.Contents()) + GivenBy(settings, old(View()), e)
    {
      hide Apply, Quiet, GivenBy;
      ApplyKeeps(settings, View(), e);
      EventTakes(settings, View(), e);
      Handle(e);
    }
  }

  /** Every history of a connection, from its establishment. */
  method Replay(settings: Settings, script: Script) returns (c: TcpConnection)
    requires QuietAll(settings, Init(), script)
    ensures c.Valid() && Ok(settings, c.View()) && c.View() == Perform(settings, Init(), script)
    ensures c.wire + c.output.Contents() == Given(settings, Init(), script)
  {
    OutputTheorem(settings, script);
    c := new TcpConnection(settings);
    var rest := script;
    while rest.Then?
      invariant c.Valid() && fresh(c) && fresh(c.output) && fresh(c.output.data) && c.settings == settings
      invariant Ok(settings, c.View()) && QuietAll(settings, c.View(), rest)
      invariant Perform(settings, c.View(), rest) == Perform(settings, Init(), script)
      decreases rest
    {
      c.OnEvent(rest.first);
      rest := rest.rest;
    }
  }
}
