/** The response parser in the form of the source: an object whose fields the
    loop of `parse` updates while it consumes a buffer (http/response_parser.cc). */
module ResponseParserObject {
  import opened Text
  import opened Incremental
  import opened HttpMessage
  import Spec = ResponseParser
  import opened ByteBuffer

  class ResponseParser {
    var state: Spec.State
    var response: Response
    var lowerHeaders: HeaderMap
    var contentLength: nat
    var bodyReceived: nat
    var headerBytes: nat
    var chunkRemaining: nat
    var hasContentLength: bool
    var bodyAccum: string

    ghost predicate Valid()
      reads this
    {
      Spec.Valid(Spec.Parser(state, response, lowerHeaders, contentLength, bodyReceived, headerBytes,
                             chunkRemaining, hasContentLength, bodyAccum))
    }

    ghost function View(): (c: Spec.Parser)
      requires Valid()
      reads this
    {
      Spec.Parser(state, response, lowerHeaders, contentLength, bodyReceived, headerBytes,
                  chunkRemaining, hasContentLength, bodyAccum)
    }

    constructor ()
      ensures Valid() && View() == Spec.Initial
    {
      state, response, lowerHeaders := Spec.ExpectStatusLine, EmptyResponse, map[];
      contentLength, bodyReceived, headerBytes, chunkRemaining := 0, 0, 0, 0;
      hasContentLength, bodyAccum := false, "";
    }

    method Reset()
      modifies this
      ensures Valid() && View() == Spec.Initial
    {
      state, response, lowerHeaders := Spec.ExpectStatusLine, EmptyResponse, map[];
      contentLength, bodyReceived, headerBytes, chunkRemaining := 0, 0, 0, 0;
      hasContentLength, bodyAccum := false, "";
    }

    /** The peer closed: finish a body that runs to the end of the stream. */
    method OnEof()
      requires Valid()
      modifies this
      ensures Valid() && View() == Spec.OnEof(old(View()))
    {
      if state.ExpectEofBody? {
        Complete();
      }
    }

    method Complete()
      modifies this`response, this`bodyAccum, this`state
      ensures response == old(response).(body := old(bodyAccum)) && bodyAccum == "" && state == Spec.GotAll
    {
      response := response.(body := bodyAccum);
      bodyAccum := "";
      state := Spec.GotAll;
    }

    /** The loop of `parse` over the unread bytes of the buffer. */
    method Parse(buf: Buffer) returns (ok: bool)
      requires Valid() && buf.Valid()
      modifies this, buf`readerIndex, buf`writerIndex
      ensures Valid() && buf.Valid()
      ensures Progress(View(), buf.Contents()) == Spec.Parse(old(View()), old(buf.Contents()))
      ensures ok == !View().state.Error?
    {
      var progress := true;
      while progress
        invariant Valid() && buf.Valid()
        invariant Spec.Parse(View(), buf.Contents()) == Spec.Parse(old(View()), old(buf.Contents()))
        invariant !progress ==> Spec.Parse(View(), buf.Contents()) == Progress(View(), buf.Contents())
        decreases |buf.Contents()|, progress
      {
        var failed;
        progress, failed := ParseOnce(buf);
        if failed {
          return false;
        }
      }
      return state != Spec.Error;
    }

    method ParseOnce(buf: Buffer) returns (progress: bool, failed: bool)
      requires Valid() && buf.Valid()
      modifies this, buf`readerIndex, buf`writerIndex
      ensures Valid() && buf.Valid()
      ensures if progress then |buf.Contents()| < |old(buf.Contents())| else |buf.Contents()| <= |old(buf.Contents())|
      ensures var p := Spec.Parse(old(View()), old(buf.Contents()));
              if failed then !progress && View().state.Error? && p == Progress(View(), buf.Contents())
              else p == Spec.Parse(View(), buf.Contents()) && (!progress ==> p == Progress(View(), buf.Contents()))
    {
      Spec.ParseStep(View(), buf.Contents());
      ghost var o := Spec.Step(View(), buf.Contents());
      progress, failed := TakeStep(buf);
      assert failed ==> o == Halt(View(), o.used);
    }

    /** The branch for the current state. */
    method TakeStep(buf: Buffer) returns (progress: bool, failed: bool)
      requires Valid() && buf.Valid()
      modifies this, buf`readerIndex, buf`writerIndex
      ensures Valid() && buf.Valid()
      ensures progress == Spec.Step(old(View()), old(buf.Contents())).Advance?
      ensures failed == Spec.Step(old(View()), old(buf.Contents())).Halt?
      ensures Took(Spec.Step(old(View()), old(buf.Contents())), old(View()), old(buf.Contents()), View(), buf.Contents())
    {
      hide Spec.OnLine, Spec.OnBody, Spec.OnChunkData, Spec.OnEofBody, FirstCrlf;
      progress, failed := false, false;
      match state {
        case ExpectBody =>
          progress := TakeBody(buf);
        case ExpectChunkData =>
          progress := TakeChunkData(buf);
        case ExpectChunkCrlf =>
          progress := buf.ReadableBytes() >= 2;
          if progress {
            buf.Retrieve(2);
            state := Spec.ExpectChunkSize;
          }
        case ExpectEofBody =>
          progress := TakeAll(buf);
        case GotAll =>
        case Error =>
        case _ =>
          var crlf := buf.FindCrlf();
          if crlf.None? { return; }
          var line := buf.Peek(crlf.value);
          failed := TakeLine(line, buf);
          progress := !failed;
      }
    }

    method TakeAll(buf: Buffer) returns (progress: bool)
      requires Valid() && buf.Valid() && state.ExpectEofBody?
      modifies this`bodyAccum, buf`readerIndex, buf`writerIndex
      ensures Valid() && buf.Valid()
      ensures progress == Spec.OnEofBody(old(View()), old(buf.Contents())).Advance?
      ensures Took(Spec.OnEofBody(old(View()), old(buf.Contents())), old(View()), old(buf.Contents()), View(), buf.Contents())
    {
      var avail := buf.ReadableBytes();
      progress := avail > 0;
      if avail > 0 {
        var bytes := buf.RetrieveAsString(avail);
        bodyAccum := bodyAccum + bytes;
      }
    }

    method TakeBody(buf: Buffer) returns (progress: bool)
      requires Valid() && buf.Valid() && state.ExpectBody?
      modifies this`response, this`bodyAccum, this`bodyReceived, this`state, buf`readerIndex, buf`writerIndex
      ensures Valid() && buf.Valid()
      ensures progress == Spec.OnBody(old(View()), old(buf.Contents())).Advance?
      ensures Took(Spec.OnBody(old(View()), old(buf.Contents())), old(View()), old(buf.Contents()), View(), buf.Contents())
    {
      var avail := buf.ReadableBytes();
      var need := contentLength - bodyReceived;
      var take := if avail < need then avail else need;
      progress := take > 0;
      if take > 0 {
        var bytes := buf.RetrieveAsString(take);
        bodyAccum := bodyAccum + bytes;
        bodyReceived := bodyReceived + take;
      }
      if bodyReceived == contentLength {
        Complete();
      }
    }

    method TakeChunkData(buf: Buffer) returns (progress: bool)
      requires Valid() && buf.Valid() && state.ExpectChunkData?
      modifies this`bodyAccum, this`chunkRemaining, this`state, buf`readerIndex, buf`writerIndex
      ensures Valid() && buf.Valid()
      ensures progress == Spec.OnChunkData(old(View()), old(buf.Contents())).Advance?
      ensures Took(Spec.OnChunkData(old(View()), old(buf.Contents())), old(View()), old(buf.Contents()), View(), buf.Contents())
    {
      var avail := buf.ReadableBytes();
      var take := if avail < chunkRemaining then avail else chunkRemaining;
      progress := take > 0;
      if take > 0 {
        var bytes := buf.RetrieveAsString(take);
        bodyAccum := bodyAccum + bytes;
        chunkRemaining := chunkRemaining - take;
      }
      if chunkRemaining == 0 {
        state := Spec.ExpectChunkCrlf;
      }
    }

    /** A complete line at the front of the buffer, in a line-oriented state. */
    method TakeLine(line: string, buf: Buffer) returns (failed: bool)
      requires Valid() && buf.Valid()
      requires state.ExpectStatusLine? || state.ExpectHeaders? || state.ExpectChunkSize?
      requires |line| + 2 <= |buf.Contents()|
      modifies this, buf`readerIndex, buf`writerIndex
      ensures Valid() && buf.Valid()
      ensures failed == Spec.OnLine(old(View()), line).Halt?
      ensures Took(Spec.OnLine(old(View()), line), old(View()), old(buf.Contents()), View(), buf.Contents())
    {
      hide Strtoul, Spec.ParseStatusLine, Spec.OnHeaderLine, Contains, DefaultReason;
      failed := false;
      match state {
        case ExpectStatusLine =>
          failed := TakeStatusLine(line, buf);
        case ExpectHeaders =>
          if line == "" {
            buf.Retrieve(2);
            FinishHeaders();
          } else {
            failed := ReadHeaderLine(line);
            if failed { return; }
            buf.Retrieve(|line| + 2);
          }
        case ExpectChunkSize =>
          TakeChunkSize(line, buf);
      }
    }

    method TakeStatusLine(line: string, buf: Buffer) returns (failed: bool)
      requires Valid() && buf.Valid() && state.ExpectStatusLine?
      requires |line| + 2 <= |buf.Contents()|
      modifies this`response, this`state, buf`readerIndex, buf`writerIndex
      ensures Valid() && buf.Valid()
      ensures failed == Spec.OnLine(old(View()), line).Halt?
      ensures Took(Spec.OnLine(old(View()), line), old(View()), old(buf.Contents()), View(), buf.Contents())
    {
      hide Spec.ParseStatusLine, DefaultReason;
      var status := Spec.ParseStatusLine(line);
      if status.None? {
        state := Spec.Error;
        return true;
      }
      response := response.SetStatus(status.value.0, status.value.1);
      buf.Retrieve(|line| + 2);
      state := Spec.ExpectHeaders;
      return false;
    }

    method TakeChunkSize(line: string, buf: Buffer)
      requires Valid() && buf.Valid() && state.ExpectChunkSize?
      requires |line| + 2 <= |buf.Contents()|
      modifies this`response, this`bodyAccum, this`chunkRemaining, this`state, buf`readerIndex, buf`writerIndex
      ensures Valid() && buf.Valid()
      ensures Spec.OnLine(old(View()), line).Advance?
      ensures Took(Spec.OnLine(old(View()), line), old(View()), old(buf.Contents()), View(), buf.Contents())
    {
      hide Strtoul;
      chunkRemaining := Strtoul(line, 16);
      buf.Retrieve(|line| + 2);
      if chunkRemaining == 0 {
        Complete();
      } else {
        state := Spec.ExpectChunkData;
      }
    }

    method FinishHeaders()
      requires Valid() && state.ExpectHeaders?
      modifies this`state
      ensures Valid() && Spec.EndOfHeaders(old(View())) == Advance(View(), 2)
    {
      if "transfer-encoding" in lowerHeaders && Contains(lowerHeaders["transfer-encoding"], "chunked") {
        state := Spec.ExpectChunkSize;
      } else if hasContentLength {
        state := if contentLength > 0 then Spec.ExpectBody else Spec.GotAll;
      } else {
        state := Spec.ExpectEofBody;
      }
    }

    method ReadHeaderLine(line: string) returns (failed: bool)
      requires Valid() && state.ExpectHeaders?
      modifies this`response, this`lowerHeaders, this`hasContentLength, this`contentLength, this`headerBytes, this`state
      ensures Valid() && Spec.OnHeaderLine(old(View()), line) ==
              if failed then Halt(View(), 0) else Advance(View(), |line| + 2)
    {
      hide SplitHeader, ToLower, Strtoul;
      var split := SplitHeader(line);
      if split.None? {
        state := Spec.Error;
        return true;
      }
      var (key, value) := split.value;
      response := response.(headers := response.headers[key := value]);
      var lkey := ToLower(key);
      lowerHeaders := lowerHeaders[lkey := value];
      if lkey == "content-length" {
        hasContentLength := true;
        contentLength := Strtoul(value, 10);
      }
      headerBytes := headerBytes + |line| + 2;
      if headerBytes > Spec.MAX_HEADER_BYTES {
        state := Spec.Error;
        return true;
      }
      return false;
    }
  }
}
