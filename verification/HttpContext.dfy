/** The request parser in the form of the source: an object whose fields the loop
    of `parseRequest` updates while it consumes a buffer (http/http_context.cc). */
module HttpContextObject {
  import opened Text
  import opened Incremental
  import opened HttpMessage
  import opened RequestParser
  import opened ByteBuffer

  class HttpContext {
    var state: State
    var error: ErrorKind
    var request: Request
    var contentLength: nat
    var bodyReceived: nat
    var headerBytes: nat
    var chunkRemaining: nat
    var maxBodyBytes: nat

    ghost predicate Valid()
      reads this
    {
      RequestParser.Valid(Context(state, error, request, contentLength, bodyReceived, headerBytes, chunkRemaining, maxBodyBytes))
    }

    ghost function View(): (c: Context)
      requires Valid()
      reads this
    {
      Context(state, error, request, contentLength, bodyReceived, headerBytes, chunkRemaining, maxBodyBytes)
    }

    constructor (maxBody: nat)
      ensures Valid() && View() == Fresh(maxBody)
    {
      state, error, request := ExpectRequestLine, NoError, EmptyRequest;
      contentLength, bodyReceived, headerBytes, chunkRemaining, maxBodyBytes := 0, 0, 0, 0, maxBody;
    }

    method Reset()
      modifies this
      ensures Valid() && View() == Fresh(old(maxBodyBytes))
    {
      state, error, request := ExpectRequestLine, NoError, EmptyRequest;
      contentLength, bodyReceived, headerBytes, chunkRemaining := 0, 0, 0, 0;
    }

    /** The loop of `parseRequest` over the unread bytes of the buffer. */
    method ParseRequest(buf: Buffer) returns (ok: bool)
      requires Valid() && buf.Valid()
      modifies this, buf`readerIndex, buf`writerIndex
      ensures Valid() && buf.Valid()
      ensures Progress(View(), buf.Contents()) == Parse(old(View()), old(buf.Contents()))
      ensures ok == !View().state.Error?
    {
      var progress := true;
      while progress
        invariant Valid() && buf.Valid()
        invariant Parse(View(), buf.Contents()) == Parse(old(View()), old(buf.Contents()))
        invariant !progress ==> Parse(View(), buf.Contents()) == Progress(View(), buf.Contents())
        decreases |buf.Contents()|, progress
      {
        var failed;
        progress, failed := ParseOnce(buf);
        if failed {
          return false;
        }
      }
      return state != Error;
    }

    /** One iteration.  One that progresses has consumed at least one byte, so the
        loop terminates. */
    method ParseOnce(buf: Buffer) returns (progress: bool, failed: bool)
      requires Valid() && buf.Valid()
      modifies this, buf`readerIndex, buf`writerIndex
      ensures Valid() && buf.Valid()
      ensures if progress then |buf.Contents()| < |old(buf.Contents())| else |buf.Contents()| <= |old(buf.Contents())|
      ensures var p := Parse(old(View()), old(buf.Contents()));
              if failed then !progress && View().state.Error? && p == Progress(View(), buf.Contents())
              else p == Parse(View(), buf.Contents()) && (!progress ==> p == Progress(View(), buf.Contents()))
    {
      ParseStep(View(), buf.Contents());
      ghost var o := Step(View(), buf.Contents());
      progress, failed := TakeStep(buf);
      assert failed ==> o == Halt(View(), o.used);
    }

    /** The branch for the current state. */
    method TakeStep(buf: Buffer) returns (progress: bool, failed: bool)
      requires Valid() && buf.Valid()
      modifies this, buf`readerIndex, buf`writerIndex
      ensures Valid() && buf.Valid()
      ensures progress == Step(old(View()), old(buf.Contents())).Advance?
      ensures failed == Step(old(View()), old(buf.Contents())).Halt?
      ensures Took(Step(old(View()), old(buf.Contents())), old(View()), old(buf.Contents()), View(), buf.Contents())
    {
      hide OnLine, OnBody, OnChunkData, FirstCrlf;
      match state {
        case ExpectBody =>
          progress := TakeBody(buf);
          failed := false;
        case ExpectChunkData =>
          progress, failed := TakeChunkData(buf);
        case ExpectChunkCrlf =>
          progress, failed := buf.ReadableBytes() >= 2, false;
          if progress {
            buf.Retrieve(2);
            state := ExpectChunkSize;
          }
        case GotAll => progress, failed := false, false;
        case Error => progress, failed := false, false;
        case _ =>
          var crlf := buf.FindCrlf();
          if crlf.None? { return false, false; }
          var line := buf.Peek(crlf.value);
          failed := TakeLine(line, buf);
          progress := !failed;
      }
    }

    method TakeBody(buf: Buffer) returns (progress: bool)
      requires Valid() && buf.Valid() && state.ExpectBody?
      modifies this`request, this`bodyReceived, this`state, buf`readerIndex, buf`writerIndex
      ensures Valid() && buf.Valid()
      ensures progress == OnBody(old(View()), old(buf.Contents())).Advance?
      ensures Took(OnBody(old(View()), old(buf.Contents())), old(View()), old(buf.Contents()), View(), buf.Contents())
    {
      var avail := buf.ReadableBytes();
      var need := contentLength - bodyReceived;
      var take := if avail < need then avail else need;
      progress := take > 0;
      if take > 0 {
        var bytes := buf.RetrieveAsString(take);
        request := request.(body := request.body + bytes);
        bodyReceived := bodyReceived + take;
      }
      if bodyReceived == contentLength {
        state := GotAll;
      }
    }

    method TakeChunkData(buf: Buffer) returns (progress: bool, failed: bool)
      requires Valid() && buf.Valid() && state.ExpectChunkData?
      modifies this`request, this`bodyReceived, this`chunkRemaining, this`state, this`error, buf`readerIndex, buf`writerIndex
      ensures Valid() && buf.Valid()
      ensures progress == OnChunkData(old(View()), old(buf.Contents())).Advance?
      ensures failed == OnChunkData(old(View()), old(buf.Contents())).Halt?
      ensures Took(OnChunkData(old(View()), old(buf.Contents())), old(View()), old(buf.Contents()), View(), buf.Contents())
    {
      var avail := buf.ReadableBytes();
      var take := if avail < chunkRemaining then avail else chunkRemaining;
      progress, failed := false, false;
      if take > 0 {
        if maxBodyBytes > 0 && bodyReceived + take > maxBodyBytes {
          error := TooLarge;
          state := Error;
          return false, true;
        }
        var bytes := buf.RetrieveAsString(take);
        request := request.(body := request.body + bytes);
        chunkRemaining := chunkRemaining - take;
        bodyReceived := bodyReceived + take;
        progress := true;
      }
      if chunkRemaining == 0 {
        state := ExpectChunkCrlf;
      }
    }

    /** A complete line at the front of the buffer, in a line-oriented state. */
    method TakeLine(line: string, buf: Buffer) returns (failed: bool)
      requires Valid() && buf.Valid()
      requires state.ExpectRequestLine? || state.ExpectHeaders? || state.ExpectChunkSize?
      requires |line| + 2 <= |buf.Contents()|
      modifies this, buf`readerIndex, buf`writerIndex
      ensures Valid() && buf.Valid()
      ensures failed == OnLine(old(View()), line).Halt?
      ensures Took(OnLine(old(View()), line), old(View()), old(buf.Contents()), View(), buf.Contents())
    {
      hide Strtoul, ParseRequestLine, OnHeaderLine, EndOfHeaders;
      match state {
        case ExpectRequestLine =>
          failed := TakeRequestLine(line, buf);
        case ExpectHeaders =>
          if line == "" {
            buf.Retrieve(2);
            failed := FinishHeaders();
          } else {
            failed := ReadHeaderLine(line);
            if failed { return; }
            buf.Retrieve(|line| + 2);
          }
        case ExpectChunkSize =>
          chunkRemaining := Strtoul(line, 16);
          buf.Retrieve(|line| + 2);
          state := if chunkRemaining == 0 then GotAll else ExpectChunkData;
          failed := false;
      }
    }

    method TakeRequestLine(line: string, buf: Buffer) returns (failed: bool)
      requires Valid() && buf.Valid() && state.ExpectRequestLine?
      requires |line| + 2 <= |buf.Contents()|
      modifies this`request, this`state, this`headerBytes, buf`readerIndex, buf`writerIndex
      ensures Valid() && buf.Valid()
      ensures failed == OnLine(old(View()), line).Halt?
      ensures Took(OnLine(old(View()), line), old(View()), old(buf.Contents()), View(), buf.Contents())
    {
      hide ParseRequestLine;
      var ok := ReadRequestLine(line);
      if !ok {
        state := Error;
        return true;
      }
      headerBytes := headerBytes + |line| + 2;
      buf.Retrieve(|line| + 2);
      state := ExpectHeaders;
      return false;
    }

    method ReadRequestLine(line: string) returns (ok: bool)
      modifies this`request
      ensures (ok, request) == ParseRequestLine(old(request), line)
    {
      var space1 := Find(line, ' ', 0);
      if space1 == |line| { return false; }
      var m := MethodFromString(line[..space1]);
      if m == Invalid { return false; }
      request := request.(verb := m);
      var target := space1 + 1;
      var space2 := Find(line, ' ', target);
      if space2 == |line| { return false; }
      var q := Find(line[..space2], '?', target);
      request := request.(path := line[target..q]);
      if q != space2 {
        request := request.(query := line[q + 1..space2]);
      }
      var version := line[space2 + 1..];
      if version != "HTTP/1.0" && version != "HTTP/1.1" { return false; }
      request := request.(version := version);
      return true;
    }

    method ReadHeaderLine(line: string) returns (failed: bool)
      requires Valid() && state.ExpectHeaders?
      modifies this`request, this`headerBytes, this`state
      ensures Valid() && OnHeaderLine(old(View()), line) ==
              if failed then Halt(View(), 0) else Advance(View(), |line| + 2)
    {
      hide SplitHeader, ToLower;
      var split := SplitHeader(line);
      if split.None? {
        state := Error;
        return true;
      }
      var (key, value) := split.value;
      request := request.AddHeader(key, value);
      headerBytes := headerBytes + |line| + 2;
      if headerBytes > MAX_HEADER_BYTES {
        state := Error;
        return true;
      }
      return false;
    }

    method FinishHeaders() returns (failed: bool)
      requires Valid() && state.ExpectHeaders?
      modifies this`contentLength, this`bodyReceived, this`error, this`state
      ensures Valid() && EndOfHeaders(old(View())) ==
              if failed then Halt(View(), 2) else Advance(View(), 2)
    {
      var te := ToLower(request.Header("transfer-encoding"));
      if Contains(te, "chunked") {
        state := ExpectChunkSize;
        return false;
      }
      var cl := request.Header("content-length");
      contentLength := if cl == "" then 0 else Strtoul(cl, 10);
      bodyReceived := 0;
      if maxBodyBytes > 0 && contentLength > maxBodyBytes {
        error := TooLarge;
        state := Error;
        return true;
      }
      state := if contentLength > 0 then ExpectBody else GotAll;
      return false;
    }
  }
}
