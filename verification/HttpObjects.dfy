/** The printers and the server loop in the form of the source: methods that
    write into a buffer and update the connection's parser. */
module HttpObjects {
  import opened Text
  import opened Incremental
  import opened HttpMessage
  import opened ByteBuffer
  import RequestParser
  import RequestWire
  import ResponseWire
  import opened HttpServer
  import opened HttpContextObject

  /** Walks a header map in some order and prints its lines. */
  method PrintHeaders(headers: HeaderMap, skip: set<string>) returns (block: string, ghost order: seq<string>)
    ensures Listed(order, headers) && Enumerates(order, headers)
    ensures block == HeaderBlock(headers, order, skip)
  {
    hide HeaderLine;
    block, order := "", [];
    var keys := headers.Keys;
    while keys != {}
      invariant keys <= headers.Keys && Listed(order, headers)
      invariant forall k :: k in headers ==> (k in order <==> k !in keys)
      invariant forall i, j :: 0 <= i < j < |order| ==> order[i] != order[j]
      invariant block == HeaderBlock(headers, order, skip)
      decreases keys
    {
      var k :| k in keys;
      HeaderBlockSnoc(headers, order, k, skip);
      if k !in skip {
        block := block + HeaderLine(k, headers[k]);
      }
      order := order + [k];
      keys := keys - {k};
    }
  }

  lemma {:induction false} HeaderBlockSnoc(headers: HeaderMap, order: seq<string>, k: string, skip: set<string>)
    requires Listed(order, headers) && k in headers
    ensures Listed(order + [k], headers)
    ensures HeaderBlock(headers, order + [k], skip) ==
            HeaderBlock(headers, order, skip) + (if k in skip then "" else HeaderLine(k, headers[k]))
    decreases |order|
  {
    hide HeaderLine;
    if order == [] {
      assert [] + [k] == [k] && [k][1..] == [];
    } else {
      HeaderBlockSnoc(headers, order[1..], k, skip);
      var all := order + [k];
      assert all[1..] == order[1..] + [k] && all[0] == order[0];
      var first := if order[0] in skip then "" else HeaderLine(order[0], headers[order[0]]);
      var rest, last := HeaderBlock(headers, order[1..], skip), if k in skip then "" else HeaderLine(k, headers[k]);
      assert HeaderBlock(headers, all, skip) == first + (rest + last);
      assert first + (rest + last) == first + rest + last;
    }
  }

  method PrintRequestLine(r: Request) returns (line: string)
    ensures line == RequestWire.RequestLine(r)
  {
    hide MethodToString;
    line := MethodToString(r.verb) + " ";
    line := line + (if r.path == "" then "/" else r.path);
    if r.query != "" {
      line := line + "?";
      line := line + r.query;
    }
    line := line + " " + "HTTP/1.1";
  }

  method PrintRequestHead(r: Request, host: string) returns (head: string, ghost order: seq<string>)
    ensures Listed(order, r.headers) && Enumerates(order, r.headers)
    ensures head == RequestWire.Head(r, order, host)
  {
    hide RequestWire.RequestLine, HeaderLine, HeaderBlock, Print, Listed, Enumerates;
    head := PrintRequestLine(r);
    head := head + "\r\n";
    if host != "" && "host" !in r.headers {
      head := head + HeaderLine("Host", host);
    }
    var block;
    block, order := PrintHeaders(r.headers, {"content-length"});
    head := head + block;
    head := head + HeaderLine("Content-Length", Print(|r.body|, 10));
  }

  /** `HttpRequest::appendTo`. */
  method AppendRequest(r: Request, buf: Buffer, host: string) returns (ghost order: seq<string>)
    requires buf.Valid()
    modifies buf, buf.data
    ensures buf.Valid() && Listed(order, r.headers) && Enumerates(order, r.headers)
    ensures buf.Contents() == old(buf.Contents()) + RequestWire.Serialize(r, order, host)
  {
    hide RequestWire.Head, Listed, Enumerates;
    var head;
    head, order := PrintRequestHead(r, host);
    head := head + "\r\n";
    AppendBoth(buf, head, r.body);
  }

  /** The head, and the body unless it is empty. */
  method AppendBoth(buf: Buffer, head: string, body: string)
    requires buf.Valid()
    modifies buf, buf.data
    ensures buf.Valid() && buf.Contents() == old(buf.Contents()) + (head + body)
    ensures buf.data == old(buf.data) || fresh(buf.data)
  {
    buf.Append(head);
    if body != "" {
      buf.Append(body);
    }
    assert old(buf.Contents()) + head + body == old(buf.Contents()) + (head + body);
    assert body == "" ==> head + body == head;
  }

  /** Prints the lines of a header map walked in a given order. */
  method PrintWalk(headers: HeaderMap, order: seq<string>, skip: set<string>) returns (block: string)
    requires Listed(order, headers)
    ensures block == HeaderBlock(headers, order, skip)
  {
    hide HeaderLine;
    block := "";
    assert order[..0] == [];
    for i := 0 to |order|
      invariant Listed(order[..i], headers) && block == HeaderBlock(headers, order[..i], skip)
    {
      var k := order[i];
      HeaderBlockSnoc(headers, order[..i], k, skip);
      assert order[..i + 1] == order[..i] + [k];
      if k !in skip {
        block := block + HeaderLine(k, headers[k]);
      }
    }
    assert order[..|order|] == order;
  }

  method PrintResponseHead(r: Response, order: seq<string>) returns (head: string)
    requires Listed(order, r.headers)
    ensures head == ResponseWire.StatusLine(r.code, r.reason) + "\r\n" + ResponseWire.HeaderLines(r, order) + "\r\n"
  {
    hide HeaderLine, HeaderBlock, Print, ResponseWire.StatusLine, Listed;
    head := ResponseWire.StatusLine(r.code, r.reason) + "\r\n";
    var lines := HeaderLine("Content-Length", Print(|r.body|, 10));
    lines := lines + HeaderLine("Connection", if r.keepAlive then "keep-alive" else "close");
    var block := PrintWalk(r.headers, order, ResponseWire.Managed);
    lines := lines + block;
    head := head + lines + "\r\n";
  }

  /** `HttpResponse::appendTo`, for any walk of the header map. */
  method AppendResponse(r: Response, order: seq<string>, buf: Buffer)
    requires buf.Valid() && Listed(order, r.headers)
    modifies buf, buf.data
    ensures buf.Valid() && (buf.data == old(buf.data) || fresh(buf.data))
    ensures buf.Contents() == old(buf.Contents()) + ResponseWire.Serialize(r, order)
  {
    hide ResponseWire.StatusLine, ResponseWire.HeaderLines, Listed;
    var head := PrintResponseHead(r, order);
    AppendBoth(buf, head, r.body);
  }

  /** Calls the handler and prints its response into a buffer of its own. */
  method Answer(h: Handler, past: seq<Request>, req: Request) returns (answer: string)
    ensures answer == Respond(h, past, req)
    ensures WellFormedReply(h(past, req), req.KeepAlive()) ==> Conveys(answer, h(past, req).response, req.KeepAlive())
  {
    hide ResponseWire.Serialize, Request.KeepAlive, WellFormedReply, Conveys;
    var reply := h(past, req);
    var out := new Buffer(1024);
    AppendResponse(reply.response.(keepAlive := req.KeepAlive()), reply.order, out);
    answer := out.RetrieveAsString(out.ReadableBytes());
    if WellFormedReply(h(past, req), req.KeepAlive()) {
      AnswerConveys(h, past, req);
    }
  }

  lemma MergeMore(c: RequestParser.Context, rest: string, seen: seq<Request>, sent: seq<string>, r: Result, q: Result)
    ensures Merge(Result(c, rest, seen, sent, false), Merge(r, q)) ==
            Merge(Result(c, rest, seen + r.seen, sent + r.sent, false), q.(closed := r.closed || q.closed))
  {
    assert seen + (r.seen + q.seen) == seen + r.seen + q.seen;
    assert sent + (r.sent + q.sent) == sent + r.sent + q.sent;
  }

  /** One turn of the loop: answer the request that is complete, then close or parse on. */
  method ServeNext(h: Handler, past: seq<Request>, conn: HttpContext, input: Buffer)
    returns (req: Request, sent: seq<string>, closed: bool)
    requires input.Valid() && conn.Valid() && conn.state.GotAll?
    requires RequestParser.Parse(conn.View(), input.Contents()) == Progress(conn.View(), input.Contents())
    modifies conn, input`readerIndex, input`writerIndex
    ensures input.Valid() && conn.Valid()
    ensures closed ==>
              Process(h, past, old(conn.View()), old(input.Contents())) == Result(conn.View(), input.Contents(), [req], sent, true)
    ensures sent != [] && req == old(conn.request)
    ensures WellFormedReply(h(past, req), req.KeepAlive()) ==> Conveys(sent[0], h(past, req).response, req.KeepAlive())
    ensures !closed ==>
              && Process(h, past, old(conn.View()), old(input.Contents())) ==
                 Merge(Result(conn.View(), input.Contents(), [req], sent, false),
                       Process(h, past + [req], conn.View(), input.Contents()))
              && RequestParser.Parse(conn.View(), input.Contents()) == Progress(conn.View(), input.Contents())
              && !conn.state.Error?
    ensures |input.Contents()| < |old(input.Contents())| || !conn.state.GotAll?
    ensures |input.Contents()| <= |old(input.Contents())|
  {
    hide RequestParser.Parse, Process, Respond, ErrorResponse, Request.KeepAlive, WellFormedReply, Conveys;
    req := conn.request;
    var keepAlive := req.KeepAlive();
    ghost var bytes, next := input.Contents(), RequestParser.Fresh(conn.maxBodyBytes);
    ProcessParsed(h, past, conn.View(), bytes);
    var answer := Answer(h, past, req);
    sent, closed := [answer], !keepAlive;
    conn.Reset();
    if !keepAlive {
      return;
    }
    ProcessParsed(h, past + [req], next, bytes);
    ParseConsumes(next, bytes);
    var ok := conn.ParseRequest(input);
    if !ok {
      sent, closed := sent + [ErrorResponse(conn.error)], true;
      return;
    }
    ProcessResumes(h, past + [req], next, bytes);
    ParseIsDone(next, bytes);
  }

  /** The loop for a known connection. */
  method ServeAll(h: Handler, past: seq<Request>, conn: HttpContext, input: Buffer)
    returns (seen: seq<Request>, sent: seq<string>, closed: bool)
    requires input.Valid() && conn.Valid() && !conn.state.Error?
    requires RequestParser.Parse(conn.View(), input.Contents()) == Progress(conn.View(), input.Contents())
    modifies conn, input`readerIndex, input`writerIndex
    ensures input.Valid() && conn.Valid()
    ensures Result(conn.View(), input.Contents(), seen, sent, closed) == Process(h, past, old(conn.View()), old(input.Contents()))
  {
    hide RequestParser.Parse, Process, Respond, ErrorResponse, Request.KeepAlive, WellFormedReply, Conveys;
    seen, sent, closed := [], [], false;
    ghost var c0, bytes0 := conn.View(), input.Contents();
    assert past + [] == past;
    MergeNothing(Result(c0, bytes0, [], [], false), Process(h, past, c0, bytes0));
    while conn.state.GotAll?
      invariant conn.Valid() && input.Valid() && !conn.state.Error? && !closed
      invariant RequestParser.Parse(conn.View(), input.Contents()) == Progress(conn.View(), input.Contents())
      invariant Process(h, past, c0, bytes0) ==
                Merge(Result(c0, bytes0, seen, sent, false), Process(h, past + seen, conn.View(), input.Contents()))
      decreases |input.Contents()|, if conn.state.GotAll? then 1 else 0
    {
      var req, more;
      req, more, closed := ServeNext(h, past + seen, conn, input);
      ghost var r := Result(conn.View(), input.Contents(), [req], more, closed);
      if closed {
        seen, sent := seen + [req], sent + more;
        return;
      }
      assert past + seen + [req] == past + (seen + [req]);
      MergeMore(c0, bytes0, seen, sent, r, Process(h, past + seen + [req], conn.View(), input.Contents()));
      seen, sent := seen + [req], sent + more;
    }
    ProcessParsed(h, past + seen, conn.View(), input.Contents());
    assert seen + [] == seen && sent + [] == sent;
  }

  /** `processInput`: `conn` is the parser of the connection, or null when the
      connection is no longer known; the handler has seen `past`. */
  method ProcessInput(h: Handler, past: seq<Request>, conn: HttpContext?, input: Buffer)
    returns (seen: seq<Request>, sent: seq<string>, closed: bool)
    requires input.Valid() && (conn != null ==> conn.Valid())
    modifies conn, input`readerIndex, input`writerIndex
    ensures input.Valid() && (conn != null ==> conn.Valid())
    ensures conn == null ==> seen == [] && sent == [] && !closed && input.Contents() == old(input.Contents())
    ensures conn != null ==>
              Result(conn.View(), input.Contents(), seen, sent, closed) == Process(h, past, old(conn.View()), old(input.Contents()))
    ensures conn != null ==> AllAnswered(h, past, Result(conn.View(), input.Contents(), seen, sent, closed))
  {
    hide RequestParser.Parse, Process, Respond, ErrorResponse, Request.KeepAlive, AllAnswered;
    seen, sent, closed := [], [], false;
    if conn == null { return; }
    ghost var c0, bytes0 := conn.View(), input.Contents();
    ProcessAnswers(h, past, c0, bytes0);
    ProcessParsed(h, past, c0, bytes0);
    var ok := conn.ParseRequest(input);
    if !ok {
      sent, closed := [ErrorResponse(conn.error)], true;
      return;
    }
    ProcessResumes(h, past, c0, bytes0);
    ParseIsDone(c0, bytes0);
    seen, sent, closed := ServeAll(h, past, conn, input);
  }
}
