/** The server's parse, dispatch, respond loop (http/http_server.cc, processInput). */
module HttpServer {
  import opened Text
  import opened Incremental
  import opened HttpMessage
  import opened RequestParser
  import RequestWire
  import ResponseWire
  import Client = ResponseParser

  /** What a handler produces, with the order in which the header map is walked. */
  datatype RawReply = Reply(response: Response, order: seq<string>)

  type Reply = r: RawReply | Listed(r.order, r.response.headers) witness Reply(EmptyResponse, [])

  /** A handler may keep state: its answer depends on the requests it has seen before. */
  type Handler = (seq<Request>, Request) -> Reply

  /** The bytes sent for a request: the handler's response, with the keep-alive
      flag of the request. */
  function Respond(h: Handler, past: seq<Request>, req: Request): string {
    ResponseWire.Serialize(h(past, req).response.(keepAlive := req.KeepAlive()), h(past, req).order)
  }

  function ErrorResponse(e: ErrorKind): string {
    (if e.TooLarge? then "HTTP/1.1 413 Payload Too Large" else "HTTP/1.1 400 Bad Request")
    + "\r\n" + "Content-Length: 0\r\nConnection: close\r\n" + "\r\n"
  }

  /** The connection after a call, the requests handed to the handler, the strings
      sent, and whether the connection was shut down. */
  datatype Result = Result(ctx: Context, rest: string, seen: seq<Request>, sent: seq<string>, closed: bool)

  function Then(req: Request, answer: string, r: Result): Result {
    r.(seen := [req] + r.seen, sent := [answer] + r.sent)
  }

  lemma {:induction false} ParseConsumes(c: Context, buf: string)
    ensures |Parse(c, buf).rest| <= |buf|
    ensures Parse(c, buf).state.state.GotAll? && !c.state.GotAll? ==> |Parse(c, buf).rest| < |buf|
    ensures c.state.GotAll? || c.state.Error? ==> Parse(c, buf) == Progress(c, buf)
    ensures Parse(c, buf).state.maxBody == c.maxBody
    decreases |buf|
  {
    hide Parse, Strtoul, ParseRequestLine, SplitHeader, Contains, ToLower;
    ParseStep(c, buf);
    match Step(c, buf)
    case Idle =>
    case Halt(e, n) =>
    case Advance(d, n) => ParseConsumes(d, buf[n..]);
  }

  /** Parsing again without new bytes does nothing. */
  lemma {:induction false} ParseIsDone(c: Context, buf: string)
    ensures var p := Parse(c, buf); Parse(p.state, p.rest) == p
    decreases |buf|
  {
    hide Parse, Step;
    ParseStep(c, buf);
    match Step(c, buf)
    case Idle =>
    case Halt(e, n) =>
      assert e.state.Error? by { HaltIsError(c, buf); }
      ParseConsumes(e, buf[n..]);
    case Advance(d, n) => ParseIsDone(d, buf[n..]);
  }

  lemma HaltIsError(c: Context, buf: string)
    ensures Step(c, buf).Halt? ==> Step(c, buf).state.state.Error?
  {
  }

  /** One call of `processInput` on the unread bytes of a connection, whose handler has
      seen `past`. */
  function Process(h: Handler, past: seq<Request>, c: Context, buf: string): (r: Result)
    decreases |buf|, if c.state.GotAll? then 1 else 0
  {
    ParseConsumes(c, buf);
    var p := Parse(c, buf);
    if p.state.state.Error? then Result(p.state, p.rest, [], [ErrorResponse(p.state.error)], true)
    else if !p.state.state.GotAll? then Result(p.state, p.rest, [], [], false)
    else
      var req, next := p.state.request, Fresh(p.state.maxBody);
      if !req.KeepAlive() then Result(next, p.rest, [req], [Respond(h, past, req)], true)
      else Then(req, Respond(h, past, req), Process(h, past + [req], next, p.rest))
  }

  // ---- What the client gets ---------------------------------------------------------------

  /** A client that parses `answer` gets this response and nothing is left: code, reason,
      body and headers, and a Connection header that says whether the server closes. */
  ghost predicate Conveys(answer: string, r: Response, keepAlive: bool) {
    var p := Client.Parse(Client.Initial, answer);
    var got := p.state.response;
    && p.rest == "" && p.state.state.GotAll?
    && got.code == r.code && got.body == r.body
    && got.reason == (if r.reason == "" then DefaultReason(r.code) else r.reason)
    && got.headers.Keys == r.headers.Keys + {"Content-Length", "Connection"}
    && got.headers["Connection"] == (if keepAlive then "keep-alive" else "close")
    && (forall k :: k in r.headers && k != "Content-Length" && k != "Connection" ==> got.headers[k] == r.headers[k])
  }

  ghost predicate WellFormedReply(reply: Reply, keepAlive: bool) {
    ResponseWire.WellFormed(reply.response.(keepAlive := keepAlive), reply.order)
  }

  lemma PrintedConveys(r: Response, order: seq<string>)
    requires ResponseWire.WellFormed(r, order)
    ensures Conveys(ResponseWire.Serialize(r, order), r, r.keepAlive)
  {
    hide Client.Parse, ResponseWire.Serialize, ResponseWire.HeaderLines, ResponseWire.Plain, NoCrlf, Print, DefaultReason;
    ResponseWire.ResponseRoundTrip(r, order, "");
    assert ResponseWire.Serialize(r, order) + "" == ResponseWire.Serialize(r, order);
  }

  lemma ConveysSame(answer: string, r: Response, keepAlive: bool)
    requires Conveys(answer, r.(keepAlive := keepAlive), keepAlive)
    ensures Conveys(answer, r, keepAlive)
  {
    hide Client.Parse, DefaultReason;
  }

  /** The answer is the handler's response, with the framing the server adds. */
  lemma AnswerConveys(h: Handler, past: seq<Request>, req: Request)
    requires WellFormedReply(h(past, req), req.KeepAlive())
    ensures Conveys(Respond(h, past, req), h(past, req).response, req.KeepAlive())
  {
    hide Conveys, ResponseWire.WellFormed, ResponseWire.Serialize, Request.KeepAlive;
    PrintedConveys(h(past, req).response.(keepAlive := req.KeepAlive()), h(past, req).order);
    ConveysSame(Respond(h, past, req), h(past, req).response, req.KeepAlive());
  }

  /** What a refused client is meant to get. */
  function Refusal(e: ErrorKind): Response {
    if e.TooLarge? then Response(413, "Payload Too Large", map[], "", false)
    else Response(400, "Bad Request", map[], "", false)
  }

  lemma CodesPrinted()
    ensures Print(413, 10) == "413" && Print(400, 10) == "400" && Print(0, 10) == "0"
  {
    assert Print(4, 10) == "4" && Print(41, 10) == "41" && Print(40, 10) == "40";
  }

  lemma RefusalStatusLine(e: ErrorKind)
    ensures ResponseWire.StatusLine(Refusal(e).code, Refusal(e).reason) ==
            if e.TooLarge? then "HTTP/1.1 413 Payload Too Large" else "HTTP/1.1 400 Bad Request"
  {
    hide Print;
    CodesPrinted();
  }

  lemma RefusalHeaderLines(r: Response)
    requires r.headers == map[] && r.body == "" && !r.keepAlive
    ensures ResponseWire.HeaderLines(r, []) == "Content-Length: 0\r\nConnection: close\r\n"
  {
    hide Print;
    CodesPrinted();
    assert HeaderLine("Content-Length", "0") == "Content-Length: 0\r\n";
    assert HeaderLine("Connection", "close") == "Connection: close\r\n";
    assert HeaderBlock(r.headers, [], ResponseWire.Managed) == "";
  }

  lemma RefusalPrinted(e: ErrorKind)
    ensures ResponseWire.Serialize(Refusal(e), []) == ErrorResponse(e)
  {
    hide ResponseWire.StatusLine, ResponseWire.HeaderLines;
    RefusalStatusLine(e);
    RefusalHeaderLines(Refusal(e));
  }

  /** A refusal is 413 for a body over the cap and 400 otherwise; it has no body and
      says that the connection closes. */
  lemma RefusalConveys(e: ErrorKind)
    ensures Conveys(ErrorResponse(e), Refusal(e), false)
  {
    hide Conveys, ErrorResponse, Print, ResponseWire.Serialize;
    RefusalPrinted(e);
    CodesPrinted();
    PrintedConveys(Refusal(e), []);
  }

  /** The client can read every answer of a call: the i-th is the handler's response to
      the i-th request, given the requests before it. */
  ghost predicate AnswersConvey(h: Handler, past: seq<Request>, seen: seq<Request>, sent: seq<string>)
    requires |seen| <= |sent|
  {
    forall i :: 0 <= i < |seen| && WellFormedReply(h(past + seen[..i], seen[i]), seen[i].KeepAlive()) ==>
      Conveys(sent[i], h(past + seen[..i], seen[i]).response, seen[i].KeepAlive())
  }

  lemma AnswersCons(h: Handler, past: seq<Request>, req: Request, answer: string, seen: seq<Request>, sent: seq<string>)
    requires |seen| <= |sent|
    requires WellFormedReply(h(past, req), req.KeepAlive()) ==> Conveys(answer, h(past, req).response, req.KeepAlive())
    requires AnswersConvey(h, past + [req], seen, sent)
    ensures AnswersConvey(h, past, [req] + seen, [answer] + sent)
  {
    hide Conveys, WellFormedReply, Request.KeepAlive;
    var seen', sent' := [req] + seen, [answer] + sent;
    forall i | 0 <= i < |seen'| && WellFormedReply(h(past + seen'[..i], seen'[i]), seen'[i].KeepAlive())
      ensures Conveys(sent'[i], h(past + seen'[..i], seen'[i]).response, seen'[i].KeepAlive())
    {
      if i == 0 {
        assert past + seen'[..0] == past;
      } else {
        assert seen'[i] == seen[i - 1] && sent'[i] == sent[i - 1];
        assert past + [req] + seen[..i - 1] == past + seen'[..i];
      }
    }
  }

  /** Every request seen is answered once, in order, by the handler's response to it; a
      request that was refused is answered 400 or 413; and the connection is closed
      exactly when the last answer says so. */
  ghost predicate AllAnswered(h: Handler, past: seq<Request>, r: Result) {
    && |r.sent| == |r.seen| + (if r.ctx.state.Error? then 1 else 0)
    && AnswersConvey(h, past, r.seen, r.sent)
    && (r.ctx.state.Error? ==> Conveys(r.sent[|r.seen|], Refusal(r.ctx.error), false))
    && (forall i :: 0 <= i < |r.seen| - 1 ==> r.seen[i].KeepAlive())
    && (r.closed <==> r.ctx.state.Error? || (r.seen != [] && !r.seen[|r.seen| - 1].KeepAlive()))
    && (r.ctx.state.Error? && r.seen != [] ==> r.seen[|r.seen| - 1].KeepAlive())
  }

  /** Whatever arrives, the client gets the handler's responses. */
  lemma {:induction false} ProcessAnswers(h: Handler, past: seq<Request>, c: Context, buf: string)
    ensures AllAnswered(h, past, Process(h, past, c, buf))
    decreases |buf|, if c.state.GotAll? then 1 else 0
  {
    hide Parse, Process, Respond, ErrorResponse, Request.KeepAlive, Conveys, WellFormedReply;
    ProcessParsed(h, past, c, buf);
    ParseConsumes(c, buf);
    var p := Parse(c, buf);
    if p.state.state.Error? {
      RefusalConveys(p.state.error);
    } else if p.state.state.GotAll? {
      var req, next := p.state.request, Fresh(p.state.maxBody);
      var answer := Respond(h, past, req);
      if WellFormedReply(h(past, req), req.KeepAlive()) {
        AnswerConveys(h, past, req);
      }
      if req.KeepAlive() {
        ProcessAnswers(h, past + [req], next, p.rest);
        var q := Process(h, past + [req], next, p.rest);
        AnswersCons(h, past, req, answer, q.seen, q.sent);
      } else {
        AnswersCons(h, past, req, answer, [], []);
        assert [req] + [] == [req] && [answer] + [] == [answer];
      }
    }
  }

  // ---- Segmentation ----------------------------------------------------------------

  /** Same requests, same bytes sent; a connection left open is in the same state. */
  ghost predicate SameEffects(r: Result, q: Result) {
    r.seen == q.seen && r.sent == q.sent && r.closed == q.closed && (!r.closed ==> r == q)
  }

  function Merge(r: Result, q: Result): Result {
    q.(seen := r.seen + q.seen, sent := r.sent + q.sent, closed := r.closed || q.closed)
  }

  /** A call with `a`, then one with `b` arriving, does what one call with both
      does; a call that closes has already done all of it. */
  lemma {:induction false} ProcessSplit(h: Handler, past: seq<Request>, c: Context, a: string, b: string)
    ensures var r := Process(h, past, c, a);
            SameEffects(Process(h, past, c, a + b),
                        if r.closed then r else Merge(r, Process(h, past + r.seen, r.ctx, r.rest + b)))
    decreases |a|, if c.state.GotAll? then 1 else 0
  {
    hide Parse, Process, Respond, ErrorResponse, Request.KeepAlive;
    var p := Parse(c, a);
    ParseSplit(c, a, b);
    ParseConsumes(c, a);
    ParseConsumes(p.state, p.rest + b);
    ProcessParsed(h, past, c, a);
    ProcessParsed(h, past, c, a + b);
    ProcessParsed(h, past, p.state, p.rest + b);
    if p.state.state.GotAll? && p.state.request.KeepAlive() {
      var req, next := p.state.request, Fresh(p.state.maxBody);
      ProcessSplit(h, past + [req], next, p.rest, b);
      var r := Process(h, past + [req], next, p.rest);
      assert past + [req] + r.seen == past + ([req] + r.seen);
      ThenMerge(req, Respond(h, past, req), r, Process(h, past + [req] + r.seen, r.ctx, r.rest + b));
    } else if !p.state.state.GotAll? && !p.state.state.Error? {
      assert past + [] == past;
      MergeNothing(Process(h, past, c, a), Process(h, past, p.state, p.rest + b));
    }
  }

  /** `Process` by the outcome of its first parse. */
  lemma ProcessParsed(h: Handler, past: seq<Request>, c: Context, buf: string)
    ensures var p := Parse(c, buf);
            Process(h, past, c, buf) ==
            if p.state.state.Error? then Result(p.state, p.rest, [], [ErrorResponse(p.state.error)], true)
            else if !p.state.state.GotAll? then Result(p.state, p.rest, [], [], false)
            else if !p.state.request.KeepAlive() then
              Result(Fresh(p.state.maxBody), p.rest, [p.state.request], [Respond(h, past, p.state.request)], true)
            else Then(p.state.request, Respond(h, past, p.state.request),
                      Process(h, past + [p.state.request], Fresh(p.state.maxBody), p.rest))
  {
    hide Parse, Respond, ErrorResponse, Request.KeepAlive;
  }

  /** The call goes on from where its first parse stopped. */
  lemma ProcessResumes(h: Handler, past: seq<Request>, c: Context, buf: string)
    requires !Parse(c, buf).state.state.Error?
    ensures var p := Parse(c, buf); Process(h, past, c, buf) == Process(h, past, p.state, p.rest)
  {
    hide Parse, Process, Respond, ErrorResponse, Request.KeepAlive;
    ParseIsDone(c, buf);
    ProcessParsed(h, past, c, buf);
    ProcessParsed(h, past, Parse(c, buf).state, Parse(c, buf).rest);
  }

  lemma ThenMerge(req: Request, answer: string, r: Result, q: Result)
    ensures Then(req, answer, Merge(r, q)) == Merge(Then(req, answer, r), q)
  {
    assert [req] + (r.seen + q.seen) == [req] + r.seen + q.seen;
    assert [answer] + (r.sent + q.sent) == [answer] + r.sent + q.sent;
  }

  lemma MergeNothing(r: Result, q: Result)
    requires r.seen == [] && r.sent == [] && !r.closed
    ensures Merge(r, q) == q
  {
  }

  /** The calls as the reads arrive, each on what earlier ones left unread. */
  function Serve(h: Handler, past: seq<Request>, c: Context, rest: string, pieces: seq<string>): (r: Result)
    decreases |pieces|
  {
    if pieces == [] then Result(c, rest, [], [], false)
    else
      var r := Process(h, past, c, rest + pieces[0]);
      Merge(r, Serve(h, past + r.seen, r.ctx, r.rest, pieces[1..]))
  }

  /** A stream that does not close the connection is served the same way however
      it is cut into reads. */
  lemma {:induction false} ServeIsProcess(h: Handler, past: seq<Request>, c: Context, rest: string, pieces: seq<string>)
    requires pieces != []
    ensures var whole := Process(h, past, c, rest + Concat(pieces)); !whole.closed ==> Serve(h, past, c, rest, pieces) == whole
    decreases |pieces|
  {
    hide Process;
    var a, b := rest + pieces[0], Concat(pieces[1..]);
    assert rest + Concat(pieces) == a + b;
    ProcessSplit(h, past, c, a, b);
    var r := Process(h, past, c, a);
    if |pieces| == 1 {
      assert a + b == a;
      assert r.seen + [] == r.seen && r.sent + [] == r.sent;
    } else {
      ServeIsProcess(h, past + r.seen, r.ctx, r.rest, pieces[1..]);
    }
  }

  // ---- Pipelines ---------------------------------------------------------------------

  /** A message on the wire: framed by its length, or chunked. */
  datatype Message = Sized(req: Request, order: seq<string>)
                   | Chunked(req: Request, order: seq<string>, chunks: seq<Chunk>)

  ghost predicate Printable(m: Message, host: string, maxBody: nat) {
    && Listed(m.order, m.req.headers)
    && (match m
        case Sized(r, order) => RequestWire.WellFormed(r, order, host, maxBody)
        case Chunked(r, order, chunks) => RequestWire.WellFormedChunked(r, order, host, maxBody, chunks))
  }

  ghost predicate WellFormed(m: Message, host: string, maxBody: nat) {
    Printable(m, host, maxBody) && Arrives(m, host).KeepAlive()
  }

  /** The request as the handler is meant to see it. */
  function Arrives(m: Message, host: string): Request {
    var r := RequestWire.Received(m.req, host);
    if m.Sized? then r else r.(body := Payload(m.chunks))
  }

  function Wire(m: Message, host: string): string
    requires Listed(m.order, m.req.headers)
  {
    match m
    case Sized(r, order) => RequestWire.Serialize(r, order, host)
    case Chunked(r, order, chunks) => RequestWire.SerializeChunked(r, order, host, chunks)
  }

  ghost predicate AllWellFormed(ms: seq<Message>, host: string, maxBody: nat) {
    forall i :: 0 <= i < |ms| ==> WellFormed(ms[i], host, maxBody)
  }

  ghost function Stream(ms: seq<Message>, host: string, maxBody: nat): string
    requires AllWellFormed(ms, host, maxBody)
  {
    if ms == [] then "" else Wire(ms[0], host) + Stream(ms[1..], host, maxBody)
  }

  function Arrivals(ms: seq<Message>, host: string): seq<Request> {
    seq(|ms|, i requires 0 <= i < |ms| => Arrives(ms[i], host))
  }

  /** The answers to the messages, each given what the handler has seen by then. */
  function Answers(h: Handler, past: seq<Request>, ms: seq<Message>, host: string): seq<string>
    decreases |ms|
  {
    if ms == [] then []
    else [Respond(h, past, Arrives(ms[0], host))] + Answers(h, past + [Arrives(ms[0], host)], ms[1..], host)
  }

  /** A message that asks to close is seen and answered, and nothing after it is read. */
  lemma ServeLast(h: Handler, past: seq<Request>, m: Message, host: string, maxBody: nat, t: string)
    requires Printable(m, host, maxBody) && !Arrives(m, host).KeepAlive()
    ensures var r, req := Process(h, past, Fresh(maxBody), Wire(m, host) + t), Arrives(m, host);
            && r.closed && r.seen == [req] && |r.sent| == 1
            && (WellFormedReply(h(past, req), false) ==> Conveys(r.sent[0], h(past, req).response, false))
  {
    hide Parse;
    hide Process;
    hide Respond;
    hide Conveys;
    hide WellFormedReply;
    hide RequestWire.Serialize;
    hide RequestWire.SerializeChunked;
    hide RequestWire.Received;
    hide RequestWire.WellFormed;
    hide RequestWire.WellFormedChunked;
    hide Request.KeepAlive;
    hide Listed;
    ProcessParsed(h, past, Fresh(maxBody), Wire(m, host) + t);
    match m {
      case Sized(r, order) => RequestWire.RequestRoundTrip(r, order, host, maxBody, t);
      case Chunked(r, order, chunks) => RequestWire.ChunkedRequestLeavesCrlf(r, order, host, maxBody, chunks, t);
    }
    if WellFormedReply(h(past, Arrives(m, host)), false) {
      AnswerConveys(h, past, Arrives(m, host));
    }
  }

  /** A message at the front of the stream is served, and what it leaves unread
      is processed next: nothing of a sized message, the last CR LF of a chunked one. */
  lemma ServeOne(h: Handler, past: seq<Request>, m: Message, host: string, maxBody: nat, t: string)
    requires WellFormed(m, host, maxBody)
    ensures Process(h, past, Fresh(maxBody), Wire(m, host) + t) ==
            Then(Arrives(m, host), Respond(h, past, Arrives(m, host)),
                 Process(h, past + [Arrives(m, host)], Fresh(maxBody), if m.Sized? then t else "\r\n" + t))
  {
    hide Parse;
    hide Respond;
    hide RequestWire.Serialize;
    hide RequestWire.SerializeChunked;
    hide RequestWire.Received;
    hide RequestWire.WellFormed;
    hide RequestWire.WellFormedChunked;
    hide Listed;
    match m
    case Sized(r, order) => RequestWire.RequestRoundTrip(r, order, host, maxBody, t);
    case Chunked(r, order, chunks) => RequestWire.ChunkedRequestLeavesCrlf(r, order, host, maxBody, chunks, t);
  }

  /** A request may not start with an empty line: 400, and the connection closes. */
  lemma LeadingCrlfRefused(h: Handler, past: seq<Request>, maxBody: nat, t: string)
    ensures var r := Process(h, past, Fresh(maxBody), "\r\n" + t);
            r.closed && r.seen == [] && r.sent == [ErrorResponse(NoError)] && Conveys(r.sent[0], Refusal(NoError), false)
  {
    hide Parse, ErrorResponse, Conveys;
    RefusalConveys(NoError);
    var buf := "\r\n" + t;
    CrlfEndsLine("", t);
    assert "" + "\r\n" + t == buf && buf[..0] == "";
    ParseStep(Fresh(maxBody), buf);
  }

  predicate HasChunked(ms: seq<Message>) {
    exists i :: 0 <= i < |ms| && ms[i].Chunked?
  }

  /** The messages up to and including the first chunked one. */
  function Served(ms: seq<Message>): (r: seq<Message>)
    ensures !HasChunked(ms) ==> r == ms
  {
    if ms == [] then []
    else
      assert forall i :: 0 <= i < |ms| - 1 ==> ms[1..][i] == ms[i + 1];
      [ms[0]] + (if ms[0].Chunked? then [] else Served(ms[1..]))
  }

  lemma NothingToDo(h: Handler, past: seq<Request>, maxBody: nat)
    ensures Process(h, past, Fresh(maxBody), "") == Result(Fresh(maxBody), "", [], [], false)
  {
    hide Parse;
    ParseStep(Fresh(maxBody), "");
  }

  lemma ArrivalsCons(h: Handler, past: seq<Request>, m: Message, ms: seq<Message>, host: string)
    ensures Arrivals([m] + ms, host) == [Arrives(m, host)] + Arrivals(ms, host)
    ensures Answers(h, past, [m] + ms, host) == [Respond(h, past, Arrives(m, host))] + Answers(h, past + [Arrives(m, host)], ms, host)
  {
    hide Arrives, Respond;
    assert ([m] + ms)[1..] == ms;
  }

  lemma ChunkedTail(ms: seq<Message>)
    requires ms != []
    ensures HasChunked(ms) <==> ms[0].Chunked? || HasChunked(ms[1..])
  {
    if HasChunked(ms) && !ms[0].Chunked? {
      var i :| 0 <= i < |ms| && ms[i].Chunked?;
      assert ms[1..][i - 1].Chunked?;
    }
    if HasChunked(ms[1..]) {
      var i :| 0 <= i < |ms[1..]| && ms[1..][i].Chunked?;
      assert ms[i + 1].Chunked?;
    }
  }

  /** Keep-alive survives exactly when no message is chunked.  Up to a chunked
      message every message is served, in order.  A chunked one is served too, but
      its last CR LF is then taken for a request line: the client gets a second
      response, 400, and the connection closes. */
  lemma {:induction false} KeepAliveIffNoChunked(h: Handler, past: seq<Request>, ms: seq<Message>, host: string, maxBody: nat)
    requires AllWellFormed(ms, host, maxBody)
    ensures var r := Process(h, past, Fresh(maxBody), Stream(ms, host, maxBody));
            && r.closed == HasChunked(ms)
            && r.seen == Arrivals(Served(ms), host)
            && r.sent == Answers(h, past, Served(ms), host) + (if HasChunked(ms) then [ErrorResponse(NoError)] else [])
            && (!HasChunked(ms) ==> r.ctx == Fresh(maxBody) && r.rest == "")
    decreases |ms|
  {
    hide Process, Wire, Arrives, Respond, WellFormed, ErrorResponse, HasChunked;
    if ms == [] {
      NothingToDo(h, past, maxBody);
      assert !HasChunked(ms) by { NoneIsChunked(); }
    } else {
      var m, rest := ms[0], Stream(ms[1..], host, maxBody);
      ServeOne(h, past, m, host, maxBody, rest);
      ChunkedTail(ms);
      ArrivalsCons(h, past, m, if m.Chunked? then [] else Served(ms[1..]), host);
      if m.Chunked? {
        LeadingCrlfRefused(h, past + [Arrives(m, host)], maxBody, rest);
      } else {
        KeepAliveIffNoChunked(h, past + [Arrives(m, host)], ms[1..], host, maxBody);
      }
    }
  }

  lemma NoneIsChunked()
    ensures !HasChunked([])
  {
  }

  /** Pipelining of requests framed by their length, the bytes cut into reads in
      any way: the handler sees exactly the requests sent, in order, each is
      answered once, in order, by what the handler replied to it, and no byte is left or
      missing. */
  lemma PipelineInPieces(h: Handler, past: seq<Request>, ms: seq<Message>, host: string, maxBody: nat, pieces: seq<string>)
    requires AllWellFormed(ms, host, maxBody) && !HasChunked(ms) && pieces != []
    ensures Concat(pieces) == Stream(ms, host, maxBody) ==>
            Serve(h, past, Fresh(maxBody), "", pieces) ==
            Result(Fresh(maxBody), "", Arrivals(ms, host), Answers(h, past, ms, host), false)
    ensures |Answers(h, past, ms, host)| == |ms| && AnswersConvey(h, past, Arrivals(ms, host), Answers(h, past, ms, host))
  {
    hide Process, Serve, Stream, AllWellFormed, Arrives, Answers, HasChunked, AnswersConvey;
    ProcessAnswers(h, past, Fresh(maxBody), Stream(ms, host, maxBody));
    KeepAliveIffNoChunked(h, past, ms, host, maxBody);
    assert Answers(h, past, ms, host) + [] == Answers(h, past, ms, host);
    assert "" + Concat(pieces) == Concat(pieces);
    ServeIsProcess(h, past, Fresh(maxBody), "", pieces);
  }
}
