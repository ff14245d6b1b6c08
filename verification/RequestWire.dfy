/** `HttpRequest::appendTo`, and what the request parser makes of its output. */
module RequestWire {
  import opened Text
  import opened Incremental
  import opened HttpMessage
  import opened RequestParser

  function Target(r: Request): string {
    (if r.path == "" then "/" else r.path) + (if r.query == "" then "" else "?" + r.query)
  }

  function RequestLine(r: Request): string {
    MethodToString(r.verb) + " " + Target(r) + " " + "HTTP/1.1"
  }

  function HostLine(r: Request, host: string): string {
    if host != "" && "host" !in r.headers then HeaderLine("Host", host) else ""
  }

  /** The printed request, its header map walked in `order`. */
  function Serialize(r: Request, order: seq<string>, host: string): string
    requires Listed(order, r.headers)
  {
    Head(r, order, host) + "\r\n" + r.body
  }

  /** Everything before the blank line. */
  function Head(r: Request, order: seq<string>, host: string): string
    requires Listed(order, r.headers)
  {
    RequestLine(r) + "\r\n" + HostLine(r, host) + HeaderBlock(r.headers, order, {"content-length"})
    + HeaderLine("Content-Length", Print(|r.body|, 10))
  }

  /** What the other side is meant to receive: the same request with an explicit
      path, the Host line if one was added, and the true body length. */
  function Received(r: Request, host: string): Request {
    Request(r.verb, if r.path == "" then "/" else r.path, r.query, "HTTP/1.1",
            ReceivedHeaders(r, host), r.body)
  }

  function ReceivedHeaders(r: Request, host: string): HeaderMap {
    ((if host != "" && "host" !in r.headers then map["host" := host] else map[])
     + (r.headers - {"content-length"}))["content-length" := Print(|r.body|, 10)]
  }

  /** A request head that HTTP/1.1 can carry: a known method, a target without
      spaces, headers that survive printing, all within the parser's limit. */
  ghost predicate WellFormedHead(r: Request, order: seq<string>, host: string) {
    && Listed(order, r.headers) && Enumerates(order, r.headers)
    && !r.verb.Invalid?
    && Lacks(r.path, ' ') && Lacks(r.path, '?') && NoCrlf(r.path)
    && Lacks(r.query, ' ') && NoCrlf(r.query)
    && Printable("Host", host)
    && (forall k :: k in r.headers && k != "content-length" ==> ToLower(k) == k && Printable(k, r.headers[k]))
    && |Head(r, order, host)| <= MAX_HEADER_BYTES
  }

  predicate IsChunked(r: Request) {
    Contains(ToLower(Lookup(r.headers, "transfer-encoding")), "chunked")
  }

  /** A request whose body is framed by its length, and that the cap admits. */
  ghost predicate WellFormed(r: Request, order: seq<string>, host: string, maxBody: nat) {
    && Listed(order, r.headers) && WellFormedHead(r, order, host)
    && !IsChunked(r) && |r.body| < U64 && !Exceeds(maxBody, |r.body|)
  }

  // ---- The request line ------------------------------------------------------------

  lemma MethodRoundTrip(m: Method)
    ensures MethodFromString(MethodToString(m)) == m
    ensures Lacks(MethodToString(m), ' ') && NoCrlf(MethodToString(m))
  {
  }

  lemma RequestLineHasNoCrlf(r: Request)
    requires NoCrlf(r.path) && NoCrlf(r.query)
    ensures NoCrlf(RequestLine(r))
  {
    var verb, path, target := MethodToString(r.verb), if r.path == "" then "/" else r.path, Target(r);
    MethodRoundTrip(r.verb);
    assert NoCrlf(target) by {
      if r.query == "" { assert target == path; } else { NoCrlfConcat(path, "?", r.query); assert target == path + "?" + r.query; }
    }
    NoCrlfConcat(verb, " ", target);
    NoCrlfConcat(verb + " " + target, " ", "HTTP/1.1");
    assert RequestLine(r) == verb + " " + target + " " + "HTTP/1.1";
  }

  /** Where the parser finds the question mark in "verb path[?query]". */
  lemma MarkFound(verb: string, path: string, q: string, target: string, pre: string)
    requires Lacks(path, '?') && (q == "" || q[0] == '?')
    requires target == path + q && pre == verb + " " + target
    ensures Find(pre, '?', |verb| + 1) == |verb| + 1 + |path|
  {
    hide Find;
    var mark := |verb| + 1 + |path|;
    forall k | |verb| + 1 <= k < mark
      ensures pre[k] != '?'
    {
      assert pre[k] == target[k - |verb| - 1] == path[k - |verb| - 1];
    }
    assert q != "" ==> pre[mark] == target[|path|] == q[0];
    FindIs(pre, '?', |verb| + 1, mark);
  }

  /** "verb path[?query] version" */
  predicate IsLine(line: string, verb: string, path: string, q: string, version: string) {
    line == verb + " " + (path + q) + " " + version
  }

  lemma LineFinds(line: string, verb: string, path: string, q: string, version: string)
    requires Lacks(verb, ' ') && Lacks(path, ' ') && Lacks(path, '?') && Lacks(q, ' ')
    requires (q == "" || q[0] == '?') && IsLine(line, verb, path, q, version)
    ensures Find(line, ' ', 0) == |verb| && |line| > |verb| + 1 + |path| + |q|
    ensures Find(line, ' ', |verb| + 1) == |verb| + 1 + |path| + |q|
    ensures Find(line[..|verb| + 1 + |path| + |q|], '?', |verb| + 1) == |verb| + 1 + |path|
  {
    hide Find, Lacks;
    var target := path + q;
    FirstSeparator(verb, target, version);
    LacksConcat(path, q, ' ');
    SecondSeparator(verb, target, version);
    MarkFound(verb, path, q, target, line[..|verb| + 1 + |path| + |q|]);
  }

  /** The parts the parser cuts out between its separators. */
  lemma LineParts(line: string, verb: string, path: string, q: string, version: string)
    requires IsLine(line, verb, path, q, version)
    ensures |line| > |verb| + 1 + |path| + |q|
    ensures line[..|verb|] == verb
    ensures line[|verb| + 1..|verb| + 1 + |path|] == path
    ensures q != "" ==> line[|verb| + 1 + |path| + 1..|verb| + 1 + |path| + |q|] == q[1..]
    ensures line[|verb| + 1 + |path| + |q| + 1..] == version
  {
  }

  lemma ParsesTo(r: Request, verb: string, path: string, query: string, version: string, line: string,
                 space1: nat, mark: nat, space2: nat)
    requires !MethodFromString(verb).Invalid? && IsVersion(version) && r.query == ""
    requires space1 < mark <= space2 < |line|
    requires Find(line, ' ', 0) == space1 && line[..space1] == verb
    requires Find(line, ' ', space1 + 1) == space2 && line[space2 + 1..] == version
    requires Find(line[..space2], '?', space1 + 1) == mark && line[space1 + 1..mark] == path
    requires if mark < space2 then line[mark + 1..space2] == query else query == ""
    ensures ParseRequestLine(r, line) ==
            (true, r.(verb := MethodFromString(verb), path := path, query := query, version := version))
  {
    hide Find, MethodFromString, IsVersion;
  }

  lemma LineParsesTo(r: Request, verb: string, path: string, query: string, q: string, version: string, line: string)
    requires !MethodFromString(verb).Invalid? && IsVersion(version) && r.query == ""
    requires Lacks(verb, ' ') && Lacks(path, ' ') && Lacks(path, '?') && Lacks(q, ' ')
    requires if q == "" then query == "" else q[0] == '?' && q[1..] == query
    requires IsLine(line, verb, path, q, version)
    ensures ParseRequestLine(r, line) ==
            (true, r.(verb := MethodFromString(verb), path := path, query := query, version := version))
  {
    hide *;
    LineFinds(line, verb, path, q, version);
    LineParts(line, verb, path, q, version);
    ParsesTo(r, verb, path, query, version, line, |verb|, |verb| + 1 + |path|, |verb| + 1 + |path| + |q|);
  }

  lemma RequestLineRoundTrip(r: Request)
    requires !r.verb.Invalid?
    requires Lacks(r.path, ' ') && Lacks(r.path, '?') && Lacks(r.query, ' ')
    ensures ParseRequestLine(EmptyRequest, RequestLine(r)) ==
            (true, Request(r.verb, if r.path == "" then "/" else r.path, r.query, "HTTP/1.1", map[], ""))
  {
    hide ParseRequestLine;
    MethodRoundTrip(r.verb);
    var q := if r.query == "" then "" else "?" + r.query;
    LineParsesTo(EmptyRequest, MethodToString(r.verb), if r.path == "" then "/" else r.path, r.query, q,
                 "HTTP/1.1", RequestLine(r));
  }

  // ---- The headers -----------------------------------------------------------------

  lemma ParseHeader(c: Context, key: string, value: string, t: string)
    requires c.state.ExpectHeaders? && Printable(key, value)
    requires c.headerBytes + |HeaderLine(key, value)| <= MAX_HEADER_BYTES
    ensures Parse(c, HeaderLine(key, value) + t) ==
            Parse(c.(request := c.request.AddHeader(key, value), headerBytes := c.headerBytes + |HeaderLine(key, value)|), t)
  {
    hide Parse;
    var line := key + ": " + value;
    HeaderRoundTrip(key, value);
    assert HeaderLine(key, value) + t == line + "\r\n" + t;
    ParseLine(c, line, t);
  }

  /** A context that has read the request line of `r` and these headers. */
  function Reading(r: Request, headers: HeaderMap, bytes: nat, maxBody: nat): Context {
    Context(ExpectHeaders, NoError, Request(r.verb, if r.path == "" then "/" else r.path, r.query, "HTTP/1.1", headers, ""),
            0, 0, bytes, 0, maxBody)
  }

  lemma ParseOneHeader(r: Request, got: HeaderMap, bytes: nat, maxBody: nat, key: string, value: string, t: string)
    requires Printable(key, value) && bytes + |HeaderLine(key, value)| <= MAX_HEADER_BYTES
    ensures Parse(Reading(r, got, bytes, maxBody), HeaderLine(key, value) + t) ==
            Parse(Reading(r, got[ToLower(key) := value], bytes + |HeaderLine(key, value)|, maxBody), t)
  {
    hide Parse, Printable, ToLower, HeaderLine;
    ParseHeader(Reading(r, got, bytes, maxBody), key, value, t);
  }

  predicate Sendable(order: seq<string>, headers: HeaderMap, skip: set<string>)
    requires Listed(order, headers)
  {
    forall k :: k in order && k !in skip ==> ToLower(k) == k && Printable(k, headers[k])
  }

  lemma {:induction false} ParseBlock(r: Request, got: HeaderMap, bytes: nat, maxBody: nat,
                                      headers: HeaderMap, order: seq<string>, skip: set<string>, t: string)
    requires Listed(order, headers)
    requires Sendable(order, headers, skip)
    requires bytes + |HeaderBlock(headers, order, skip)| <= MAX_HEADER_BYTES
    ensures Parse(Reading(r, got, bytes, maxBody), HeaderBlock(headers, order, skip) + t) ==
            Parse(Reading(r, got + Sent(headers, order, skip), bytes + |HeaderBlock(headers, order, skip)|, maxBody), t)
    decreases |order|
  {
    hide Parse, Printable, ToLower, HeaderLine, Reading;
    if order == [] {
      assert "" + t == t;
      assert got + Sent(headers, order, skip) == got;
    } else {
      var k, rest := order[0], order[1..];
      var block := HeaderBlock(headers, rest, skip);
      if k in skip {
        assert "" + block == block;
        ParseBlock(r, got, bytes, maxBody, headers, rest, skip, t);
        assert Sent(headers, rest, skip) == Sent(headers, order, skip);
      } else {
        var line := HeaderLine(k, headers[k]);
        assert line + block + t == line + (block + t);
        ParseOneHeader(r, got, bytes, maxBody, k, headers[k], block + t);
        ParseBlock(r, got[k := headers[k]], bytes + |line|, maxBody, headers, rest, skip, t);
        SentCons(got, headers, order, skip);
      }
    }
  }

  // ---- Whole requests ----------------------------------------------------------------

  lemma StandardNames()
    ensures ToLower("Host") == "host" && ToLower("Content-Length") == "content-length"
    ensures ToLower("transfer-encoding") == "transfer-encoding" && ToLower("connection") == "connection"
    ensures ToLower("content-length") == "content-length"
  {
  }

  lemma ParseFirstLine(r: Request, maxBody: nat, t: string)
    requires !r.verb.Invalid?
    requires Lacks(r.path, ' ') && Lacks(r.path, '?') && NoCrlf(r.path)
    requires Lacks(r.query, ' ') && NoCrlf(r.query)
    ensures Parse(Fresh(maxBody), RequestLine(r) + "\r\n" + t) ==
            Parse(Reading(r, map[], |RequestLine(r)| + 2, maxBody), t)
  {
    hide Parse, ParseRequestLine, RequestLine;
    RequestLineHasNoCrlf(r);
    RequestLineRoundTrip(r);
    ParseLine(Fresh(maxBody), RequestLine(r), t);
  }

  function HostMap(r: Request, host: string): HeaderMap {
    if host != "" && "host" !in r.headers then map["host" := host] else map[]
  }

  lemma ParseHost(r: Request, host: string, bytes: nat, maxBody: nat, t: string)
    requires Printable("Host", host) && bytes + |HostLine(r, host)| <= MAX_HEADER_BYTES
    ensures Parse(Reading(r, map[], bytes, maxBody), HostLine(r, host) + t) ==
            Parse(Reading(r, HostMap(r, host), bytes + |HostLine(r, host)|, maxBody), t)
  {
    hide Parse, Printable, Reading, HeaderLine;
    StandardNames();
    if HostLine(r, host) == "" {
      assert "" + t == t;
    }
    if host != "" && "host" !in r.headers {
      ParseOneHeader(r, map[], bytes, maxBody, "Host", host, t);
      assert map[]["host" := host] == map["host" := host];
    }
  }

  lemma PrintedIsPrintable(n: nat)
    ensures Printable("Content-Length", Print(n, 10))
  {
    PrintedHasNoCrlf(n, 10);
    assert DigitValue(Print(n, 10)[0], 10) >= 0;
  }

  lemma HeadLines(r: Request, order: seq<string>, host: string, t: string)
    requires Listed(order, r.headers)
    ensures Head(r, order, host) + t ==
            RequestLine(r) + "\r\n" + (HostLine(r, host) + (HeaderBlock(r.headers, order, {"content-length"})
            + (HeaderLine("Content-Length", Print(|r.body|, 10)) + t)))
    ensures |Head(r, order, host)| == |RequestLine(r)| + 2 + |HostLine(r, host)|
            + |HeaderBlock(r.headers, order, {"content-length"})| + |HeaderLine("Content-Length", Print(|r.body|, 10))|
  {
    hide RequestLine, HeaderLine, HostLine, HeaderBlock, Print;
  }

  lemma HeadIsSendable(r: Request, order: seq<string>, host: string)
    requires WellFormedHead(r, order, host)
    ensures Sendable(order, r.headers, {"content-length"})
  {
    hide Printable, ToLower, Head;
  }

  /** The head of a printed request, read line by line. */
  lemma ParseHead(r: Request, order: seq<string>, host: string, maxBody: nat, t: string)
    requires WellFormedHead(r, order, host)
    ensures Parse(Fresh(maxBody), Head(r, order, host) + t) ==
            Parse(Reading(r, ReceivedHeaders(r, host), |Head(r, order, host)|, maxBody), t)
  {
    hide Listed;
    hide Enumerates;
    hide Sendable;
    hide Parse;
    hide Head;
    hide Reading;
    hide Printable;
    hide RequestLine;
    hide HeaderLine;
    hide HostLine;
    hide HeaderBlock;
    hide Print;
    hide NoCrlf;
    hide ToLower;
    hide Lacks;
    var line, block := RequestLine(r), HeaderBlock(r.headers, order, {"content-length"});
    var hostLine, lengthLine := HostLine(r, host), HeaderLine("Content-Length", Print(|r.body|, 10));
    HeadLines(r, order, host, t);
    ParseFirstLine(r, maxBody, hostLine + (block + (lengthLine + t)));
    var b1 := |line| + 2;
    ParseHost(r, host, b1, maxBody, block + (lengthLine + t));
    assert Sendable(order, r.headers, {"content-length"}) by { HeadIsSendable(r, order, host); }
    ParseBlock(r, HostMap(r, host), b1 + |hostLine|, maxBody, r.headers, order, {"content-length"}, lengthLine + t);
    var got := HostMap(r, host) + Sent(r.headers, order, {"content-length"});
    PrintedIsPrintable(|r.body|);
    ParseOneHeader(r, got, b1 + |hostLine| + |block|, maxBody, "Content-Length", Print(|r.body|, 10), t);
    StandardNames();
    SentAll(r.headers, order, {"content-length"});
  }

  lemma BlankLine(r: Request, host: string, bytes: nat, maxBody: nat)
    requires !IsChunked(r)
    requires |r.body| < U64 && !Exceeds(maxBody, |r.body|)
    ensures OnLine(Reading(r, ReceivedHeaders(r, host), bytes, maxBody), "") ==
            Advance(Reading(r, ReceivedHeaders(r, host), bytes, maxBody).(
                      contentLength := |r.body|, state := if r.body == "" then GotAll else ExpectBody), 2)
  {
    hide Contains, ToLower, Strtoul, Print, Exceeds;
    StandardNames();
    StrtoulPrinted(|r.body|, 10, "");
    assert Print(|r.body|, 10) + "" == Print(|r.body|, 10);
  }

  /** The context of a request that has been received in full. */
  function Complete(r: Request, order: seq<string>, host: string, maxBody: nat): Context
    requires Listed(order, r.headers)
  {
    Context(GotAll, NoError, Received(r, host), |r.body|, |r.body|, |Head(r, order, host)|, 0, maxBody)
  }

  /** Printing and parsing a request gives it back, and leaves what follows it. */
  lemma RequestRoundTrip(r: Request, order: seq<string>, host: string, maxBody: nat, t: string)
    requires WellFormed(r, order, host, maxBody)
    ensures Parse(Fresh(maxBody), Serialize(r, order, host) + t) == Progress(Complete(r, order, host, maxBody), t)
  {
    hide Listed, Parse, Head, OnLine, IsChunked, WellFormedHead;
    var bytes := |Head(r, order, host)|;
    var c := Reading(r, ReceivedHeaders(r, host), bytes, maxBody);
    assert Serialize(r, order, host) + t == Head(r, order, host) + ("" + "\r\n" + (r.body + t));
    ParseHead(r, order, host, maxBody, "" + "\r\n" + (r.body + t));
    BlankLine(r, host, bytes, maxBody);
    ParseLine(c, "", r.body + t);
    if r.body == "" {
      assert "" + t == t;
      ParseStep(Complete(r, order, host, maxBody), t);
    } else {
      ParseBody(c.(contentLength := |r.body|, state := ExpectBody), r.body, t);
      assert "" + r.body == r.body;
    }
  }

  /** A request that already names its path, host and length arrives unchanged. */
  lemma CanonicalRequestUnchanged(r: Request, host: string)
    requires r.path != "" && r.version == "HTTP/1.1" && (host == "" || "host" in r.headers)
    requires "content-length" in r.headers && r.headers["content-length"] == Print(|r.body|, 10)
    ensures Received(r, host) == r
  {
    assert ReceivedHeaders(r, host) == r.headers;
  }

  // ---- Chunked requests --------------------------------------------------------------

  /** A chunked request as RFC 9112 section 7.1 frames it, without trailers: the
      head, the chunks, the zero size line and the final CR LF. */
  function SerializeChunked(r: Request, order: seq<string>, host: string, chunks: seq<Chunk>): string
    requires Listed(order, r.headers)
  {
    Head(r, order, host) + "\r\n" + Frames(chunks) + "0" + "\r\n" + "\r\n"
  }

  ghost predicate WellFormedChunked(r: Request, order: seq<string>, host: string, maxBody: nat, chunks: seq<Chunk>) {
    && Listed(order, r.headers) && WellFormedHead(r, order, host) && IsChunked(r) && r.body == ""
    && (forall k :: k in chunks ==> WellFramed(k))
    && !Exceeds(maxBody, |Payload(chunks)|)
  }

  lemma ZeroSizeLine()
    ensures NoCrlf("0") && Strtoul("0", 16) == 0
  {
    assert "0"[1..] == "";
  }

  lemma BlankLineChunked(r: Request, host: string, bytes: nat, maxBody: nat)
    requires IsChunked(r)
    ensures OnLine(Reading(r, ReceivedHeaders(r, host), bytes, maxBody), "") ==
            Advance(Reading(r, ReceivedHeaders(r, host), bytes, maxBody).(state := ExpectChunkSize), 2)
  {
    hide Contains, ToLower, Print;
    StandardNames();
  }

  /** The parser delivers the payload of a chunked request but stops after the
      zero size line: the final CR LF stays unread. */
  lemma ChunkedRequestLeavesCrlf(r: Request, order: seq<string>, host: string, maxBody: nat, chunks: seq<Chunk>, t: string)
    requires WellFormedChunked(r, order, host, maxBody, chunks)
    ensures var p := Parse(Fresh(maxBody), SerializeChunked(r, order, host, chunks) + t);
            && p.state.state.GotAll? && p.state.maxBody == maxBody
            && p.state.request == Received(r, host).(body := Payload(chunks))
            && p.rest == "\r\n" + t
  {
    hide Listed, Parse, Head, OnLine, IsChunked, WellFormedHead, Frames, Payload, WellFramed, Strtoul, NoCrlf;
    var bytes := |Head(r, order, host)|;
    var c := Reading(r, ReceivedHeaders(r, host), bytes, maxBody);
    var body := Frames(chunks) + "0" + "\r\n" + ("\r\n" + t);
    assert SerializeChunked(r, order, host, chunks) + t == Head(r, order, host) + ("" + "\r\n" + body);
    ParseHead(r, order, host, maxBody, "" + "\r\n" + body);
    BlankLineChunked(r, host, bytes, maxBody);
    assert NoCrlf("") by { EmptyHasNoCrlf(); }
    ParseLine(c, "", body);
    ZeroSizeLine();
    ChunkedDecodes(c.(state := ExpectChunkSize), chunks, "0", "\r\n" + t);
    assert "" + Payload(chunks) == Payload(chunks);
  }

  lemma EmptyHasNoCrlf()
    ensures NoCrlf("")
  {
  }
}
