/** `HttpResponse::appendTo`, and what the response parser makes of its output. */
module ResponseWire {
  import opened Text
  import opened Incremental
  import opened HttpMessage
  import opened ResponseParser

  function PrintInt(n: int): string {
    if n < 0 then "-" + Print(-n, 10) else Print(n, 10)
  }

  const Managed := {"Content-Length", "Connection"}

  function StatusLine(code: int, reason: string): string {
    "HTTP/1.1" + " " + PrintInt(code) + " " + reason
  }

  function ConnectionValue(keepAlive: bool): string {
    if keepAlive then "keep-alive" else "close"
  }

  /** The header lines; the two managed headers come from the response itself. */
  function HeaderLines(r: Response, order: seq<string>): string
    requires Listed(order, r.headers)
  {
    HeaderLine("Content-Length", Print(|r.body|, 10)) + HeaderLine("Connection", ConnectionValue(r.keepAlive))
    + HeaderBlock(r.headers, order, Managed)
  }

  /** The printed response, its header map walked in `order`. */
  function Serialize(r: Response, order: seq<string>): string
    requires Listed(order, r.headers)
  {
    StatusLine(r.code, r.reason) + "\r\n" + HeaderLines(r, order) + "\r\n" + r.body
  }

  /** What the client is meant to get. */
  function Received(r: Response): Response {
    Response(r.code, if r.reason == "" then DefaultReason(r.code) else r.reason,
             map["Content-Length" := Print(|r.body|, 10), "Connection" := ConnectionValue(r.keepAlive)] + (r.headers - Managed),
             r.body, true)
  }

  predicate Plain(key: string, value: string) {
    && Printable(key, value) && !NamesLength(key)
    && (ToLower(key) == "transfer-encoding" ==> !Contains(value, "chunked"))
  }

  /** A response that can be framed by its length: a three-digit code below 600,
      headers that survive printing and do not contradict the framing, and sizes
      within the parser's limits. */
  ghost predicate WellFormed(r: Response, order: seq<string>) {
    && Enumerates(order, r.headers)
    && 100 <= r.code <= 599 && NoCrlf(r.reason)
    && (forall k :: k in r.headers && k !in Managed ==> Plain(k, r.headers[k]))
    && |HeaderLines(r, order)| <= MAX_HEADER_BYTES && |r.body| < U64
  }

  // ---- The status line -------------------------------------------------------------

  lemma PrintedCode(code: int)
    requires 100 <= code <= 599
    ensures Atoi(PrintInt(code)) == code && Lacks(PrintInt(code), ' ') && NoCrlf(PrintInt(code))
  {
    hide Atoi, Print;
    AtoiPrinted(code);
    PrintedHasNoCrlf(code, 10);
    forall i | 0 <= i < |PrintInt(code)|
      ensures PrintInt(code)[i] != ' '
    {
      assert DigitValue(Print(code, 10)[i], 10) >= 0;
    }
  }

  lemma StatusLineRoundTrip(code: int, reason: string)
    requires 100 <= code <= 599 && NoCrlf(reason)
    ensures ParseStatusLine(StatusLine(code, reason)) == Some((code, reason))
    ensures NoCrlf(StatusLine(code, reason))
  {
    hide Find, Atoi, PrintInt;
    PrintedCode(code);
    FirstSeparator("HTTP/1.1", PrintInt(code), reason);
    SecondSeparator("HTTP/1.1", PrintInt(code), reason);
    Words("HTTP/1.1", PrintInt(code), reason, StatusLine(code, reason));
    NoCrlfConcat("HTTP/1.1", " ", PrintInt(code));
    NoCrlfConcat("HTTP/1.1" + " " + PrintInt(code), " ", reason);
  }

  // ---- The headers -----------------------------------------------------------------

  /** A parser that has read the status line and these headers. */
  function Reading(r: Response, got: HeaderMap, lower: HeaderMap, length: Option<nat>, bytes: nat): Parser {
    Parser(ExpectHeaders, Response(r.code, Received(r).reason, got, "", true), lower,
           if length.Some? then length.value else 0, 0, bytes, 0, length.Some?, "")
  }

  lemma ParseOneHeader(r: Response, got: HeaderMap, lower: HeaderMap, length: Option<nat>, bytes: nat,
                       key: string, value: string, t: string)
    requires Printable(key, value) && bytes + |HeaderLine(key, value)| <= MAX_HEADER_BYTES
    ensures Parse(Reading(r, got, lower, length, bytes), HeaderLine(key, value) + t) ==
            Parse(Reading(r, got[key := value], lower[ToLower(key) := value],
                          if NamesLength(key) then Some(Strtoul(value, 10)) else length,
                          bytes + |HeaderLine(key, value)|), t)
  {
    hide Parse, ToLower, Strtoul, SplitHeader;
    var line := key + ": " + value;
    HeaderRoundTrip(key, value);
    assert HeaderLine(key, value) + t == line + "\r\n" + t;
    ParseLine(Reading(r, got, lower, length, bytes), line, t);
  }

  /** The lower-case lookup table after the headers in `order`. */
  function Lowered(lower: HeaderMap, headers: HeaderMap, order: seq<string>, skip: set<string>): HeaderMap
    requires Listed(order, headers)
    decreases |order|
  {
    if order == [] then lower
    else Lowered(if order[0] in skip then lower else lower[ToLower(order[0]) := headers[order[0]]], headers, order[1..], skip)
  }

  lemma {:induction false} NotChunked(lower: HeaderMap, headers: HeaderMap, order: seq<string>, skip: set<string>)
    requires Listed(order, headers)
    requires forall k :: k in order && k !in skip ==> Plain(k, headers[k])
    requires !Contains(Lookup(lower, "transfer-encoding"), "chunked")
    ensures !Contains(Lookup(Lowered(lower, headers, order, skip), "transfer-encoding"), "chunked")
    decreases |order|
  {
    hide Contains, ToLower, Printable;
    if order != [] {
      NotChunked(if order[0] in skip then lower else lower[ToLower(order[0]) := headers[order[0]]], headers, order[1..], skip);
    }
  }

  /** The length declared by the last of the headers that names one. */
  function LengthFrom(length: Option<nat>, headers: HeaderMap, order: seq<string>, skip: set<string>): Option<nat>
    requires Listed(order, headers)
    decreases |order|
  {
    if order == [] then length
    else LengthFrom(if order[0] in skip || !NamesLength(order[0]) then length else Some(Strtoul(headers[order[0]], 10)),
                    headers, order[1..], skip)
  }

  lemma {:induction false} PlainLength(length: Option<nat>, headers: HeaderMap, order: seq<string>, skip: set<string>)
    requires Listed(order, headers)
    requires forall k :: k in order && k !in skip ==> !NamesLength(k)
    ensures LengthFrom(length, headers, order, skip) == length
    decreases |order|
  {
    hide NamesLength, Strtoul;
    if order != [] {
      PlainLength(length, headers, order[1..], skip);
    }
  }

  lemma {:induction false} ParseBlock(r: Response, got: HeaderMap, lower: HeaderMap, length: Option<nat>, bytes: nat,
                                      headers: HeaderMap, order: seq<string>, skip: set<string>, t: string)
    requires Listed(order, headers)
    requires forall k :: k in order && k !in skip ==> Printable(k, headers[k])
    requires bytes + |HeaderBlock(headers, order, skip)| <= MAX_HEADER_BYTES
    ensures Parse(Reading(r, got, lower, length, bytes), HeaderBlock(headers, order, skip) + t) ==
            Parse(Reading(r, got + Sent(headers, order, skip), Lowered(lower, headers, order, skip),
                          LengthFrom(length, headers, order, skip), bytes + |HeaderBlock(headers, order, skip)|), t)
    decreases |order|
  {
    hide Parse, Printable, ToLower, HeaderLine, Reading, Strtoul, NamesLength;
    if order == [] {
      assert "" + t == t;
      assert Sent(headers, order, skip) == map[] && got + map[] == got;
    } else {
      var k, rest := order[0], order[1..];
      var block := HeaderBlock(headers, rest, skip);
      if k in skip {
        assert "" + block == block;
        ParseBlock(r, got, lower, length, bytes, headers, rest, skip, t);
        assert Sent(headers, rest, skip) == Sent(headers, order, skip);
      } else {
        var line := HeaderLine(k, headers[k]);
        assert line + block + t == line + (block + t);
        ParseOneHeader(r, got, lower, length, bytes, k, headers[k], block + t);
        assert Lowered(lower, headers, order, skip) == Lowered(lower[ToLower(k) := headers[k]], headers, rest, skip);
        var named := if NamesLength(k) then Some(Strtoul(headers[k], 10)) else length;
        ParseBlock(r, got[k := headers[k]], lower[ToLower(k) := headers[k]], named, bytes + |line|, headers, rest, skip, t);
        SentCons(got, headers, order, skip);
      }
    }
  }

  // ---- Whole responses ---------------------------------------------------------------

  lemma StandardNames()
    ensures ToLower("Content-Length") == "content-length" && NamesLength("Content-Length")
    ensures ToLower("Connection") == "connection" && !NamesLength("Connection")
  {
  }

  lemma ManagedArePrintable(n: nat, keepAlive: bool)
    ensures Printable("Content-Length", Print(n, 10)) && Printable("Connection", ConnectionValue(keepAlive))
  {
    hide Print;
    PrintedHasNoCrlf(n, 10);
    assert DigitValue(Print(n, 10)[0], 10) >= 0;
  }

  function FinalLower(r: Response, order: seq<string>): HeaderMap
    requires Listed(order, r.headers)
  {
    Lowered(map["content-length" := Print(|r.body|, 10), "connection" := ConnectionValue(r.keepAlive)], r.headers, order, Managed)
  }

  lemma ParseStatus(r: Response, t: string)
    requires 100 <= r.code <= 599 && NoCrlf(r.reason)
    ensures Parse(Initial, StatusLine(r.code, r.reason) + "\r\n" + t) == Parse(Reading(r, map[], map[], None, 0), t)
  {
    hide Parse, ParseStatusLine, StatusLine, DefaultReason;
    StatusLineRoundTrip(r.code, r.reason);
    ParseLine(Initial, StatusLine(r.code, r.reason), t);
  }

  lemma ParseManaged(r: Response, t: string)
    requires |r.body| < U64
    requires |HeaderLine("Content-Length", Print(|r.body|, 10))| + |HeaderLine("Connection", ConnectionValue(r.keepAlive))|
             <= MAX_HEADER_BYTES
    ensures var l, c := Print(|r.body|, 10), ConnectionValue(r.keepAlive);
            Parse(Reading(r, map[], map[], None, 0), HeaderLine("Content-Length", l) + (HeaderLine("Connection", c) + t)) ==
            Parse(Reading(r, map["Content-Length" := l, "Connection" := c], map["content-length" := l, "connection" := c],
                          Some(|r.body|), |HeaderLine("Content-Length", l)| + |HeaderLine("Connection", c)|), t)
  {
    hide Parse, Print, HeaderLine, Reading, Printable, ConnectionValue, Strtoul, ToLower, NamesLength;
    var l, c := Print(|r.body|, 10), ConnectionValue(r.keepAlive);
    StandardNames();
    ManagedArePrintable(|r.body|, r.keepAlive);
    StrtoulPrinted(|r.body|, 10, "");
    assert l + "" == l;
    ParseOneHeader(r, map[], map[], None, 0, "Content-Length", l, HeaderLine("Connection", c) + t);
    ParseOneHeader(r, map["Content-Length" := l], map["content-length" := l], Some(|r.body|), |HeaderLine("Content-Length", l)|,
                   "Connection", c, t);
  }

  lemma ParseHeaders(r: Response, order: seq<string>, t: string)
    requires WellFormed(r, order)
    ensures Parse(Initial, StatusLine(r.code, r.reason) + "\r\n" + HeaderLines(r, order) + t) ==
            Parse(Reading(r, Received(r).headers, FinalLower(r, order), Some(|r.body|), |HeaderLines(r, order)|), t)
  {
    hide Parse;
    hide Print;
    hide StatusLine;
    hide HeaderLine;
    hide Reading;
    hide HeaderBlock;
    hide Lowered;
    hide ConnectionValue;
    hide Plain;
    hide Printable;
    hide NamesLength;
    hide LengthFrom;
    hide DefaultReason;
    hide NoCrlf;
    var l, c := Print(|r.body|, 10), ConnectionValue(r.keepAlive);
    var l1, l2, block := HeaderLine("Content-Length", l), HeaderLine("Connection", c), HeaderBlock(r.headers, order, Managed);
    assert StatusLine(r.code, r.reason) + "\r\n" + HeaderLines(r, order) + t ==
           StatusLine(r.code, r.reason) + "\r\n" + (l1 + (l2 + (block + t)));
    ParseStatus(r, l1 + (l2 + (block + t)));
    ParseManaged(r, block + t);
    var got := map["Content-Length" := l, "Connection" := c];
    forall k | k in r.headers && k !in Managed
      ensures Printable(k, r.headers[k]) && !NamesLength(k)
    {
      PlainIsPrintable(k, r.headers[k]);
    }
    ParseBlock(r, got, map["content-length" := l, "connection" := c], Some(|r.body|), |l1| + |l2|, r.headers, order, Managed, t);
    PlainLength(Some(|r.body|), r.headers, order, Managed);
    SentAll(r.headers, order, Managed);
  }

  lemma BlankLine(r: Response, order: seq<string>)
    requires WellFormed(r, order)
    ensures var c := Reading(r, Received(r).headers, FinalLower(r, order), Some(|r.body|), |HeaderLines(r, order)|);
            OnLine(c, "") == Advance(c.(state := if r.body == "" then GotAll else ExpectBody), 2)
  {
    hide Contains, Print, Lowered, Plain, HeaderLines, NoCrlf;
    var lower := map["content-length" := Print(|r.body|, 10), "connection" := ConnectionValue(r.keepAlive)];
    assert !Contains(Lookup(lower, "transfer-encoding"), "chunked") by { EmptyHasNoWord(); }
    NotChunked(lower, r.headers, order, Managed);
  }

  lemma PlainIsPrintable(key: string, value: string)
    requires Plain(key, value)
    ensures Printable(key, value) && !NamesLength(key)
  {
    hide Printable, NamesLength, Contains, ToLower;
  }

  lemma EmptyHasNoWord()
    ensures !Contains("", "chunked")
  {
  }

  /** Printing and parsing a response under any segmentation gives the same code,
      reason, headers and body. */
  lemma ResponseRoundTrip(r: Response, order: seq<string>, t: string)
    requires WellFormed(r, order)
    ensures var p := Parse(Initial, Serialize(r, order) + t);
            p.rest == t && p.state.state.GotAll? && p.state.response == Received(r)
  {
    hide Parse, StatusLine, HeaderLines, OnLine, FinalLower, DefaultReason;
    var head := StatusLine(r.code, r.reason) + "\r\n" + HeaderLines(r, order);
    var c := Reading(r, Received(r).headers, FinalLower(r, order), Some(|r.body|), |HeaderLines(r, order)|);
    assert Serialize(r, order) + t == head + ("" + "\r\n" + (r.body + t));
    ParseHeaders(r, order, "" + "\r\n" + (r.body + t));
    BlankLine(r, order);
    ParseLine(c, "", r.body + t);
    if r.body == "" {
      assert "" + t == t;
      ParseStep(c.(state := GotAll), t);
    } else {
      ParseBody(c.(state := ExpectBody), r.body, t);
      assert "" + r.body == r.body;
    }
  }

  /** The round trip under any segmentation of the printed bytes. */
  lemma ResponseRoundTripInPieces(r: Response, order: seq<string>, pieces: seq<string>)
    requires WellFormed(r, order)
    requires pieces != [] && Concat(pieces) == Serialize(r, order)
    ensures var p := ParsePieces(Progress(Initial, ""), pieces);
            p.rest == "" && p.state.state.GotAll? && p.state.response == Received(r)
  {
    hide Parse, ParsePieces, Serialize, Concat;
    ResponseRoundTrip(r, order, "");
    assert Serialize(r, order) + "" == Serialize(r, order);
    SegmentationIndependence(Initial, pieces);
  }

  // ---- Responses of other servers -------------------------------------------------------

  predicate NamesEncoding(key: string) {
    ToLower(key) == "transfer-encoding"
  }

  /** The head as any server may send it; the body follows it. */
  function SerializeHead(r: Response, order: seq<string>): string
    requires Listed(order, r.headers)
  {
    StatusLine(r.code, r.reason) + "\r\n" + HeaderBlock(r.headers, order, {}) + "\r\n"
  }

  ghost predicate WellFormedHead(r: Response, order: seq<string>) {
    && Enumerates(order, r.headers)
    && 100 <= r.code <= 599 && NoCrlf(r.reason)
    && (forall k :: k in r.headers ==> Printable(k, r.headers[k]))
    && |HeaderBlock(r.headers, order, {})| <= MAX_HEADER_BYTES
  }

  /** Some header names a transfer encoding, in any case, and all that do say chunked. */
  ghost predicate DeclaresChunked(headers: HeaderMap) {
    && (exists k :: k in headers && NamesEncoding(k))
    && (forall k :: k in headers && NamesEncoding(k) ==> Contains(headers[k], "chunked"))
  }

  ghost predicate NeverChunked(headers: HeaderMap) {
    forall k :: k in headers && NamesEncoding(k) ==> !Contains(headers[k], "chunked")
  }

  /** Some header names the length, in any case, and all that do give `n`. */
  ghost predicate DeclaresLength(headers: HeaderMap, n: nat) {
    && (exists k :: k in headers && NamesLength(k))
    && (forall k :: k in headers && NamesLength(k) ==> Strtoul(headers[k], 10) == n)
  }

  /** What the client is meant to get from the head and a body. */
  function Carrying(r: Response, body: string): Response {
    Response(r.code, if r.reason == "" then DefaultReason(r.code) else r.reason, r.headers, body, true)
  }

  /** What the lower-case table says of the transfer encoding. */
  lemma {:induction false} EncodingLookup(lower: HeaderMap, headers: HeaderMap, order: seq<string>)
    requires Listed(order, headers)
    ensures var e := Lookup(Lowered(lower, headers, order, {}), "transfer-encoding");
            || (exists k :: k in order && NamesEncoding(k) && e == headers[k])
            || ((forall k :: k in order ==> !NamesEncoding(k)) && e == Lookup(lower, "transfer-encoding"))
    decreases |order|
  {
    hide ToLower;
    if order != [] {
      EncodingLookup(lower[ToLower(order[0]) := headers[order[0]]], headers, order[1..]);
      assert order == [order[0]] + order[1..];
      var e := Lookup(Lowered(lower, headers, order, {}), "transfer-encoding");
      if !(exists k :: k in order[1..] && NamesEncoding(k) && e == headers[k]) && NamesEncoding(order[0]) {
        assert order[0] in order && e == headers[order[0]];
      }
    }
  }

  lemma {:induction false} LengthLookup(length: Option<nat>, headers: HeaderMap, order: seq<string>)
    requires Listed(order, headers)
    ensures var n := LengthFrom(length, headers, order, {});
            || (exists k :: k in order && NamesLength(k) && n == Some(Strtoul(headers[k], 10)))
            || ((forall k :: k in order ==> !NamesLength(k)) && n == length)
    decreases |order|
  {
    hide NamesLength, Strtoul;
    if order != [] {
      var first := if NamesLength(order[0]) then Some(Strtoul(headers[order[0]], 10)) else length;
      LengthLookup(first, headers, order[1..]);
      assert order == [order[0]] + order[1..];
      var n := LengthFrom(length, headers, order, {});
      if !(exists k :: k in order[1..] && NamesLength(k) && n == Some(Strtoul(headers[k], 10))) && NamesLength(order[0]) {
        assert order[0] in order && n == Some(Strtoul(headers[order[0]], 10));
      }
    }
  }

  /** The parser at the blank line of the head. */
  function AtBlankLine(r: Response, order: seq<string>): Parser
    requires Listed(order, r.headers)
  {
    Reading(r, r.headers, Lowered(map[], r.headers, order, {}), LengthFrom(None, r.headers, order, {}),
            |HeaderBlock(r.headers, order, {})|)
  }

  function AfterHead(r: Response, order: seq<string>): Parser
    requires Listed(order, r.headers)
  {
    EndOfHeaders(AtBlankLine(r, order)).state
  }

  /** After the head the parser waits for the body the head declares. */
  lemma ParseHead(r: Response, order: seq<string>, t: string)
    requires WellFormedHead(r, order)
    ensures Parse(Initial, SerializeHead(r, order) + t) == Parse(AfterHead(r, order), t)
  {
    hide Parse;
    hide StatusLine;
    hide HeaderBlock;
    hide Lowered;
    hide LengthFrom;
    hide Printable;
    hide NoCrlf;
    hide DefaultReason;
    hide Contains;
    var block := HeaderBlock(r.headers, order, {});
    assert SerializeHead(r, order) + t == StatusLine(r.code, r.reason) + "\r\n" + (block + ("\r\n" + t));
    ParseStatus(r, block + ("\r\n" + t));
    ParseBlock(r, map[], map[], None, 0, r.headers, order, {}, "\r\n" + t);
    SentAll(r.headers, order, {});
    assert map[] + (r.headers - {}) == r.headers;
    assert "" + "\r\n" + t == "\r\n" + t;
    assert NoCrlf("") by { EmptyHasNoCrlf(); }
    ParseLine(AtBlankLine(r, order), "", t);
  }

  /** The blank line chooses the framing: chunked wins over a declared length, and
      without either the body runs to the end of the connection. */
  lemma HeadDecides(r: Response, order: seq<string>)
    requires WellFormedHead(r, order)
    ensures var c, d := AtBlankLine(r, order), AfterHead(r, order);
            && d == c.(state := d.state)
            && (DeclaresChunked(r.headers) ==> d.state == ExpectChunkSize)
            && (NeverChunked(r.headers) && !(exists k :: k in r.headers && NamesLength(k)) ==> d.state == ExpectEofBody)
            && (forall n: nat :: NeverChunked(r.headers) && DeclaresLength(r.headers, n) ==>
                                 d.state == (if n == 0 then GotAll else ExpectBody) && d.contentLength == n)
  {
    hide Lowered, LengthFrom, Contains, Strtoul, NamesEncoding, NamesLength, HeaderBlock, Printable, NoCrlf, DefaultReason;
    EncodingLookup(map[], r.headers, order);
    LengthLookup(None, r.headers, order);
    EmptyHasNoWord();
  }

  /** A chunked response of any server: its body is the data of the chunks, and what
      follows the zero size line is left. */
  lemma ChunkedResponse(r: Response, order: seq<string>, chunks: seq<Chunk>, last: string, t: string)
    requires WellFormedHead(r, order) && DeclaresChunked(r.headers)
    requires forall k :: k in chunks ==> WellFramed(k)
    requires NoCrlf(last) && Strtoul(last, 16) == 0
    ensures var p := Parse(Initial, SerializeHead(r, order) + (Frames(chunks) + last + "\r\n" + t));
            p.rest == t && p.state.state.GotAll? && p.state.response == Carrying(r, Payload(chunks))
  {
    hide Parse;
    hide SerializeHead;
    hide Frames;
    hide Payload;
    hide WellFramed;
    hide Strtoul;
    hide DeclaresChunked;
    hide NeverChunked;
    hide Lowered;
    hide LengthFrom;
    hide HeaderBlock;
    hide DefaultReason;
    hide AfterHead;
    hide Printable;
    hide NoCrlf;
    ParseHead(r, order, Frames(chunks) + last + "\r\n" + t);
    HeadDecides(r, order);
    ChunkedDecodes(AfterHead(r, order), chunks, last, t);
    assert "" + Payload(chunks) == Payload(chunks);
  }

  /** A response with a declared length, whichever way the header is spelled. */
  lemma SizedResponse(r: Response, order: seq<string>, body: string, t: string)
    requires WellFormedHead(r, order) && NeverChunked(r.headers) && DeclaresLength(r.headers, |body|)
    ensures var p := Parse(Initial, SerializeHead(r, order) + (body + t));
            p.rest == t && p.state.state.GotAll? && p.state.response == Carrying(r, body)
  {
    hide Parse;
    hide SerializeHead;
    hide DeclaresLength;
    hide NeverChunked;
    hide Lowered;
    hide LengthFrom;
    hide HeaderBlock;
    hide DefaultReason;
    hide AfterHead;
    hide Printable;
    hide NoCrlf;
    ParseHead(r, order, body + t);
    HeadDecides(r, order);
    var d := AfterHead(r, order);
    if body == "" {
      assert "" + t == t;
      ParseStep(d, t);
    } else {
      ParseBody(d, body, t);
      assert "" + body == body;
    }
  }

  /** A response with neither: nothing is delivered until the peer closes, and then
      everything after the head is the body. */
  lemma UnframedResponse(r: Response, order: seq<string>, data: string)
    requires WellFormedHead(r, order) && NeverChunked(r.headers)
    requires !(exists k :: k in r.headers && NamesLength(k))
    ensures var p := Parse(Initial, SerializeHead(r, order) + data);
            && p.rest == "" && !p.state.state.GotAll?
            && OnEof(p.state).state.GotAll? && OnEof(p.state).response == Carrying(r, data)
  {
    hide Parse;
    hide SerializeHead;
    hide NeverChunked;
    hide Lowered;
    hide LengthFrom;
    hide HeaderBlock;
    hide DefaultReason;
    hide AfterHead;
    hide Printable;
    hide NoCrlf;
    ParseHead(r, order, data);
    HeadDecides(r, order);
    EofBody(AfterHead(r, order), data);
    assert "" + data == data;
  }
}
