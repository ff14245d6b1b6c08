/** The incremental response parser of the client side (http/response_parser.cc). */
module ResponseParser {
  import opened Text
  import opened Incremental
  import opened HttpMessage

  datatype State = ExpectStatusLine | ExpectHeaders | ExpectBody | ExpectChunkSize | ExpectChunkData
                 | ExpectChunkCrlf | ExpectEofBody | GotAll | Error

  const MAX_HEADER_BYTES: nat := 64 * 1024

  /** The fields of ResponseParser. */
  datatype RawParser = Parser(state: State, response: Response, lowerHeaders: HeaderMap, contentLength: nat,
                              bodyReceived: nat, headerBytes: nat, chunkRemaining: nat,
                              hasContentLength: bool, bodyAccum: string)

  predicate Valid(c: RawParser) {
    && (c.state.ExpectBody? ==> c.bodyReceived < c.contentLength)
    && (c.state.ExpectChunkData? ==> 0 < c.chunkRemaining)
    && (c.state.ExpectStatusLine? || c.state.ExpectHeaders? ==> c.bodyReceived == 0)
  }

  type Parser = c: RawParser | Valid(c)
    witness Parser(ExpectStatusLine, EmptyResponse, map[], 0, 0, 0, 0, false, "")

  const Initial: Parser := Parser(ExpectStatusLine, EmptyResponse, map[], 0, 0, 0, 0, false, "")

  /** version SP code [SP reason]; None when the line is refused. */
  function ParseStatusLine(line: string): (r: Option<(int, string)>)
    ensures r.Some? ==> 100 <= r.value.0 <= 599
  {
    var sp1 := Find(line, ' ', 0);
    if sp1 == |line| then None
    else if line[..sp1] != "HTTP/1.0" && line[..sp1] != "HTTP/1.1" then None
    else
      var sp2 := Find(line, ' ', sp1 + 1);
      var code := Atoi(line[sp1 + 1..sp2]);
      if code < 100 || code > 599 then None
      else Some((code, if sp2 == |line| then "" else line[sp2 + 1..]))
  }

  function Failed(c: Parser): Parser {
    c.(state := Error)
  }

  /** The body is complete: hand it to the response. */
  function Finish(c: Parser, body: string): Parser {
    c.(response := c.response.(body := body), bodyAccum := "", state := GotAll)
  }

  /** The blank line: chunked, a declared length, or a body that ends with the
      connection. */
  function EndOfHeaders(c: Parser): (o: Outcome<Parser>)
    requires c.state.ExpectHeaders?
  {
    var s := if Contains(Lookup(c.lowerHeaders, "transfer-encoding"), "chunked") then ExpectChunkSize
             else if c.hasContentLength then (if c.contentLength > 0 then ExpectBody else GotAll)
             else ExpectEofBody;
    Advance(c.(state := s), 2)
  }

  predicate NamesLength(key: string) {
    ToLower(key) == "content-length"
  }

  function OnHeaderLine(c: Parser, line: string): (o: Outcome<Parser>)
    requires c.state.ExpectHeaders?
  {
    match SplitHeader(line)
    case None => Halt(Failed(c), 0)
    case Some((key, value)) =>
      var bytes := c.headerBytes + |line| + 2;
      var isLength := NamesLength(key);
      var c1 := c.(response := c.response.(headers := c.response.headers[key := value]),
                   lowerHeaders := c.lowerHeaders[ToLower(key) := value],
                   hasContentLength := c.hasContentLength || isLength,
                   contentLength := if isLength then Strtoul(value, 10) else c.contentLength,
                   headerBytes := bytes);
      if bytes > MAX_HEADER_BYTES then Halt(Failed(c1), 0) else Advance(c1, |line| + 2)
  }

  function OnLine(c: Parser, line: string): (o: Outcome<Parser>)
    requires c.state.ExpectStatusLine? || c.state.ExpectHeaders? || c.state.ExpectChunkSize?
    ensures !o.Idle?
  {
    match c.state
    case ExpectStatusLine =>
      (match ParseStatusLine(line)
       case None => Halt(Failed(c), 0)
       case Some((code, reason)) =>
         Advance(c.(response := c.response.SetStatus(code, reason), state := ExpectHeaders), |line| + 2))
    case ExpectHeaders =>
      if line == "" then EndOfHeaders(c) else OnHeaderLine(c, line)
    case ExpectChunkSize =>
      var size := Strtoul(line, 16);
      var c1 := c.(chunkRemaining := size);
      Advance(if size == 0 then Finish(c1, c1.bodyAccum) else c1.(state := ExpectChunkData), |line| + 2)
  }

  function OnBody(c: Parser, buf: string): (o: Outcome<Parser>)
    requires c.state.ExpectBody?
    ensures !o.Halt?
  {
    var take := if |buf| < c.contentLength - c.bodyReceived then |buf| else c.contentLength - c.bodyReceived;
    if take == 0 then Idle
    else
      var body, received := c.bodyAccum + buf[..take], c.bodyReceived + take;
      var c1: RawParser := c.(bodyReceived := received, bodyAccum := body);
      Advance(if received == c.contentLength then Finish(c.(bodyReceived := received, state := GotAll), body) else c1, take)
  }

  function OnChunkData(c: Parser, buf: string): (o: Outcome<Parser>)
    requires c.state.ExpectChunkData?
    ensures !o.Halt?
  {
    var take := if |buf| < c.chunkRemaining then |buf| else c.chunkRemaining;
    if take == 0 then Idle
    else Advance(c.(bodyAccum := c.bodyAccum + buf[..take], chunkRemaining := c.chunkRemaining - take,
                    state := if take == c.chunkRemaining then ExpectChunkCrlf else ExpectChunkData), take)
  }

  function OnEofBody(c: Parser, buf: string): (o: Outcome<Parser>)
    requires c.state.ExpectEofBody?
    ensures !o.Halt?
  {
    if buf == "" then Idle else Advance(c.(bodyAccum := c.bodyAccum + buf), |buf|)
  }

  /** One iteration of the loop of `parse`. */
  function Step(c: Parser, buf: string): (o: Outcome<Parser>) {
    match c.state
    case ExpectBody => OnBody(c, buf)
    case ExpectChunkData => OnChunkData(c, buf)
    case ExpectChunkCrlf => if |buf| >= 2 then Advance(c.(state := ExpectChunkSize), 2) else Idle
    case ExpectEofBody => OnEofBody(c, buf)
    case GotAll => Idle
    case Error => Idle
    case _ =>
      match FirstCrlf(buf)
      case None => Idle
      case Some(p) => OnLine(c, buf[..p])
  }

  function Verdict(c: Parser): Option<()> {
    if c.state.Error? then Some(()) else None
  }

  lemma BodyIsStable(c: Parser, a: string, b: string)
    requires c.state.ExpectBody?
    ensures Stable(Step, Verdict, c, a, b)
  {
    hide OnLine;
    if a != "" {
      var need := c.contentLength - c.bodyReceived;
      if |a| < need {
        TakeAcross(a, b, if |a + b| < need then |a + b| else need);
        assert a[..|a|] == a;
      } else {
        assert (a + b)[..need] == a[..need];
      }
    }
  }

  lemma ChunkDataIsStable(c: Parser, a: string, b: string)
    requires c.state.ExpectChunkData?
    ensures Stable(Step, Verdict, c, a, b)
  {
    hide OnLine;
    if a != "" {
      var need := c.chunkRemaining;
      if |a| < need {
        TakeAcross(a, b, if |a + b| < need then |a + b| else need);
        assert a[..|a|] == a;
      } else {
        assert (a + b)[..need] == a[..need];
      }
    }
  }

  lemma EofBodyIsStable(c: Parser, a: string, b: string)
    requires c.state.ExpectEofBody?
    ensures Stable(Step, Verdict, c, a, b)
  {
    assert c.bodyAccum + (a + b) == c.bodyAccum + a + b;
    assert b == "" ==> a + b == a;
  }

  lemma LineIsStable(c: Parser, a: string, b: string)
    requires c.state.ExpectStatusLine? || c.state.ExpectHeaders? || c.state.ExpectChunkSize?
    ensures Stable(Step, Verdict, c, a, b)
  {
    hide ParseStatusLine, SplitHeader, Strtoul, Contains, ToLower;
    if FirstCrlf(a).Some? {
      CrlfStable(a, b);
      var p := FirstCrlf(a).value;
      assert (a + b)[..p] == a[..p];
      assert Step(c, a + b) == Step(c, a);
    }
  }

  lemma StepIsResumable()
    ensures Resumable(Step, Verdict)
  {
    forall c: Parser, a, b
      ensures Stable(Step, Verdict, c, a, b)
    {
      match c.state
      case ExpectBody => BodyIsStable(c, a, b);
      case ExpectChunkData => ChunkDataIsStable(c, a, b);
      case ExpectEofBody => EofBodyIsStable(c, a, b);
      case ExpectChunkCrlf =>
      case GotAll =>
      case Error =>
      case _ => LineIsStable(c, a, b);
    }
  }

  function Parse(c: Parser, buf: string): (p: Progress<Parser>) {
    StepIsResumable();
    Run(Step, Verdict, c, buf)
  }

  /** The peer closed: an EOF-delimited body is complete. */
  function OnEof(c: Parser): Parser {
    if c.state.ExpectEofBody? then Finish(c, c.bodyAccum) else c
  }

  function ParsePieces(p: Progress<Parser>, pieces: seq<string>): (q: Progress<Parser>) {
    StepIsResumable();
    Feed(Step, Verdict, p, pieces)
  }

  /** However the response is cut into reads, the parser ends as in one read. */
  lemma SegmentationIndependence(c: Parser, pieces: seq<string>)
    requires pieces != []
    ensures var cut, whole := ParsePieces(Progress(c, ""), pieces), Parse(c, Concat(pieces));
            cut == whole || (cut.state.state.Error? && whole.state.state.Error?)
  {
    StepIsResumable();
    FeedIsRun(Step, Verdict, c, "", pieces);
    assert "" + Concat(pieces) == Concat(pieces);
  }

  lemma ParseStep(c: Parser, buf: string)
    ensures match Step(c, buf)
            case Idle => Parse(c, buf) == Progress(c, buf)
            case Halt(e, n) => n <= |buf| && Parse(c, buf) == Progress(e, buf[n..])
            case Advance(d, n) => 0 < n <= |buf| && Parse(c, buf) == Parse(d, buf[n..])
  {
    StepIsResumable();
    assert Stable(Step, Verdict, c, buf, "");
  }

  lemma ParseLine(c: Parser, line: string, t: string)
    requires c.state.ExpectStatusLine? || c.state.ExpectHeaders? || c.state.ExpectChunkSize?
    requires NoCrlf(line)
    requires OnLine(c, line).Advance?
    ensures Parse(c, line + "\r\n" + t) == Parse(OnLine(c, line).state, t)
  {
    hide Parse, Strtoul, ParseStatusLine, SplitHeader, Contains;
    var buf := line + "\r\n" + t;
    CrlfEndsLine(line, t);
    assert buf[..|line|] == line;
    assert Step(c, buf) == OnLine(c, line);
    ParseStep(c, buf);
    assert buf[|line| + 2..] == t;
  }

  lemma ParseBody(c: Parser, data: string, t: string)
    requires c.state.ExpectBody? && c.bodyReceived + |data| == c.contentLength
    ensures Parse(c, data + t) ==
            Progress(Finish(c.(bodyReceived := c.contentLength, state := GotAll), c.bodyAccum + data), t)
  {
    hide Parse;
    var buf := data + t;
    assert buf[..|data|] == data && buf[|data|..] == t;
    ParseStep(c, buf);
    ParseStep(Finish(c.(bodyReceived := c.contentLength, state := GotAll), c.bodyAccum + data), t);
  }

  /** A body without framing is everything up to the close of the connection. */
  lemma EofBody(c: Parser, data: string)
    requires c.state.ExpectEofBody?
    ensures Parse(c, data).rest == "" && Parse(c, data).state.state.ExpectEofBody?
    ensures OnEof(Parse(c, data).state) == Finish(c, c.bodyAccum + data)
  {
    hide Parse;
    ParseStep(c, data);
    if data == "" {
      assert c.bodyAccum + "" == c.bodyAccum;
    } else {
      var c1: Parser := c.(bodyAccum := c.bodyAccum + data);
      ParseStep(c1, "");
      assert data[|data|..] == "";
    }
  }

  lemma ParseChunk(c: Parser, k: Chunk, t: string)
    requires c.state.ExpectChunkSize? && WellFramed(k)
    ensures Parse(c, Frame(k) + t) == Parse(c.(bodyAccum := c.bodyAccum + k.data, chunkRemaining := 0), t)
  {
    hide Parse, Strtoul, NoCrlf;
    var rest := k.data + k.sep + t;
    assert Frame(k) + t == k.sizeLine + "\r\n" + rest;
    ParseLine(c, k.sizeLine, rest);
    var c1: Parser := c.(chunkRemaining := |k.data|, state := ExpectChunkData);
    assert rest[..|k.data|] == k.data && rest[|k.data|..] == k.sep + t;
    ParseStep(c1, rest);
    var c2: Parser := c.(bodyAccum := c.bodyAccum + k.data, chunkRemaining := 0, state := ExpectChunkCrlf);
    assert Step(c1, rest) == Advance(c2, |k.data|);
    ParseStep(c2, k.sep + t);
    assert (k.sep + t)[2..] == t;
  }

  /** Chunks followed by a zero size line decode to the concatenation of their data,
      and what follows that line is not consumed. */
  lemma {:induction false} ChunkedDecodes(c: Parser, chunks: seq<Chunk>, last: string, t: string)
    requires c.state.ExpectChunkSize?
    requires forall k :: k in chunks ==> WellFramed(k)
    requires NoCrlf(last) && Strtoul(last, 16) == 0
    ensures Parse(c, Frames(chunks) + last + "\r\n" + t) ==
            Progress(Finish(c.(bodyAccum := c.bodyAccum + Payload(chunks), chunkRemaining := 0), c.bodyAccum + Payload(chunks)), t)
    decreases |chunks|
  {
    hide Parse, Strtoul, NoCrlf, WellFramed, Frame;
    if chunks == [] {
      assert "" + last + "\r\n" + t == last + "\r\n" + t;
      assert c.bodyAccum + "" == c.bodyAccum;
      ParseLine(c, last, t);
      ParseStep(Finish(c.(chunkRemaining := 0), c.bodyAccum), t);
    } else {
      var k := chunks[0];
      var rest := Frames(chunks[1..]) + last + "\r\n" + t;
      assert Frames(chunks) + last + "\r\n" + t == Frame(k) + rest;
      ParseChunk(c, k, rest);
      ChunkedDecodes(c.(bodyAccum := c.bodyAccum + k.data, chunkRemaining := 0), chunks[1..], last, t);
      assert c.bodyAccum + k.data + Payload(chunks[1..]) == c.bodyAccum + Payload(chunks);
    }
  }

  lemma ParseSplit(c: Parser, a: string, b: string)
    ensures var p := Parse(c, a); Agree(Verdict, Parse(c, a + b), Parse(p.state, p.rest + b))
  {
    StepIsResumable();
    RunSplit(Step, Verdict, c, a, b);
  }

  /** A response cut short is never taken for a complete one: if `a + b` is all of a
      response, a connection closed after `a` leaves it incomplete. */
  lemma NoEarlyEnd(c: Parser, a: string, b: string)
    requires b != ""
    requires Parse(c, a + b).state.state.GotAll? && Parse(c, a + b).rest == ""
    ensures var p := Parse(c, a); !p.state.state.GotAll? && !OnEof(p.state).state.GotAll?
  {
    hide Parse;
    var p := Parse(c, a);
    ParseSplit(c, a, b);
    if p.state.state.GotAll? {
      ParseStep(p.state, p.rest + b);
    } else if p.state.state.ExpectEofBody? {
      EofBody(p.state, p.rest + b);
    }
  }
}
