/** HttpContext: the incremental request parser (http/http_context.cc). */
module RequestParser {
  import opened Text
  import opened Incremental
  import opened HttpMessage

  datatype State = ExpectRequestLine | ExpectHeaders | ExpectBody
                 | ExpectChunkSize | ExpectChunkData | ExpectChunkCrlf | GotAll | Error

  datatype ErrorKind = NoError | BadRequest | TooLarge

  const MAX_HEADER_BYTES: nat := 64 * 1024

  /** The fields of HttpContext. */
  datatype RawContext = Context(state: State, error: ErrorKind, request: Request, contentLength: nat,
                                bodyReceived: nat, headerBytes: nat, chunkRemaining: nat, maxBody: nat)

  /** Between steps a body state always still expects bytes, and the body count
      is the length of the body. */
  predicate Valid(c: RawContext) {
    && (c.state.ExpectBody? ==> c.bodyReceived < c.contentLength)
    && (c.state.ExpectChunkData? ==> 0 < c.chunkRemaining)
    && c.bodyReceived == |c.request.body|
    && (c.state.ExpectRequestLine? || c.state.ExpectHeaders? ==> c.request.body == "")
  }

  type Context = c: RawContext | Valid(c)
    witness Context(ExpectRequestLine, NoError, EmptyRequest, 0, 0, 0, 0, 0)

  /** `reset`: everything but the configured body cap. */
  function Fresh(maxBody: nat): Context {
    Context(ExpectRequestLine, NoError, EmptyRequest, 0, 0, 0, 0, maxBody)
  }

  predicate IsVersion(v: string) {
    v == "HTTP/1.0" || v == "HTTP/1.1"
  }

  /** METHOD SP path[?query] SP version.  A rejected line may already have set
      the method and the target. */
  function ParseRequestLine(r: Request, line: string): (res: (bool, Request))
    ensures res.1.headers == r.headers && res.1.body == r.body
  {
    var space1 := Find(line, ' ', 0);
    if space1 == |line| then (false, r)
    else
      var m := MethodFromString(line[..space1]);
      if m.Invalid? then (false, r)
      else
        var r1 := r.(verb := m);
        var target := space1 + 1;
        var space2 := Find(line, ' ', target);
        if space2 == |line| then (false, r1)
        else
          var q := Find(line[..space2], '?', target);
          var r2 := r1.(path := line[target..q], query := if q < space2 then line[q + 1..space2] else r1.query);
          var version := line[space2 + 1..];
          if IsVersion(version) then (true, r2.(version := version)) else (false, r2)
  }

  function Failed(c: Context): Context {
    c.(state := Error)
  }

  function FailedTooLarge(c: Context): Context {
    c.(state := Error, error := TooLarge)
  }

  predicate Exceeds(maxBody: nat, size: nat) {
    maxBody > 0 && size > maxBody
  }

  /** The blank line: decide how the body is framed. */
  function EndOfHeaders(c: Context): (o: Outcome<Context>)
    requires c.state.ExpectHeaders?
  {
    if Contains(ToLower(c.request.Header("transfer-encoding")), "chunked") then
      Advance(c.(state := ExpectChunkSize), 2)
    else
      var cl := c.request.Header("content-length");
      var length := if cl == "" then 0 else Strtoul(cl, 10);
      var c1 := c.(contentLength := length, bodyReceived := 0);
      if Exceeds(c.maxBody, length) then Halt(FailedTooLarge(c1), 2)
      else Advance(c1.(state := if length > 0 then ExpectBody else GotAll), 2)
  }

  function OnHeaderLine(c: Context, line: string): (o: Outcome<Context>)
    requires c.state.ExpectHeaders?
  {
    match SplitHeader(line)
    case None => Halt(Failed(c), 0)
    case Some((key, value)) =>
      var bytes := c.headerBytes + |line| + 2;
      var c1 := c.(request := c.request.AddHeader(key, value), headerBytes := bytes);
      if bytes > MAX_HEADER_BYTES then Halt(Failed(c1), 0) else Advance(c1, |line| + 2)
  }

  /** A complete line in one of the three line-oriented states. */
  function OnLine(c: Context, line: string): (o: Outcome<Context>)
    requires c.state.ExpectRequestLine? || c.state.ExpectHeaders? || c.state.ExpectChunkSize?
    ensures !o.Idle?
  {
    match c.state
    case ExpectRequestLine =>
      var (ok, r) := ParseRequestLine(c.request, line);
      if !ok then Halt(Failed(c.(request := r)), 0)
      else Advance(c.(request := r, headerBytes := c.headerBytes + |line| + 2, state := ExpectHeaders), |line| + 2)
    case ExpectHeaders =>
      if line == "" then EndOfHeaders(c) else OnHeaderLine(c, line)
    case ExpectChunkSize =>
      var size := Strtoul(line, 16);
      Advance(c.(chunkRemaining := size, state := if size == 0 then GotAll else ExpectChunkData), |line| + 2)
  }

  function Take(c: Context, data: string): Request {
    c.request.(body := c.request.body + data)
  }

  function OnBody(c: Context, buf: string): (o: Outcome<Context>)
    requires c.state.ExpectBody?
    ensures !o.Halt?
  {
    var take := if |buf| < c.contentLength - c.bodyReceived then |buf| else c.contentLength - c.bodyReceived;
    if take == 0 then Idle
    else
      var received := c.bodyReceived + take;
      Advance(c.(request := Take(c, buf[..take]), bodyReceived := received,
                 state := if received == c.contentLength then GotAll else ExpectBody), take)
  }

  function OnChunkData(c: Context, buf: string): (o: Outcome<Context>)
    requires c.state.ExpectChunkData?
  {
    var take := if |buf| < c.chunkRemaining then |buf| else c.chunkRemaining;
    if take == 0 then Idle
    else if Exceeds(c.maxBody, c.bodyReceived + take) then Halt(FailedTooLarge(c), 0)
    else
      Advance(c.(request := Take(c, buf[..take]), bodyReceived := c.bodyReceived + take,
                 chunkRemaining := c.chunkRemaining - take,
                 state := if take == c.chunkRemaining then ExpectChunkCrlf else ExpectChunkData), take)
  }

  /** One iteration of the loop of `parseRequest`. */
  function Step(c: Context, buf: string): (o: Outcome<Context>) {
    match c.state
    case ExpectBody => OnBody(c, buf)
    case ExpectChunkData => OnChunkData(c, buf)
    case ExpectChunkCrlf => if |buf| >= 2 then Advance(c.(state := ExpectChunkSize), 2) else Idle
    case GotAll => Idle
    case Error => Idle
    case _ =>
      match FirstCrlf(buf)
      case None => Idle
      case Some(p) => OnLine(c, buf[..p])
  }

  /** What a caller sees of a failed parse: `state_` is kError, with `error_`. */
  function Verdict(c: Context): Option<ErrorKind> {
    if c.state.Error? then Some(c.error) else None
  }

  lemma BodyIsStable(c: Context, a: string, b: string)
    requires c.state.ExpectBody?
    ensures Stable(Step, Verdict, c, a, b)
  {
    if a != "" {
      var need := c.contentLength - c.bodyReceived;
      if |a| < need {
        assert a + (a + b)[|a|..] == a + b;
        var c1 := OnBody(c, a).state;
        var take := if |a + b| < need then |a + b| else need;
        assert (a + b)[..take] == a + b[..take - |a|];
        assert c.request.body + (a + b)[..take] == c1.request.body + b[..take - |a|];
      } else {
        assert (a + b)[..need] == a[..need];
      }
    }
  }

  lemma ChunkDataIsStable(c: Context, a: string, b: string)
    requires c.state.ExpectChunkData?
    ensures Stable(Step, Verdict, c, a, b)
  {
    if a != "" {
      var need := c.chunkRemaining;
      if |a| < need {
        var take := if |a + b| < need then |a + b| else need;
        assert (a + b)[..take] == a + b[..take - |a|];
        if OnChunkData(c, a).Advance? {
          var c1 := OnChunkData(c, a).state;
          assert c.request.body + (a + b)[..take] == c1.request.body + b[..take - |a|];
        }
      } else {
        assert (a + b)[..need] == a[..need];
      }
    }
  }

  lemma LineIsStable(c: Context, a: string, b: string)
    requires c.state.ExpectRequestLine? || c.state.ExpectHeaders? || c.state.ExpectChunkSize?
    ensures Stable(Step, Verdict, c, a, b)
  {
    if FirstCrlf(a).Some? {
      CrlfStable(a, b);
      var p := FirstCrlf(a).value;
      assert (a + b)[..p] == a[..p];
      assert Step(c, a + b) == Step(c, a);
    }
  }

  /** The request grammar is resumable, so `Run` and its theorems apply. */
  lemma StepIsResumable()
    ensures Resumable(Step, Verdict)
  {
    forall c: Context, a, b
      ensures Stable(Step, Verdict, c, a, b)
    {
      match c.state
      case ExpectBody => BodyIsStable(c, a, b);
      case ExpectChunkData => ChunkDataIsStable(c, a, b);
      case ExpectChunkCrlf =>
      case GotAll =>
      case Error =>
      case _ => LineIsStable(c, a, b);
    }
  }

  /** `parseRequest`: run the loop over the unread bytes. */
  function Parse(c: Context, buf: string): (p: Progress<Context>) {
    StepIsResumable();
    Run(Step, Verdict, c, buf)
  }

  // ---- Segmentation --------------------------------------------------------

  /** Reading the pieces one by one: each call parses what earlier calls left
      unread followed by the new piece. */
  function ParsePieces(p: Progress<Context>, pieces: seq<string>): (q: Progress<Context>) {
    StepIsResumable();
    Feed(Step, Verdict, p, pieces)
  }

  /** For every stream and every way of cutting it into reads: same context,
      same request, same unread rest as in one read; a failing parse fails
      either way with the same error. */
  lemma SegmentationIndependence(c: Context, pieces: seq<string>)
    requires pieces != []
    ensures var cut, whole := ParsePieces(Progress(c, ""), pieces), Parse(c, Concat(pieces));
            cut == whole || (cut.state.state.Error? && whole.state.state.Error? && cut.state.error == whole.state.error)
  {
    StepIsResumable();
    FeedIsRun(Step, Verdict, c, "", pieces);
    assert "" + Concat(pieces) == Concat(pieces);
  }

  lemma ParseSplit(c: Context, a: string, b: string)
    ensures var p := Parse(c, a); Agree(Verdict, Parse(c, a + b), Parse(p.state, p.rest + b))
  {
    StepIsResumable();
    RunSplit(Step, Verdict, c, a, b);
  }

  // ---- Steps of a parse ------------------------------------------------------

  lemma ParseStep(c: Context, buf: string)
    ensures var o := Step(c, buf);
            match o
            case Idle => Parse(c, buf) == Progress(c, buf)
            case Halt(e, n) => n <= |buf| && Parse(c, buf) == Progress(e, buf[n..])
            case Advance(d, n) => 0 < n <= |buf| && Parse(c, buf) == Parse(d, buf[n..])
  {
    StepIsResumable();
    assert Stable(Step, Verdict, c, buf, "");
  }

  lemma ParseLine(c: Context, line: string, t: string)
    requires c.state.ExpectRequestLine? || c.state.ExpectHeaders? || c.state.ExpectChunkSize?
    requires NoCrlf(line)
    requires OnLine(c, line).Advance?
    ensures Parse(c, line + "\r\n" + t) == Parse(OnLine(c, line).state, t)
  {
    hide Parse, Strtoul, ParseRequestLine, SplitHeader, Contains;
    var buf := line + "\r\n" + t;
    CrlfEndsLine(line, t);
    assert buf[..|line|] == line;
    assert Step(c, buf) == OnLine(c, line);
    ParseStep(c, buf);
    assert buf[|line| + 2..] == t;
  }

  /** A declared body that has arrived in full completes the request. */
  lemma ParseBody(c: Context, data: string, t: string)
    requires c.state.ExpectBody? && c.bodyReceived + |data| == c.contentLength
    ensures Parse(c, data + t) ==
            Progress(c.(request := Take(c, data), bodyReceived := c.contentLength, state := GotAll), t)
  {
    hide Parse;
    var buf := data + t;
    assert buf[..|data|] == data && buf[|data|..] == t;
    ParseStep(c, buf);
    ParseStep(c.(request := Take(c, data), bodyReceived := c.contentLength, state := GotAll), t);
  }

  // ---- Chunked bodies --------------------------------------------------------

  lemma ParseChunk(c: Context, k: Chunk, t: string)
    requires c.state.ExpectChunkSize? && WellFramed(k)
    requires !Exceeds(c.maxBody, c.bodyReceived + |k.data|)
    ensures Parse(c, Frame(k) + t) ==
            Parse(c.(request := Take(c, k.data), bodyReceived := c.bodyReceived + |k.data|, chunkRemaining := 0), t)
  {
    hide Parse, Strtoul, NoCrlf;
    var rest := k.data + k.sep + t;
    assert Frame(k) + t == k.sizeLine + "\r\n" + rest;
    ParseLine(c, k.sizeLine, rest);
    var c1: Context := c.(chunkRemaining := |k.data|, state := ExpectChunkData);
    assert rest[..|k.data|] == k.data && rest[|k.data|..] == k.sep + t;
    ParseStep(c1, rest);
    var c2: Context := c.(request := Take(c, k.data), bodyReceived := c.bodyReceived + |k.data|,
                          chunkRemaining := 0, state := ExpectChunkCrlf);
    assert Step(c1, rest) == Advance(c2, |k.data|);
    ParseStep(c2, k.sep + t);
    assert (k.sep + t)[2..] == t;
  }

  /** Any list of chunks followed by a zero size line decodes to the
      concatenation of their data and consumes exactly through that line. */
  lemma {:induction false} ChunkedDecodes(c: Context, chunks: seq<Chunk>, last: string, t: string)
    requires c.state.ExpectChunkSize?
    requires forall k :: k in chunks ==> WellFramed(k)
    requires NoCrlf(last) && Strtoul(last, 16) == 0
    requires !Exceeds(c.maxBody, c.bodyReceived + |Payload(chunks)|)
    ensures Parse(c, Frames(chunks) + last + "\r\n" + t) ==
            Progress(c.(request := Take(c, Payload(chunks)), bodyReceived := c.bodyReceived + |Payload(chunks)|,
                        chunkRemaining := 0, state := GotAll), t)
    decreases |chunks|
  {
    hide Parse, Strtoul, NoCrlf, WellFramed, Frame;
    if chunks == [] {
      assert "" + last + "\r\n" + t == last + "\r\n" + t;
      assert Take(c, "") == c.request by { assert c.request.body + "" == c.request.body; }
      ParseLine(c, last, t);
      ParseStep(c.(chunkRemaining := 0, state := GotAll), t);
    } else {
      var k := chunks[0];
      var rest := Frames(chunks[1..]) + last + "\r\n" + t;
      assert Frames(chunks) + last + "\r\n" + t == Frame(k) + rest;
      ParseChunk(c, k, rest);
      var c1: Context := c.(request := Take(c, k.data), bodyReceived := c.bodyReceived + |k.data|, chunkRemaining := 0);
      ChunkedDecodes(c1, chunks[1..], last, t);
      assert Take(c1, Payload(chunks[1..])) == Take(c, Payload(chunks)) by {
        assert c.request.body + k.data + Payload(chunks[1..]) == c.request.body + Payload(chunks);
      }
    }
  }

  // ---- The body cap ------------------------------------------------------------

  /** The same context without a body cap. */
  function Uncapped(c: Context): Context {
    c.(maxBody := 0)
  }

  /** Within the cap so far. */
  predicate WithinCap(c: Context) {
    c.maxBody > 0 && c.contentLength <= c.maxBody && c.bodyReceived <= c.maxBody && c.error.NoError?
  }

  /** What the stream declares or delivers when nothing is refused. */
  predicate Oversized(c: Context, maxBody: nat) {
    c.contentLength > maxBody || c.bodyReceived > maxBody
  }

  /** Parsing never lowers what was declared or delivered. */
  lemma {:induction false} ParseGrows(c: Context, buf: string, maxBody: nat)
    requires Oversized(c, maxBody) && !c.state.ExpectRequestLine? && !c.state.ExpectHeaders?
    ensures Oversized(Parse(c, buf).state, maxBody)
    decreases |buf|
  {
    ParseStep(c, buf);
    if Step(c, buf).Advance? {
      ParseGrows(Step(c, buf).state, buf[Step(c, buf).used..], maxBody);
    }
  }

  /** A step with (`o`) and without (`u`) the cap: the same, unless it is the
      step that refuses an oversized body. */
  predicate CapRelates(c: Context, o: Outcome<Context>, u: Outcome<Context>) {
    match o
    case Idle => u.Idle?
    case Advance(d, n) => u == Advance(Uncapped(d), n) && WithinCap(d) && d.maxBody == c.maxBody
    case Halt(e, n) =>
      && e.bodyReceived <= c.maxBody && e.state.Error?
      && (if e.error.TooLarge?
          then u.Advance? && Oversized(u.state, c.maxBody)
               && !u.state.state.ExpectRequestLine? && !u.state.state.ExpectHeaders?
          else u == Halt(Uncapped(e), n) && WithinCap(e) && e.maxBody == c.maxBody)
  }

  lemma CapEndOfHeaders(c: Context)
    requires WithinCap(c) && c.state.ExpectHeaders?
    ensures CapRelates(c, EndOfHeaders(c), EndOfHeaders(Uncapped(c)))
  {
  }

  lemma CapHeaderLine(c: Context, line: string)
    requires WithinCap(c) && c.state.ExpectHeaders?
    ensures CapRelates(c, OnHeaderLine(c, line), OnHeaderLine(Uncapped(c), line))
  {
  }

  lemma CapLine(c: Context, line: string)
    requires WithinCap(c)
    requires c.state.ExpectRequestLine? || c.state.ExpectHeaders? || c.state.ExpectChunkSize?
    ensures CapRelates(c, OnLine(c, line), OnLine(Uncapped(c), line))
  {
    match c.state
    case ExpectHeaders => if line == "" { CapEndOfHeaders(c); } else { CapHeaderLine(c, line); }
    case ExpectRequestLine =>
    case ExpectChunkSize =>
  }

  lemma CapStep(c: Context, buf: string)
    requires WithinCap(c)
    ensures CapRelates(c, Step(c, buf), Step(Uncapped(c), buf))
  {
    hide Strtoul, OnLine;
    match c.state
    case ExpectBody =>
    case ExpectChunkData =>
    case ExpectChunkCrlf =>
    case GotAll =>
    case Error =>
    case _ =>
      match FirstCrlf(buf)
      case None =>
      case Some(p) => CapLine(c, buf[..p]);
  }

  /** The cap, exactly: compare with the same stream parsed without a cap.  It is
      refused as too large if and only if that declares or delivers more than the
      cap; otherwise the cap changes nothing. */
  lemma {:induction false} CapIsExact(c: Context, buf: string)
    requires WithinCap(c)
    ensures var free, capped := Parse(Uncapped(c), buf), Parse(c, buf);
            && capped.state.bodyReceived <= c.maxBody
            && (if Oversized(free.state, c.maxBody)
                then capped.state.state.Error? && capped.state.error.TooLarge?
                else capped == Progress(free.state.(maxBody := c.maxBody), free.rest) && !capped.state.error.TooLarge?)
    decreases |buf|
  {
    hide Parse, Step;
    ParseStep(c, buf);
    ParseStep(Uncapped(c), buf);
    CapStep(c, buf);
    match Step(c, buf)
    case Idle =>
    case Advance(d, n) => CapIsExact(d, buf[n..]);
    case Halt(e, n) =>
      if e.error.TooLarge? {
        var u := Step(Uncapped(c), buf);
        ParseGrows(u.state, buf[u.used..], c.maxBody);
      }
  }

  /** A capped parse never holds more body than the cap, also after it failed. */
  predicate Capped(c: Context) {
    WithinCap(c) || (c.maxBody > 0 && c.state.Error? && c.bodyReceived <= c.maxBody)
  }

  lemma ParseStaysCapped(c: Context, buf: string)
    requires Capped(c)
    ensures Capped(Parse(c, buf).state) && Parse(c, buf).state.maxBody == c.maxBody
  {
    hide Parse;
    if WithinCap(c) { CapIsExact(c, buf); ParseKeepsCap(c, buf); } else { ParseStep(c, buf); }
  }

  lemma {:induction false} ParseKeepsCap(c: Context, buf: string)
    ensures Parse(c, buf).state.maxBody == c.maxBody
    ensures Parse(c, buf).state.error == c.error || (Parse(c, buf).state.error.TooLarge? && c.maxBody > 0)
    ensures Parse(c, buf).state.error == c.error || Parse(c, buf).state.state.Error?
    decreases |buf|
  {
    hide Parse, Strtoul, Contains, ToLower, ParseRequestLine, SplitHeader;
    ParseStep(c, buf);
    if Step(c, buf).Advance? { ParseKeepsCap(Step(c, buf).state, buf[Step(c, buf).used..]); }
  }

  lemma {:induction false} PiecesStayCapped(p: Progress<Context>, pieces: seq<string>)
    requires Capped(p.state)
    ensures Capped(ParsePieces(p, pieces).state) && ParsePieces(p, pieces).state.maxBody == p.state.maxBody
    decreases |pieces|
  {
    hide Capped, Parse;
    if pieces != [] {
      ParseStaysCapped(p.state, p.rest + pieces[0]);
      PiecesStayCapped(Parse(p.state, p.rest + pieces[0]), pieces[1..]);
      NextPiece(p, pieces);
    }
  }

  lemma NextPiece(p: Progress<Context>, pieces: seq<string>)
    requires pieces != []
    ensures ParsePieces(p, pieces) == ParsePieces(Parse(p.state, p.rest + pieces[0]), pieces[1..])
  {
    StepIsResumable();
  }

  /** The cap is exact whatever the segmentation: the body never exceeds it, and the
      stream is refused as too large if and only if the same stream without a cap
      declares or delivers more; otherwise the cap changes nothing. */
  lemma CapIsExactInPieces(c: Context, pieces: seq<string>)
    requires WithinCap(c) && pieces != []
    ensures var free, cut := Parse(Uncapped(c), Concat(pieces)), ParsePieces(Progress(c, ""), pieces);
            && cut.state.bodyReceived <= c.maxBody
            && (if Oversized(free.state, c.maxBody)
                then cut.state.state.Error? && cut.state.error.TooLarge?
                else && !cut.state.error.TooLarge?
                     && (cut == Progress(free.state.(maxBody := c.maxBody), free.rest)
                         || (cut.state.state.Error? && free.state.state.Error? && cut.state.error == free.state.error)))
  {
    hide Parse, ParsePieces;
    CapIsExact(c, Concat(pieces));
    SegmentationIndependence(c, pieces);
    PiecesStayCapped(Progress(c, ""), pieces);
  }

  // ---- Which failure is reported ---------------------------------------------------

  /** The parse of a new request, cut in any way, fails exactly when the stream is
      malformed or exceeds the cap.  It reports `TooLarge` in the second case and no
      error kind at all in the first: `BadRequest` is never reported. */
  lemma FailureKinds(maxBody: nat, pieces: seq<string>)
    requires pieces != []
    ensures var free, cut := Parse(Fresh(0), Concat(pieces)).state, ParsePieces(Progress(Fresh(maxBody), ""), pieces).state;
            var tooLarge := maxBody > 0 && Oversized(free, maxBody);
            && (cut.state.Error? <==> free.state.Error? || tooLarge)
            && cut.error == if tooLarge then TooLarge else NoError
  {
    hide Parse, ParsePieces;
    var c := Fresh(maxBody);
    ParseKeepsCap(Fresh(0), Concat(pieces));
    if maxBody > 0 {
      CapIsExactInPieces(c, pieces);
      assert Uncapped(c) == Fresh(0);
    } else {
      SegmentationIndependence(c, pieces);
    }
  }
}
