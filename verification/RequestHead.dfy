/** Which request heads the parser accepts (http/http_context.cc). */
module RequestHead {
  import opened Text
  import opened Incremental
  import opened HttpMessage
  import opened RequestParser
  import RequestWire

  // ---- The request line ---------------------------------------------------------------

  predicate Spells(line: string, m: Method, target: string, version: string) {
    && !m.Invalid? && Lacks(target, ' ') && IsVersion(version)
    && line == MethodToString(m) + " " + target + " " + version
  }

  /** A known method, a target without spaces and one of the two versions, with one
      space between them. */
  ghost predicate IsRequestLine(line: string) {
    exists m: Method, target: string, version: string :: Spells(line, m, target, version)
  }

  lemma MethodSpelling(s: string)
    ensures !MethodFromString(s).Invalid? ==> MethodToString(MethodFromString(s)) == s
  {
  }

  /** An accepted line has the form. */
  lemma AcceptedSpells(r: Request, line: string)
    requires ParseRequestLine(r, line).0
    ensures IsRequestLine(line)
  {
    hide Find, MethodFromString, MethodToString, IsVersion;
    var space1 := Find(line, ' ', 0);
    var space2 := Find(line, ' ', space1 + 1);
    FindIsFirst(line, ' ', 0);
    FindIsFirst(line, ' ', space1 + 1);
    MethodSpelling(line[..space1]);
    var m, target, version := MethodFromString(line[..space1]), line[space1 + 1..space2], line[space2 + 1..];
    assert line == line[..space1] + " " + target + " " + version;
    assert Spells(line, m, target, version);
  }

  /** A line of the form is accepted, and the request gets its method and version. */
  lemma SpelledAccepted(r: Request, line: string, m: Method, target: string, version: string)
    requires Spells(line, m, target, version)
    ensures var (ok, q) := ParseRequestLine(r, line); ok && q.verb == m && q.version == version
  {
    hide Find, MethodFromString, MethodToString, IsVersion;
    RequestWire.MethodRoundTrip(m);
    FirstSeparator(MethodToString(m), target, version);
    SecondSeparator(MethodToString(m), target, version);
    Words(MethodToString(m), target, version, line);
  }

  lemma AcceptedIff(r: Request, line: string)
    ensures ParseRequestLine(r, line).0 <==> IsRequestLine(line)
  {
    hide ParseRequestLine, Spells;
    if ParseRequestLine(r, line).0 {
      AcceptedSpells(r, line);
    } else if IsRequestLine(line) {
      var m: Method, target: string, version: string :| Spells(line, m, target, version);
      SpelledAccepted(r, line, m, target, version);
    }
  }

  // ---- The header lines ---------------------------------------------------------------

  /** The context after header lines that were all accepted. */
  function Collect(c: Context, lines: seq<string>): (d: Context)
    requires c.state.ExpectHeaders?
    ensures d.state.ExpectHeaders? && d.error == c.error && d.maxBody == c.maxBody
    decreases |lines|
  {
    if lines == [] then c
    else
      match SplitHeader(lines[0])
      case None => c
      case Some((key, value)) =>
        Collect(c.(request := c.request.AddHeader(key, value), headerBytes := c.headerBytes + |lines[0]| + 2), lines[1..])
  }

  lemma RefusedLine(c: Context, line: string, t: string)
    requires c.state.ExpectRequestLine? || c.state.ExpectHeaders?
    requires NoCrlf(line) && OnLine(c, line).Halt?
    ensures Parse(c, line + "\r\n" + t).state == OnLine(c, line).state
  {
    hide Parse, Strtoul, ParseRequestLine, SplitHeader, Contains, NoCrlf;
    var buf := line + "\r\n" + t;
    CrlfEndsLine(line, t);
    assert buf[..|line|] == line;
    assert Step(c, buf) == OnLine(c, line);
    ParseStep(c, buf);
  }

  /** One header line, in terms of its colon and its length. */
  lemma OneLine(c: Context, line: string)
    requires c.state.ExpectHeaders? && line != ""
    ensures var o := OnLine(c, line);
            if !Lacks(line, ':') && c.headerBytes + |line| + 2 <= MAX_HEADER_BYTES then
              && SplitHeader(line).Some? && o.Advance?
              && o.state == c.(request := c.request.AddHeader(SplitHeader(line).value.0, SplitHeader(line).value.1),
                               headerBytes := c.headerBytes + |line| + 2)
            else o.Halt? && o.state.state.Error? && o.state.error == c.error
  {
    hide SplitHeader, ToLower;
    SplitsIff(line);
  }

  predicate Fits(c: Context, lines: seq<string>) {
    lines == [] || c.headerBytes + |Lines(lines)| <= MAX_HEADER_BYTES
  }

  /** Header lines pass exactly when each holds a colon and the head stays within
      its limit; otherwise the request is refused as malformed. */
  lemma {:induction false} HeaderLinesPassIff(c: Context, lines: seq<string>, t: string)
    requires c.state.ExpectHeaders? && AreHeaderLines(lines)
    ensures var p := Parse(c, Lines(lines) + t);
            if AllHaveColon(lines) && Fits(c, lines) then p == Parse(Collect(c, lines), t)
            else p.state.state.Error? && p.state.error == c.error
    decreases |lines|
  {
    hide Parse, SplitHeader, NoCrlf, Lacks, ToLower, AreHeaderLines, AllHaveColon, OnLine;
    if lines == [] {
      assert "" + t == t;
      assert AllHaveColon([]) by { NoLines(); }
    } else {
      var line, rest := lines[0], lines[1..];
      FirstLine(lines);
      LinesCons(lines, t);
      var o := OnLine(c, line);
      OneLine(c, line);
      if o.Halt? {
        RefusedLine(c, line, Lines(rest) + t);
      } else {
        ParseLine(c, line, Lines(rest) + t);
        HeaderLinesPassIff(o.state, rest, t);
      }
    }
  }

  // ---- Whole heads ----------------------------------------------------------------------

  /** The context after an accepted request line. */
  function AfterLine(maxBody: nat, first: string): Context {
    var c := Fresh(maxBody);
    c.(request := ParseRequestLine(c.request, first).1, headerBytes := |first| + 2, state := ExpectHeaders)
  }

  ghost predicate Acceptable(first: string, lines: seq<string>) {
    && IsRequestLine(first) && AllHaveColon(lines)
    && (lines == [] || |first| + 2 + |Lines(lines)| <= MAX_HEADER_BYTES)
  }

  /** The lines of a head, whatever comes after them. */
  lemma HeadPassesIff(maxBody: nat, first: string, lines: seq<string>, t: string)
    requires NoCrlf(first) && AreHeaderLines(lines)
    ensures var p := Parse(Fresh(maxBody), first + "\r\n" + (Lines(lines) + t));
            if Acceptable(first, lines) then p == Parse(Collect(AfterLine(maxBody, first), lines), t)
            else p.state.state.Error? && p.state.error == NoError
  {
    hide Parse, ParseRequestLine, IsRequestLine, NoCrlf, AllHaveColon, Collect, Lines;
    var c := Fresh(maxBody);
    AcceptedIff(c.request, first);
    if IsRequestLine(first) {
      ParseLine(c, first, Lines(lines) + t);
      HeaderLinesPassIff(AfterLine(maxBody, first), lines, t);
    } else {
      RefusedLine(c, first, Lines(lines) + t);
    }
  }

  predicate PastHead(c: Context) {
    c.state.ExpectBody? || c.state.ExpectChunkSize? || c.state.ExpectChunkData? || c.state.ExpectChunkCrlf? || c.state.GotAll?
  }

  lemma BodyStep(c: Context, buf: string)
    requires PastHead(c)
    ensures var o := Step(c, buf);
            && (o.Advance? ==> PastHead(o.state))
            && (o.Halt? ==> o.state.error == TooLarge)
  {
    hide Strtoul;
  }

  /** Past the head nothing is malformed: a body can only be too large. */
  lemma {:induction false} BodyNeverMalformed(c: Context, buf: string)
    requires PastHead(c)
    ensures var p := Parse(c, buf).state; p.state.Error? ==> p.error == TooLarge
    decreases |buf|
  {
    hide Parse, Step;
    ParseStep(c, buf);
    BodyStep(c, buf);
    match Step(c, buf)
    case Idle =>
    case Halt(e, n) =>
    case Advance(d, n) => BodyNeverMalformed(d, buf[n..]);
  }

  lemma BlankLine(c: Context, t: string)
    requires c.state.ExpectHeaders?
    ensures var p, o := Parse(c, "\r\n" + t), EndOfHeaders(c);
            && (o.Halt? ==> p.state == o.state && o.state.error == TooLarge)
            && (o.Advance? ==> PastHead(o.state) && p == Parse(o.state, t))
            && !o.Idle?
  {
    hide Parse, Strtoul, Contains, ToLower;
    assert "" + "\r\n" + t == "\r\n" + t;
    var o := OnLine(c, "");
    if o.Halt? {
      RefusedLine(c, "", t);
    } else {
      ParseLine(c, "", t);
    }
  }

  /** A complete head is refused as malformed exactly when its request line does not
      have the form, a header line lacks its colon, or the head with its header lines
      exceeds the limit; whatever the body is. */
  lemma MalformedIff(maxBody: nat, first: string, lines: seq<string>, t: string)
    requires NoCrlf(first) && AreHeaderLines(lines)
    ensures var p := Parse(Fresh(maxBody), first + "\r\n" + (Lines(lines) + ("\r\n" + t))).state;
            p.state.Error? && p.error == NoError <==> !Acceptable(first, lines)
  {
    hide Parse, NoCrlf, Acceptable, Collect, ParseRequestLine, Lines, EndOfHeaders, AreHeaderLines;
    HeadPassesIff(maxBody, first, lines, "\r\n" + t);
    if Acceptable(first, lines) {
      var c := Collect(AfterLine(maxBody, first), lines);
      BlankLine(c, t);
      var o := EndOfHeaders(c);
      if o.Advance? {
        BodyNeverMalformed(o.state, t);
      }
    }
  }

  // ---- Requests without a body -----------------------------------------------------------

  /** No header line names the length or the encoding of a body. */
  predicate FramesNothing(lines: seq<string>) {
    forall i :: 0 <= i < |lines| ==>
      SplitHeader(lines[i]).Some? && ToLower(SplitHeader(lines[i]).value.0) !in {"content-length", "transfer-encoding"}
  }

  lemma {:induction false} CollectFramesNothing(c: Context, lines: seq<string>)
    requires c.state.ExpectHeaders? && FramesNothing(lines)
    requires "content-length" !in c.request.headers && "transfer-encoding" !in c.request.headers
    ensures var d := Collect(c, lines);
            "content-length" !in d.request.headers && "transfer-encoding" !in d.request.headers && d.request.body == c.request.body
    decreases |lines|
  {
    hide SplitHeader, ToLower;
    if lines != [] {
      var (key, value) := SplitHeader(lines[0]).value;
      var rest := lines[1..];
      assert forall i :: 0 <= i < |rest| ==> rest[i] == lines[i + 1];
      CollectFramesNothing(c.(request := c.request.AddHeader(key, value), headerBytes := c.headerBytes + |lines[0]| + 2), rest);
    }
  }

  lemma StandardNames()
    ensures ToLower("content-length") == "content-length" && ToLower("transfer-encoding") == "transfer-encoding"
    ensures ToLower("") == "" && !Contains("", "chunked")
  {
  }

  /** A request that declares no body is complete at its blank line. */
  lemma BodilessRequest(maxBody: nat, first: string, lines: seq<string>, t: string)
    requires NoCrlf(first) && AreHeaderLines(lines)
    requires Acceptable(first, lines) && FramesNothing(lines)
    ensures var p := Parse(Fresh(maxBody), first + "\r\n" + (Lines(lines) + ("\r\n" + t)));
            p.rest == t && p.state.state.GotAll? && p.state.request.body == ""
  {
    hide Parse, NoCrlf, Acceptable, Collect, Lines, AreHeaderLines, FramesNothing, ParseRequestLine, ToLower, Contains, Strtoul;
    HeadPassesIff(maxBody, first, lines, "\r\n" + t);
    var c := Collect(AfterLine(maxBody, first), lines);
    CollectFramesNothing(AfterLine(maxBody, first), lines);
    StandardNames();
    BlankLine(c, t);
    ParseStep(EndOfHeaders(c).state, t);
  }

  // ---- Repeated headers ---------------------------------------------------------------------

  predicate Named(line: string, key: string) {
    SplitHeader(line).Some? && ToLower(SplitHeader(line).value.0) == key
  }

  /** Of several lines with the same name, in any case, the last one counts. */
  lemma {:induction false} LastHeaderCounts(c: Context, lines: seq<string>, i: nat, key: string)
    requires c.state.ExpectHeaders? && AllHaveColon(lines) && i < |lines| && Named(lines[i], key)
    requires forall j :: i < j < |lines| ==> !Named(lines[j], key)
    ensures var d := Collect(c, lines); key in d.request.headers && d.request.headers[key] == SplitHeader(lines[i]).value.1
    decreases |lines|
  {
    hide SplitHeader, ToLower;
    SplitsIff(lines[0]);
    var (k, value) := SplitHeader(lines[0]).value;
    var rest := lines[1..];
    assert forall j :: 0 <= j < |rest| ==> rest[j] == lines[j + 1];
    var c1: Context := c.(request := c.request.AddHeader(k, value), headerBytes := c.headerBytes + |lines[0]| + 2);
    if i > 0 {
      LastHeaderCounts(c1, rest, i - 1, key);
    } else {
      OthersKeep(c1, rest, key);
    }
  }

  lemma {:induction false} OthersKeep(c: Context, lines: seq<string>, key: string)
    requires c.state.ExpectHeaders? && key in c.request.headers
    requires forall j :: 0 <= j < |lines| ==> !Named(lines[j], key)
    ensures var d := Collect(c, lines); key in d.request.headers && d.request.headers[key] == c.request.headers[key]
    decreases |lines|
  {
    hide SplitHeader, ToLower;
    if lines != [] && SplitHeader(lines[0]).Some? {
      var (k, value) := SplitHeader(lines[0]).value;
      assert !Named(lines[0], key);
      OthersKeep(c.(request := c.request.AddHeader(k, value), headerBytes := c.headerBytes + |lines[0]| + 2), lines[1..], key);
    }
  }
}
