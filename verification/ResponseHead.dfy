/** Which response heads the client's parser accepts (http/response_parser.cc). */
module ResponseHead {
  import opened Text
  import opened Incremental
  import opened HttpMessage
  import opened ResponseParser

  // ---- The status line ------------------------------------------------------------------

  predicate Spells(line: string, version: string, code: string, reason: string) {
    && (version == "HTTP/1.0" || version == "HTTP/1.1")
    && Lacks(code, ' ') && 100 <= Atoi(code) <= 599
    && ((reason == "" && line == version + " " + code) || line == version + " " + code + " " + reason)
  }

  /** One of the two versions and a code from 100 to 599, perhaps with a reason. */
  ghost predicate IsStatusLine(line: string) {
    exists version: string, code: string, reason: string :: Spells(line, version, code, reason)
  }

  lemma AcceptedSpells(line: string)
    requires ParseStatusLine(line).Some?
    ensures IsStatusLine(line)
  {
    hide Find, Atoi;
    var sp1 := Find(line, ' ', 0);
    var sp2 := Find(line, ' ', sp1 + 1);
    FindIsFirst(line, ' ', 0);
    FindIsFirst(line, ' ', sp1 + 1);
    var version, code := line[..sp1], line[sp1 + 1..sp2];
    if sp2 == |line| {
      assert line == version + " " + code;
      assert Spells(line, version, code, "");
    } else {
      var reason := line[sp2 + 1..];
      assert line == version + " " + code + " " + reason;
      assert Spells(line, version, code, reason);
    }
  }

  lemma SpelledAccepted(line: string, version: string, code: string, reason: string)
    requires Spells(line, version, code, reason)
    ensures ParseStatusLine(line) == Some((Atoi(code), reason))
  {
    hide Find, Atoi;
    if reason == "" && line == version + " " + code {
      FindSeparator(version, ' ', code, 0);
      assert line == version + [' '] + code;
      FindIs(line, ' ', |version| + 1, |line|);
      assert line[..|version|] == version && line[|version| + 1..|line|] == code;
    } else {
      FirstSeparator(version, code, reason);
      SecondSeparator(version, code, reason);
      Words(version, code, reason, line);
    }
  }

  lemma AcceptedIff(line: string)
    ensures ParseStatusLine(line).Some? <==> IsStatusLine(line)
  {
    hide ParseStatusLine, Spells;
    if ParseStatusLine(line).Some? {
      AcceptedSpells(line);
    } else if IsStatusLine(line) {
      var version: string, code: string, reason: string :| Spells(line, version, code, reason);
      SpelledAccepted(line, version, code, reason);
    }
  }

  // ---- The header lines -----------------------------------------------------------------

  lemma RefusedLine(c: Parser, line: string, t: string)
    requires c.state.ExpectStatusLine? || c.state.ExpectHeaders?
    requires NoCrlf(line) && OnLine(c, line).Halt?
    ensures Parse(c, line + "\r\n" + t).state == OnLine(c, line).state
  {
    hide Parse, Strtoul, ParseStatusLine, SplitHeader, Contains, NoCrlf;
    var buf := line + "\r\n" + t;
    CrlfEndsLine(line, t);
    assert buf[..|line|] == line;
    assert Step(c, buf) == OnLine(c, line);
    ParseStep(c, buf);
  }

  /** One header line, in terms of its colon and its length. */
  lemma OneLine(c: Parser, line: string)
    requires c.state.ExpectHeaders? && line != ""
    ensures var o := OnLine(c, line);
            if !Lacks(line, ':') && c.headerBytes + |line| + 2 <= MAX_HEADER_BYTES then
              o.Advance? && o.state.state.ExpectHeaders? && o.state.headerBytes == c.headerBytes + |line| + 2
            else o.Halt? && o.state.state.Error?
  {
    hide SplitHeader, ToLower, Strtoul;
    SplitsIff(line);
  }

  predicate Fits(c: Parser, lines: seq<string>) {
    lines == [] || c.headerBytes + |Lines(lines)| <= MAX_HEADER_BYTES
  }

  /** The parser reads on behind accepted lines, and stops at the first refused one. */
  lemma {:induction false} HeaderLinesPassIff(c: Parser, lines: seq<string>, t: string) returns (d: Parser)
    requires c.state.ExpectHeaders? && AreHeaderLines(lines)
    ensures var p := Parse(c, Lines(lines) + t);
            if AllHaveColon(lines) && Fits(c, lines) then d.state.ExpectHeaders? && p == Parse(d, t)
            else p.state.state.Error?
    decreases |lines|
  {
    hide Parse, NoCrlf, Lacks, AreHeaderLines, AllHaveColon, OnLine;
    d := c;
    if lines == [] {
      assert "" + t == t;
      assert AllHaveColon([]) by { NoLines(); }
    } else {
      var line, rest := lines[0], lines[1..];
      FirstLine(lines);
      LinesCons(lines, t);
      OneLine(c, line);
      var o := OnLine(c, line);
      if o.Halt? {
        RefusedLine(c, line, Lines(rest) + t);
      } else {
        ParseLine(c, line, Lines(rest) + t);
        d := HeaderLinesPassIff(o.state, rest, t);
      }
    }
  }

  // ---- Whole heads ------------------------------------------------------------------------

  predicate PastHead(c: Parser) {
    !c.state.ExpectStatusLine? && !c.state.ExpectHeaders? && !c.state.Error?
  }

  lemma BodyStep(c: Parser, buf: string)
    requires PastHead(c)
    ensures !Step(c, buf).Halt? && (Step(c, buf).Advance? ==> PastHead(Step(c, buf).state))
  {
    hide Strtoul;
  }

  lemma {:induction false} BodyNeverMalformed(c: Parser, buf: string)
    requires PastHead(c)
    ensures !Parse(c, buf).state.state.Error?
    decreases |buf|
  {
    hide Parse, Step;
    ParseStep(c, buf);
    BodyStep(c, buf);
    if Step(c, buf).Advance? {
      BodyNeverMalformed(Step(c, buf).state, buf[Step(c, buf).used..]);
    }
  }

  ghost predicate Acceptable(first: string, lines: seq<string>) {
    IsStatusLine(first) && AllHaveColon(lines) && |Lines(lines)| <= MAX_HEADER_BYTES
  }

  /** A response with a complete head fails exactly when its status line does not have
      the form, a header line lacks its colon, or the header lines exceed the limit;
      no body makes it fail. */
  lemma MalformedIff(first: string, lines: seq<string>, t: string)
    requires NoCrlf(first) && AreHeaderLines(lines)
    ensures Parse(Initial, first + "\r\n" + (Lines(lines) + ("\r\n" + t))).state.state.Error? <==> !Acceptable(first, lines)
  {
    hide Parse, NoCrlf, AreHeaderLines, ParseStatusLine, IsStatusLine, AllHaveColon, DefaultReason, Contains;
    AcceptedIff(first);
    var rest := Lines(lines) + ("\r\n" + t);
    if !IsStatusLine(first) {
      RefusedLine(Initial, first, rest);
    } else {
      ParseLine(Initial, first, rest);
      var c := OnLine(Initial, first).state;
      var d := HeaderLinesPassIff(c, lines, "\r\n" + t);
      if AllHaveColon(lines) && Fits(c, lines) {
        assert "" + "\r\n" + t == "\r\n" + t;
        assert NoCrlf("") by { EmptyHasNoCrlf(); }
        ParseLine(d, "", t);
        BodyNeverMalformed(OnLine(d, "").state, t);
      }
    }
  }
}
