/** The request and response records that the parsers build and the printers
    write (http/http_request.h, http/http_response.h). */
module HttpMessage {
  import opened Text

  datatype Method = Invalid | Get | Post | Put | Delete | Head | Options | Patch

  function MethodToString(m: Method): string {
    match m
    case Get => "GET"
    case Post => "POST"
    case Put => "PUT"
    case Delete => "DELETE"
    case Head => "HEAD"
    case Options => "OPTIONS"
    case Patch => "PATCH"
    case Invalid => "INVALID"
  }

  function MethodFromString(s: string): Method {
    if s == "GET" then Get
    else if s == "POST" then Post
    else if s == "PUT" then Put
    else if s == "DELETE" then Delete
    else if s == "HEAD" then Head
    else if s == "OPTIONS" then Options
    else if s == "PATCH" then Patch
    else Invalid
  }

  type HeaderMap = map<string, string>

  function Lookup(headers: HeaderMap, key: string): string {
    if key in headers then headers[key] else ""
  }

  /** Header keys of a request are kept in lower case. */
  datatype Request = Request(verb: Method, path: string, query: string, version: string, headers: HeaderMap, body: string)
  {
    function AddHeader(key: string, value: string): Request {
      this.(headers := headers[ToLower(key) := value])
    }

    function Header(key: string): string {
      Lookup(headers, ToLower(key))
    }

    /** Keep-alive is the default of HTTP/1.1 and opt-in for HTTP/1.0. */
    predicate KeepAlive() {
      var conn := ToLower(Header("connection"));
      if version == "HTTP/1.1" then conn != "close" else conn == "keep-alive"
    }
  }

  /** The Connection header of the request, read without regard to case. */
  predicate Says(r: Request, word: string) {
    "connection" in r.headers && ToLower(r.headers["connection"]) == word
  }

  /** HTTP/1.1 stays open unless the request says close; HTTP/1.0 closes unless it
      says keep-alive. */
  lemma KeepAliveIff(r: Request)
    ensures r.version == "HTTP/1.1" ==> (r.KeepAlive() <==> !Says(r, "close"))
    ensures r.version == "HTTP/1.0" ==> (r.KeepAlive() <==> Says(r, "keep-alive"))
  {
    assert ToLower("connection") == "connection" && ToLower("") == "";
  }

  const EmptyRequest := Request(Invalid, "", "", "HTTP/1.1", map[], "")

  /** Header keys of a response are kept as given. */
  datatype Response = Response(code: int, reason: string, headers: HeaderMap, body: string, keepAlive: bool)
  {
    function SetStatus(c: int, r: string): Response {
      this.(code := c, reason := if r == "" then DefaultReason(c) else r)
    }
  }

  const EmptyResponse := Response(200, "OK", map[], "", true)

  function DefaultReason(code: int): string {
    match code
    case 200 => "OK"
    case 201 => "Created"
    case 204 => "No Content"
    case 301 => "Moved Permanently"
    case 302 => "Found"
    case 304 => "Not Modified"
    case 400 => "Bad Request"
    case 401 => "Unauthorized"
    case 403 => "Forbidden"
    case 404 => "Not Found"
    case 405 => "Method Not Allowed"
    case 408 => "Request Timeout"
    case 413 => "Payload Too Large"
    case 429 => "Too Many Requests"
    case 500 => "Internal Server Error"
    case 501 => "Not Implemented"
    case 503 => "Service Unavailable"
    case _ => "OK"
  }

  // ---- Header lines, common to both directions ----------------------------

  /** "key: value"; the value loses its leading spaces.  None without a colon. */
  function SplitHeader(line: string): (r: Option<(string, string)>) {
    var colon := Find(line, ':', 0);
    if colon == |line| then None
    else Some((line[..colon], line[PastSpaces(line, colon + 1)..]))
  }

  function HeaderLine(key: string, value: string): string {
    key + ": " + value + "\r\n"
  }

  /** What a header must satisfy to survive being printed and parsed. */
  predicate Printable(key: string, value: string) {
    && NoCrlf(key) && Lacks(key, ':')
    && NoCrlf(value) && (value == "" || value[0] != ' ')
  }

  lemma HeaderRoundTrip(key: string, value: string)
    requires Printable(key, value)
    ensures SplitHeader(key + ": " + value) == Some((key, value))
    ensures NoCrlf(key + ": " + value) && key + ": " + value != ""
  {
    hide Find, PastSpaces;
    var line := key + ": " + value;
    NoCrlfConcat(key, ": ", value);
    assert line == key + [':'] + (" " + value);
    FindSeparator(key, ':', " " + value, 0);
    PastOneSpace(line, |key| + 1);
    assert line[..|key|] == key && line[|key| + 2..] == value;
  }

  /** A line is a header exactly when it holds a colon. */
  lemma SplitsIff(line: string)
    ensures SplitHeader(line).None? <==> Lacks(line, ':')
  {
    hide Find, PastSpaces;
    FindIsFirst(line, ':', 0);
  }

  /** Any number of spaces after the colon is dropped. */
  lemma SpacesDropped(key: string, spaces: string, value: string)
    requires Lacks(key, ':') && (value == "" || value[0] != ' ')
    requires forall i :: 0 <= i < |spaces| ==> spaces[i] == ' '
    ensures SplitHeader(key + ":" + spaces + value) == Some((key, value))
  {
    hide Find, PastSpaces;
    var line := key + ":" + spaces + value;
    assert line == key + [':'] + (spaces + value);
    FindSeparator(key, ':', spaces + value, 0);
    PastAll(line, |key| + 1, |key| + 1 + |spaces|);
    assert line[..|key|] == key && line[|key| + 1 + |spaces|..] == value;
  }

  /** Lines as they stand on the wire, each with its CR LF. */
  function Lines(lines: seq<string>): string {
    if lines == [] then "" else lines[0] + "\r\n" + Lines(lines[1..])
  }

  /** Complete header lines: not blank, and none holds a CR LF. */
  predicate AreHeaderLines(lines: seq<string>) {
    forall i :: 0 <= i < |lines| ==> NoCrlf(lines[i]) && lines[i] != ""
  }

  predicate AllHaveColon(lines: seq<string>) {
    forall i :: 0 <= i < |lines| ==> !Lacks(lines[i], ':')
  }

  lemma NoLines()
    ensures AllHaveColon([])
  {
  }

  lemma FirstLine(lines: seq<string>)
    requires lines != [] && AreHeaderLines(lines)
    ensures var line, rest := lines[0], lines[1..];
            && NoCrlf(line) && line != "" && AreHeaderLines(rest)
            && (AllHaveColon(lines) <==> !Lacks(line, ':') && AllHaveColon(rest))
  {
    hide NoCrlf, Lacks;
    assert forall i :: 0 <= i < |lines[1..]| ==> lines[1..][i] == lines[i + 1];
    assert forall i :: 0 < i < |lines| ==> lines[i] == lines[1..][i - 1];
  }

  lemma LinesCons(lines: seq<string>, t: string)
    requires lines != []
    ensures Lines(lines) + t == lines[0] + "\r\n" + (Lines(lines[1..]) + t)
    ensures |Lines(lines)| == |lines[0]| + 2 + |Lines(lines[1..])|
  {
  }

  predicate Listed(order: seq<string>, headers: HeaderMap) {
    forall k :: k in order ==> k in headers
  }

  /** The lines of the headers listed in `order`, leaving out the keys in `skip`. */
  function HeaderBlock(headers: HeaderMap, order: seq<string>, skip: set<string>): string
    requires Listed(order, headers)
  {
    if order == [] then ""
    else (if order[0] in skip then "" else HeaderLine(order[0], headers[order[0]]))
         + HeaderBlock(headers, order[1..], skip)
  }

  /** `order` lists every key once: an order in which a std::map can be walked.
      A std::map walks its keys in ascending order, which is one of these. */
  ghost predicate Enumerates(order: seq<string>, headers: HeaderMap) {
    && Listed(order, headers) && (forall k :: k in headers ==> k in order)
    && (forall i, j :: 0 <= i < j < |order| ==> order[i] != order[j])
  }

  /** The headers a block carries. */
  function Sent(headers: HeaderMap, order: seq<string>, skip: set<string>): HeaderMap
    requires Listed(order, headers)
  {
    map k | k in order && k !in skip :: headers[k]
  }

  lemma SentCons(got: HeaderMap, headers: HeaderMap, order: seq<string>, skip: set<string>)
    requires Listed(order, headers)
    requires order != [] && order[0] !in skip
    ensures got[order[0] := headers[order[0]]] + Sent(headers, order[1..], skip) == got + Sent(headers, order, skip)
  {
  }

  lemma SentAll(headers: HeaderMap, order: seq<string>, skip: set<string>)
    requires Enumerates(order, headers)
    ensures Sent(headers, order, skip) == headers - skip
  {
  }

  // ---- Chunked framing, common to both directions ---------------------------

  /** A chunk as it stands on the wire: a size line (the number, perhaps an
      extension), the data, and two bytes the parser skips unread. */
  datatype Chunk = Chunk(sizeLine: string, data: string, sep: string)

  predicate WellFramed(k: Chunk) {
    NoCrlf(k.sizeLine) && k.data != "" && Strtoul(k.sizeLine, 16) == |k.data| && |k.sep| == 2
  }

  function Frame(k: Chunk): string {
    k.sizeLine + "\r\n" + k.data + k.sep
  }

  function Frames(chunks: seq<Chunk>): string {
    if chunks == [] then "" else Frame(chunks[0]) + Frames(chunks[1..])
  }

  function Payload(chunks: seq<Chunk>): string {
    if chunks == [] then "" else chunks[0].data + Payload(chunks[1..])
  }

  /** The spelling `to_string` in base 16 gives, with any extension after ';'. */
  lemma CanonicalChunk(data: string, ext: string)
    requires data != "" && |data| < U64
    requires NoCrlf(ext) && (ext == "" || ext[0] == ';')
    ensures WellFramed(Chunk(Print(|data|, 16) + ext, data, "\r\n"))
  {
    hide Strtoul, Print;
    StrtoulPrinted(|data|, 16, ext);
    PrintedHasNoCrlf(|data|, 16);
    var n := Print(|data|, 16);
    if ext == "" {
      assert n + ext == n;
    } else {
      var rest := ext[1..];
      forall p | 0 <= p < |rest|
        ensures !CrlfAt(rest, p)
      {
        assert !CrlfAt(ext, p + 1);
      }
      NoCrlfConcat(n, ";", rest);
      assert n + ext == n + ";" + rest;
    }
  }
}
