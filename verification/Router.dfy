/** The router: paths split into segments, patterns with named segments, and the
    choice between a handler, 405 and 404 (http/router.cc). */
module Router {

  import opened Text
  import opened Url
  import opened HttpMessage

  // ---- Splitting --------------------------------------------------------------------------

  /** The segments between slashes; empty ones vanish. */
  function Split(path: string): seq<string>
    decreases |path|
  {
    if path == "" then []
    else if path[0] == '/' then Split(path[1..])
    else
      var j := Find(path, '/', 0);
      SlashLater(path);
      [path[..j]] + Split(path[j..])
  }

  lemma SlashLater(path: string)
    requires path != "" && path[0] != '/'
    ensures Find(path, '/', 0) > 0
  {
  }

  lemma SplitSlash(path: string, i: nat)
    requires i < |path| && path[i] == '/'
    ensures Split(path[i..]) == Split(path[i + 1..])
  {
    assert path[i..][1..] == path[i + 1..];
  }

  lemma SplitSegment(path: string, i: nat)
    requires i < |path| && path[i] != '/'
    ensures var j := Find(path, '/', i); i < j && Split(path[i..]) == [path[i..j]] + Split(path[j..])
  {
    hide Find;
    var j, t := Find(path, '/', i), path[i..];
    FindFrom(path, '/', i, i);
    SlashLater(t);
    assert t[..j - i] == path[i..j] && t[j - i..] == path[j..];
  }

  method SplitPath(path: string) returns (segs: seq<string>)
    ensures segs == Split(path)
  {
    hide Split, Find;
    segs := [];
    var i := 0;
    assert path[0..] == path;
    while i < |path|
      invariant i <= |path| && Split(path) == segs + Split(path[i..])
      decreases |path| - i
    {
      if path[i] == '/' {
        SplitSlash(path, i);
        i := i + 1;
      } else {
        SplitSegment(path, i);
        var j := Find(path, '/', i);
        ghost var before, rest := segs, Split(path[j..]);
        segs := segs + [path[i..j]];
        assert before + ([path[i..j]] + rest) == segs + rest;
        i := j;
      }
    }
    SplitNothing();
    assert path[i..] == "";
  }

  lemma SplitNothing()
    ensures Split("") == []
  {
  }

  /** A path with these segments. */
  function PathOf(segs: seq<string>): string {
    if segs == [] then "" else "/" + segs[0] + PathOf(segs[1..])
  }

  predicate Segment(s: string) {
    s != "" && Lacks(s, '/')
  }

  predicate Segments(segs: seq<string>) {
    forall i :: 0 <= i < |segs| ==> Segment(segs[i])
  }

  /** Splitting undoes joining. */
  lemma {:induction false} SplitPathOf(segs: seq<string>)
    requires Segments(segs)
    ensures Split(PathOf(segs)) == segs
    decreases |segs|
  {
    hide Find;
    if segs == [] {
      SplitNothing();
    } else {
      var p, rest := PathOf(segs), PathOf(segs[1..]);
      SplitPathOf(segs[1..]);
      var t := segs[0] + rest;
      assert p[1..] == t && t != "" && t[0] == segs[0][0] != '/';
      assert Find(t, '/', 0) == |segs[0]| by {
        FindIs(t, '/', 0, |segs[0]|);
      }
      assert t[..|segs[0]|] == segs[0] && t[|segs[0]|..] == rest;
      assert segs == [segs[0]] + segs[1..];
    }
  }

  // ---- Routes ----------------------------------------------------------------------------------

  datatype Piece = Literal(text: string) | Param(name: string)

  /** "{name}" names a segment to capture. */
  predicate Braced(seg: string) {
    |seg| >= 2 && seg[0] == '{' && seg[|seg| - 1] == '}'
  }

  function PieceOf(seg: string): Piece {
    if Braced(seg) then Param(seg[1..|seg| - 1]) else Literal(seg)
  }

  function Pieces(segs: seq<string>): seq<Piece> {
    if segs == [] then [] else [PieceOf(segs[0])] + Pieces(segs[1..])
  }

  datatype Route = Route(verb: Method, pieces: seq<Piece>)

  lemma PiecesAt(segs: seq<string>, i: nat)
    requires i < |segs|
    ensures Pieces(segs[i..]) == [PieceOf(segs[i])] + Pieces(segs[i + 1..])
  {
    assert segs[i..][1..] == segs[i + 1..];
  }

  method AddRoute(routes: seq<Route>, verb: Method, pattern: string) returns (r: seq<Route>)
    ensures r == routes + [Route(verb, Pieces(Split(pattern)))]
  {
    hide Split, Pieces;
    var segs := SplitPath(pattern);
    var pieces: seq<Piece> := [];
    assert segs[0..] == segs;
    for i := 0 to |segs|
      invariant Pieces(segs) == pieces + Pieces(segs[i..])
    {
      PiecesAt(segs, i);
      ghost var before, rest := pieces, Pieces(segs[i + 1..]);
      var seg := segs[i];
      if |seg| >= 2 && seg[0] == '{' && seg[|seg| - 1] == '}' {
        pieces := pieces + [Param(seg[1..|seg| - 1])];
      } else {
        pieces := pieces + [Literal(seg)];
      }
      assert before + ([PieceOf(seg)] + rest) == pieces + rest;
    }
    NoPieces();
    assert segs[|segs|..] == [] && pieces + [] == pieces;
    r := routes + [Route(verb, pieces)];
  }

  lemma NoPieces()
    ensures Pieces([]) == []
  {
  }

  /** What a route captures from a path; a later segment of the same name overwrites. */
  function Capture(pieces: seq<Piece>, segs: seq<string>, captured: Params): Option<Params>
    requires |pieces| == |segs|
    decreases |pieces|
  {
    if pieces == [] then Some(captured)
    else match pieces[0]
      case Param(name) => Capture(pieces[1..], segs[1..], captured[name := Decode(segs[0], false)])
      case Literal(text) => if text != segs[0] then None else Capture(pieces[1..], segs[1..], captured)
  }

  function Match(pieces: seq<Piece>, segs: seq<string>): Option<Params> {
    if |pieces| != |segs| then None else Capture(pieces, segs, map[])
  }

  method MatchRoute(pieces: seq<Piece>, segs: seq<string>) returns (r: Option<Params>)
    ensures r == Match(pieces, segs)
  {
    hide Decode;
    if |pieces| != |segs| {
      return None;
    }
    var captured: Params := map[];
    for i := 0 to |pieces|
      invariant Match(pieces, segs) == Capture(pieces[i..], segs[i..], captured)
    {
      assert pieces[i..][1..] == pieces[i + 1..] && segs[i..][1..] == segs[i + 1..];
      match pieces[i]
      case Param(name) => captured := captured[name := Decode(segs[i], false)];
      case Literal(text) =>
        if text != segs[i] {
          return None;
        }
    }
    r := Some(captured);
  }

  // ---- The round trip ------------------------------------------------------------------------------

  /** The text of a piece in a pattern. */
  function PieceText(p: Piece): string {
    match p
    case Literal(text) => text
    case Param(name) => "{" + name + "}"
  }

  predicate GoodPiece(p: Piece) {
    match p
    case Literal(text) => Segment(text) && !Braced(text)
    case Param(name) => Lacks(name, '/')
  }

  predicate GoodPieces(ps: seq<Piece>) {
    forall i :: 0 <= i < |ps| ==> GoodPiece(ps[i])
  }

  function Texts(ps: seq<Piece>): seq<string> {
    if ps == [] then [] else [PieceText(ps[0])] + Texts(ps[1..])
  }

  function Pattern(ps: seq<Piece>): string {
    PathOf(Texts(ps))
  }

  lemma PieceRoundTrip(p: Piece)
    requires GoodPiece(p)
    ensures PieceOf(PieceText(p)) == p && Segment(PieceText(p))
  {
    if p.Param? {
      var t := PieceText(p);
      assert t[1..|t| - 1] == p.name;
      LacksConcat("{", p.name, '/');
      LacksConcat("{" + p.name, "}", '/');
    }
  }

  lemma {:induction false} PatternRoundTrip(ps: seq<Piece>)
    requires GoodPieces(ps)
    ensures Segments(Texts(ps)) && Pieces(Texts(ps)) == ps
    decreases |ps|
  {
    hide PieceOf, PieceText, Segment;
    if ps != [] {
      PieceRoundTrip(ps[0]);
      PatternRoundTrip(ps[1..]);
      assert Texts(ps)[1..] == Texts(ps[1..]);
      assert ps == [ps[0]] + ps[1..];
    }
  }

  /** Values for the parameters: nonempty, of bytes. */
  predicate Fits(ps: seq<Piece>, values: map<string, string>) {
    forall i :: 0 <= i < |ps| && ps[i].Param? ==>
      ps[i].name in values && values[ps[i].name] != "" && Bytes(values[ps[i].name])
  }

  /** The path a client writes for these values. */
  function Filled(ps: seq<Piece>, values: map<string, string>): seq<string>
    requires Fits(ps, values)
  {
    if ps == [] then []
    else [match ps[0] case Literal(text) => text case Param(name) => Encode(values[name])] + Filled(ps[1..], values)
  }

  function Names(ps: seq<Piece>): set<string> {
    set i | 0 <= i < |ps| && ps[i].Param? :: ps[i].name
  }

  lemma {:induction false} FilledSegments(ps: seq<Piece>, values: map<string, string>)
    requires GoodPieces(ps) && Fits(ps, values)
    ensures Segments(Filled(ps, values)) && |Filled(ps, values)| == |ps|
    decreases |ps|
  {
    hide Encode;
    if ps != [] {
      FilledSegments(ps[1..], values);
      if ps[0].Param? { EncodedIsPlain(values[ps[0].name]); }
      assert Filled(ps, values)[1..] == Filled(ps[1..], values);
    }
  }

  lemma NamesStep(ps: seq<Piece>)
    requires ps != []
    ensures Names(ps) == Names(ps[1..]) + (if ps[0].Param? then {ps[0].name} else {})
  {
    forall n | n in Names(ps) ensures n in Names(ps[1..]) + (if ps[0].Param? then {ps[0].name} else {}) {
      var i :| 0 <= i < |ps| && ps[i].Param? && ps[i].name == n;
      if i > 0 { assert ps[1..][i - 1] == ps[i]; }
    }
    forall n | n in Names(ps[1..]) ensures n in Names(ps) {
      var i :| 0 <= i < |ps| - 1 && ps[1..][i].Param? && ps[1..][i].name == n;
      assert ps[i + 1] == ps[1..][i];
    }
  }

  /** `captured` with the values of `names` written over it. */
  function Overlay(captured: Params, names: set<string>, values: map<string, string>): Params
    requires names <= values.Keys
  {
    map n | n in captured.Keys + names :: if n in names then values[n] else captured[n]
  }

  lemma OverlayStep(captured: Params, name: string, names: set<string>, values: map<string, string>)
    requires names <= values.Keys && name in values
    ensures Overlay(captured[name := values[name]], names, values) == Overlay(captured, names + {name}, values)
  {
  }

  lemma {:induction false} CaptureFilled(ps: seq<Piece>, values: map<string, string>, captured: Params)
    requires GoodPieces(ps) && Fits(ps, values) && |Filled(ps, values)| == |ps|
    ensures Names(ps) <= values.Keys && Capture(ps, Filled(ps, values), captured) == Some(Overlay(captured, Names(ps), values))
    decreases |ps|
  {
    hide Encode, Decode, Names, Overlay;
    if ps == [] {
      NoNames();
      NothingOver(captured, values);
    } else {
      assert Filled(ps, values)[1..] == Filled(ps[1..], values);
      NamesStep(ps);
      match ps[0]
      case Literal(_) =>
        CaptureFilled(ps[1..], values, captured);
        assert Names(ps) == Names(ps[1..]);
      case Param(name) =>
        DecodeEncode(values[name], false);
        CaptureFilled(ps[1..], values, captured[name := values[name]]);
        OverlayStep(captured, name, Names(ps[1..]), values);
    }
  }

  lemma NothingOver(captured: Params, values: map<string, string>)
    ensures Overlay(captured, {}, values) == captured
  {
  }

  lemma NoNames()
    ensures Names([]) == {}
  {
  }

  /** A path made by encoding nonempty values into a pattern is matched by that
      pattern's route, and the route captures exactly those values. */
  lemma RouteRoundTrip(ps: seq<Piece>, values: map<string, string>)
    requires GoodPieces(ps) && Fits(ps, values)
    ensures Names(ps) <= values.Keys
    ensures var route := Pieces(Split(Pattern(ps)));
            Match(route, Split(PathOf(Filled(ps, values)))) == Some(map n | n in Names(ps) :: values[n])
  {
    hide Split, PathOf, Filled, Capture, Names, Segments;
    PatternRoundTrip(ps);
    SplitPathOf(Texts(ps));
    FilledSegments(ps, values);
    SplitPathOf(Filled(ps, values));
    CaptureFilled(ps, values, map[]);
    assert Overlay(map[], Names(ps), values) == map n | n in Names(ps) :: values[n];
  }

  /** The i-th segment is what the i-th piece asks for. */
  ghost predicate Agrees(pieces: seq<Piece>, segs: seq<string>, i: nat)
    requires i < |pieces| == |segs|
  {
    pieces[i].Literal? ==> pieces[i].text == segs[i]
  }

  lemma {:induction false} CapturesIff(pieces: seq<Piece>, segs: seq<string>, captured: Params)
    requires |pieces| == |segs|
    ensures Capture(pieces, segs, captured).Some? <==> forall i :: 0 <= i < |pieces| ==> Agrees(pieces, segs, i)
    decreases |pieces|
  {
    hide Decode;
    if pieces != [] {
      var ps, ss := pieces[1..], segs[1..];
      assert forall i :: 0 <= i < |ps| ==> (Agrees(ps, ss, i) <==> Agrees(pieces, segs, i + 1));
      assert forall i :: 0 < i < |pieces| ==> (Agrees(pieces, segs, i) <==> Agrees(ps, ss, i - 1));
      CapturesIff(ps, ss, if pieces[0].Param? then captured[pieces[0].name := Decode(segs[0], false)] else captured);
      assert (forall i :: 0 <= i < |pieces| ==> Agrees(pieces, segs, i)) <==>
             Agrees(pieces, segs, 0) && forall i :: 0 <= i < |ps| ==> Agrees(ps, ss, i);
    }
  }

  /** A route matches exactly the paths with as many segments that agree with its
      literal pieces. */
  lemma MatchesIff(pieces: seq<Piece>, segs: seq<string>)
    ensures Match(pieces, segs).Some? <==>
              |pieces| == |segs| && forall i :: 0 <= i < |pieces| && pieces[i].Literal? ==> segs[i] == pieces[i].text
  {
    hide Capture;
    if |pieces| == |segs| {
      CapturesIff(pieces, segs, map[]);
      if forall i :: 0 <= i < |pieces| && pieces[i].Literal? ==> segs[i] == pieces[i].text {
        assert forall i :: 0 <= i < |pieces| ==> Agrees(pieces, segs, i);
      }
      if forall i :: 0 <= i < |pieces| ==> Agrees(pieces, segs, i) {
        forall i | 0 <= i < |pieces| && pieces[i].Literal? ensures segs[i] == pieces[i].text {
          assert Agrees(pieces, segs, i);
        }
      }
    }
  }

  /** The segments are nonempty and hold no slash, and joined they are the path without
      its slashes. */
  lemma {:induction false} SplitCoversPath(path: string)
    ensures Segments(Split(path)) && Joined(Split(path)) == NoSlashes(path)
    decreases |path|
  {
    hide Find;
    if path != "" {
      assert path == [path[0]] + path[1..];
      if path[0] == '/' {
        SplitCoversPath(path[1..]);
      } else {
        var j := Find(path, '/', 0);
        SlashLater(path);
        FindIsFirst(path, '/', 0);
        SplitCoversPath(path[j..]);
        assert path == path[..j] + path[j..];
        NoSlashesConcat(path[..j], path[j..]);
        NoneToDrop(path[..j]);
        assert Split(path)[1..] == Split(path[j..]);
      }
    }
  }

  function Joined(segs: seq<string>): string {
    if segs == [] then "" else segs[0] + Joined(segs[1..])
  }

  function NoSlashes(s: string): string {
    if s == "" then "" else (if s[0] == '/' then "" else [s[0]]) + NoSlashes(s[1..])
  }

  lemma {:induction false} NoSlashesConcat(a: string, b: string)
    ensures NoSlashes(a + b) == NoSlashes(a) + NoSlashes(b)
    decreases |a|
  {
    if a == "" {
      assert a + b == b;
    } else {
      NoSlashesConcat(a[1..], b);
      assert (a + b)[1..] == a[1..] + b;
    }
  }

  lemma {:induction false} NoneToDrop(s: string)
    requires Lacks(s, '/')
    ensures NoSlashes(s) == s
    decreases |s|
  {
    if s != "" {
      NoneToDrop(s[1..]);
      assert s == [s[0]] + s[1..];
    }
  }

  // ---- Dispatch ------------------------------------------------------------------------------------

  datatype Outcome = Handled(route: nat, params: Params) | MethodNotAllowed | NotFound

  ghost predicate Serves(r: Route, verb: Method, segs: seq<string>) {
    Match(r.pieces, segs).Some? && r.verb == verb
  }

  /** The first route that matches path and method handles the request; 405 tells a
      path known for other methods from an unknown one. */
  method RouteRequest(routes: seq<Route>, verb: Method, path: string) returns (o: Outcome)
    ensures o.Handled? ==>
              && o.route < |routes| && Serves(routes[o.route], verb, Split(path))
              && Match(routes[o.route].pieces, Split(path)) == Some(o.params)
              && forall k :: 0 <= k < o.route ==> !Serves(routes[k], verb, Split(path))
    ensures !o.Handled? ==> forall k :: 0 <= k < |routes| ==> !Serves(routes[k], verb, Split(path))
    ensures o.MethodNotAllowed? ==> exists k :: 0 <= k < |routes| && Match(routes[k].pieces, Split(path)).Some?
    ensures o.NotFound? ==> forall k :: 0 <= k < |routes| ==> Match(routes[k].pieces, Split(path)).None?
  {
    hide Match, Split;
    var segs := SplitPath(path);
    var pathMatched := false;
    for i := 0 to |routes|
      invariant forall k :: 0 <= k < i ==> !Serves(routes[k], verb, segs)
      invariant pathMatched <==> exists k :: 0 <= k < i && Match(routes[k].pieces, segs).Some?
    {
      var params := MatchRoute(routes[i].pieces, segs);
      if params.Some? {
        pathMatched := true;
        if routes[i].verb == verb {
          return Handled(i, params.value);
        }
      }
    }
    o := if pathMatched then MethodNotAllowed else NotFound;
  }
}
