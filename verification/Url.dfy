/** Percent-encoding and query strings (http/url.cc; sections 2.1 and 2.3 of RFC 3986).
    A byte is a char below 256. */
module Url {

  import opened Text

  const HEX := "0123456789ABCDEF"

  function HexValue(c: char): (v: int)
    ensures -1 <= v < 16
  {
    if '0' <= c <= '9' then c as int - '0' as int
    else if 'a' <= c <= 'f' then c as int - 'a' as int + 10
    else if 'A' <= c <= 'F' then c as int - 'A' as int + 10
    else -1
  }

  predicate IsUnreserved(c: char) {
    'a' <= c <= 'z' || 'A' <= c <= 'Z' || '0' <= c <= '9' || c == '-' || c == '_' || c == '.' || c == '~'
  }

  predicate Bytes(s: string) {
    forall i :: 0 <= i < |s| ==> s[i] as int < 256
  }

  // ---- Encoding and decoding -------------------------------------------------------------

  function EncodeChar(c: char): string
    requires c as int < 256
  {
    if IsUnreserved(c) then [c] else ['%', HEX[c as int / 16], HEX[c as int % 16]]
  }

  function Encode(s: string): string
    requires Bytes(s)
  {
    if s == "" then "" else EncodeChar(s[0]) + Encode(s[1..])
  }

  /** Whether a well-formed escape starts the text. */
  predicate Escape(s: string) {
    |s| > 2 && s[0] == '%' && HexValue(s[1]) >= 0 && HexValue(s[2]) >= 0
  }

  function HexByte(hi: int, lo: int): char
    requires 0 <= hi < 16 && 0 <= lo < 16
  {
    (hi * 16 + lo) as char
  }

  function DecodeEscape(s: string): char
    requires Escape(s)
  {
    HexByte(HexValue(s[1]), HexValue(s[2]))
  }

  function DecodeChar(c: char, plus: bool): char {
    if c == '+' && plus then ' ' else c
  }

  /** Malformed escapes are kept literally. */
  function Decode(s: string, plus: bool): string {
    if s == "" then ""
    else if Escape(s) then [DecodeEscape(s)] + Decode(s[3..], plus)
    else [DecodeChar(s[0], plus)] + Decode(s[1..], plus)
  }

  lemma DecodeAt(s: string, i: nat, plus: bool)
    requires i < |s|
    ensures Escape(s[i..]) <==> s[i] == '%' && i + 2 < |s| && HexValue(s[i + 1]) >= 0 && HexValue(s[i + 2]) >= 0
    ensures Escape(s[i..]) ==>
              Decode(s[i..], plus) == [HexByte(HexValue(s[i + 1]), HexValue(s[i + 2]))] + Decode(s[i + 3..], plus)
    ensures !Escape(s[i..]) ==> Decode(s[i..], plus) == [DecodeChar(s[i], plus)] + Decode(s[i + 1..], plus)
  {
    var t := s[i..];
    assert |t| > 2 ==> t[3..] == s[i + 3..] && t[1] == s[i + 1] && t[2] == s[i + 2];
    assert t[1..] == s[i + 1..];
  }

  method UrlDecode(s: string, plus: bool) returns (out: string)
    ensures out == Decode(s, plus)
  {
    hide Decode, Escape, HexValue;
    out := "";
    var i := 0;
    while i < |s|
      invariant i <= |s| && Decode(s, plus) == out + Decode(s[i..], plus)
    {
      DecodeAt(s, i, plus);
      ghost var before, rest := out, Decode(s[i..], plus);
      if s[i] == '%' && i + 2 < |s| && HexValue(s[i + 1]) >= 0 && HexValue(s[i + 2]) >= 0 {
        out := out + [HexByte(HexValue(s[i + 1]), HexValue(s[i + 2]))];
        i := i + 3;
      } else {
        out := out + [if s[i] == '+' && plus then ' ' else s[i]];
        i := i + 1;
      }
      assert before + rest == out + rest[1..];
    }
    NothingLeft(s, plus);
  }

  lemma NothingLeft(s: string, plus: bool)
    ensures Decode(s[|s|..], plus) == ""
  {
  }

  lemma EncodeAt(s: string, i: nat)
    requires Bytes(s) && i < |s|
    ensures Encode(s[i..]) == EncodeChar(s[i]) + Encode(s[i + 1..])
  {
    assert s[i..][1..] == s[i + 1..];
  }

  method UrlEncode(s: string) returns (out: string)
    requires Bytes(s)
    ensures out == Encode(s)
  {
    hide Encode;
    out := "";
    for i := 0 to |s|
      invariant Encode(s) == out + Encode(s[i..])
    {
      EncodeAt(s, i);
      ghost var before, rest := out, Encode(s[i + 1..]);
      if IsUnreserved(s[i]) {
        out := out + [s[i]];
      } else {
        out := out + ['%', HEX[s[i] as int / 16], HEX[s[i] as int % 16]];
      }
      assert before + (EncodeChar(s[i]) + rest) == out + rest;
    }
    NothingToEncode(s);
  }

  lemma NothingToEncode(s: string)
    requires Bytes(s)
    ensures Encode(s[|s|..]) == ""
  {
  }

  /** The two hex digits of a byte give it back. */
  lemma HexPair(c: char)
    requires c as int < 256
    ensures HexValue(HEX[c as int / 16]) == c as int / 16 && HexValue(HEX[c as int % 16]) == c as int % 16
  {
    HexDigit(c as int / 16);
    HexDigit(c as int % 16);
  }

  lemma HexDigit(d: nat)
    requires d < 16
    ensures HexValue(HEX[d]) == d && HEX[d] != '%' && HEX[d] != '&' && HEX[d] != '=' && HEX[d] != '/'
  {
    assert d == 0 || d == 1 || d == 2 || d == 3 || d == 4 || d == 5 || d == 6 || d == 7
        || d == 8 || d == 9 || d == 10 || d == 11 || d == 12 || d == 13 || d == 14 || d == 15;
  }

  lemma DecodeEncodedChar(c: char, rest: string, plus: bool)
    requires c as int < 256
    ensures Decode(EncodeChar(c) + rest, plus) == [c] + Decode(rest, plus)
  {
    var s := EncodeChar(c) + rest;
    if IsUnreserved(c) {
      assert s[1..] == rest;
    } else {
      HexPair(c);
      assert s[3..] == rest && s[1] == HEX[c as int / 16] && s[2] == HEX[c as int % 16];
      assert DecodeEscape(s) as int == c as int;
    }
  }

  /** Decoding undoes encoding, whichever way '+' is read. */
  lemma {:induction false} DecodeEncode(s: string, plus: bool)
    requires Bytes(s)
    ensures Decode(Encode(s), plus) == s
  {
    if s != "" {
      DecodeEncode(s[1..], plus);
      DecodeEncodedChar(s[0], Encode(s[1..]), plus);
      assert s == [s[0]] + s[1..];
    }
  }

  /** Encoded text is free of separators. */
  lemma {:induction false} EncodedIsPlain(s: string)
    requires Bytes(s)
    ensures Lacks(Encode(s), '&') && Lacks(Encode(s), '=') && Lacks(Encode(s), '/')
    ensures s != "" ==> Encode(s) != ""
  {
    if s != "" {
      EncodedIsPlain(s[1..]);
      HexDigit(s[0] as int / 16);
      HexDigit(s[0] as int % 16);
      assert Lacks(EncodeChar(s[0]), '&') && Lacks(EncodeChar(s[0]), '=') && Lacks(EncodeChar(s[0]), '/');
      LacksConcat(EncodeChar(s[0]), Encode(s[1..]), '&');
      LacksConcat(EncodeChar(s[0]), Encode(s[1..]), '=');
      LacksConcat(EncodeChar(s[0]), Encode(s[1..]), '/');
    }
  }

  /** Section 2.3 of RFC 3986: ALPHA, DIGIT and four marks. */
  predicate Unreserved(c: char) {
    ('a' <= c <= 'z' || 'A' <= c <= 'Z') || '0' <= c <= '9' || c in {'-', '.', '_', '~'}
  }

  /** Encoding leaves a text alone exactly when all of it is unreserved. */
  lemma {:induction false} EncodeKeepsIff(s: string)
    requires Bytes(s)
    ensures |Encode(s)| >= |s|
    ensures |Encode(s)| == |s| <==> forall i :: 0 <= i < |s| ==> Unreserved(s[i])
    ensures |Encode(s)| == |s| ==> Encode(s) == s
  {
    if s != "" {
      EncodeKeepsIff(s[1..]);
      assert s == [s[0]] + s[1..];
      assert forall i :: 0 < i < |s| ==> s[i] == s[1..][i - 1];
    }
  }

  const LOWER := "0123456789abcdef"

  predicate IsHexDigit(c: char) {
    c in HEX || c in LOWER
  }

  /** Hex digits of either case, and nothing else, have a value. */
  lemma HexListed(c: char)
    ensures IsHexDigit(c) <==> HexValue(c) >= 0
    ensures IsHexDigit(c) ==> c == HEX[HexValue(c)] || c == LOWER[HexValue(c)]
  {
    if HexValue(c) >= 0 {
      var v := HexValue(c);
      assert v == 0 || v == 1 || v == 2 || v == 3 || v == 4 || v == 5 || v == 6 || v == 7
          || v == 8 || v == 9 || v == 10 || v == 11 || v == 12 || v == 13 || v == 14 || v == 15;
    }
  }

  /** An escape with hex digits of either case is a byte; a '%' without two of them is
      kept, and so is any other character, except that '+' may mean a space. */
  lemma DecodeFirst(s: string, plus: bool)
    requires s != ""
    ensures s[0] == '%' && |s| > 2 && IsHexDigit(s[1]) && IsHexDigit(s[2]) ==>
              && 0 <= HexValue(s[1]) && 0 <= HexValue(s[2])
              && Decode(s, plus) == [(HexValue(s[1]) * 16 + HexValue(s[2])) as char] + Decode(s[3..], plus)
    ensures s[0] == '%' && !(|s| > 2 && IsHexDigit(s[1]) && IsHexDigit(s[2])) ==> Decode(s, plus) == "%" + Decode(s[1..], plus)
    ensures s[0] == '+' ==> Decode(s, plus) == (if plus then " " else "+") + Decode(s[1..], plus)
    ensures s[0] != '%' && s[0] != '+' ==> Decode(s, plus) == [s[0]] + Decode(s[1..], plus)
  {
    hide IsHexDigit, HexValue;
    if |s| > 2 {
      HexListed(s[1]);
      HexListed(s[2]);
    }
  }

  // ---- Query strings -------------------------------------------------------------------------

  type Params = map<string, string>

  function Key(piece: string): string {
    Decode(piece[..Find(piece, '=', 0)], true)
  }

  /** A piece without '=' has an empty value. */
  function Value(piece: string): string {
    var eq := Find(piece, '=', 0);
    if eq == |piece| then "" else Decode(piece[eq + 1..], true)
  }

  /** Pieces with an empty key are ignored; later keys overwrite earlier ones. */
  function AddPiece(params: Params, piece: string): Params {
    if Key(piece) == "" then params else params[Key(piece) := Value(piece)]
  }

  function ParseRest(q: string, params: Params): Params
    decreases |q|
  {
    if q == "" then params
    else
      var amp := Find(q, '&', 0);
      ParseRest(if amp == |q| then "" else q[amp + 1..], AddPiece(params, q[..amp]))
  }

  function ParseQuery(q: string): Params {
    ParseRest(q, map[])
  }

  lemma {:induction false} FindFrom(s: string, c: char, i: nat, from: nat)
    requires i <= from <= |s|
    ensures Find(s, c, from) == i + Find(s[i..], c, from - i)
    decreases |s| - from
  {
    if from < |s| && s[from] != c { FindFrom(s, c, i, from + 1); }
  }

  lemma {:induction false} FindWithin(s: string, c: char, n: nat, from: nat)
    requires from <= n <= |s|
    ensures Find(s[..n], c, from) == if Find(s, c, from) < n then Find(s, c, from) else n
    decreases n - from
  {
    if from < n && s[from] != c { FindWithin(s, c, n, from + 1); }
  }

  lemma {:induction false} FindHits(s: string, c: char, from: nat)
    requires from <= |s|
    ensures Find(s, c, from) < |s| ==> s[Find(s, c, from)] == c
    decreases |s| - from
  {
    if from < |s| && s[from] != c { FindHits(s, c, from + 1); }
  }

  /** The next piece of a query, cut out of the whole string as the loop does. */
  lemma NextPiece(query: string, i: nat, params: Params)
    requires i < |query|
    ensures var amp := Find(query, '&', i);
            ParseRest(query[i..], params)
            == ParseRest(if amp == |query| then "" else query[amp + 1..], AddPiece(params, query[i..amp]))
  {
    hide Decode, Find, AddPiece;
    var amp, rest := Find(query, '&', i), query[i..];
    FindFrom(query, '&', i, i);
    assert query[i..amp] == rest[..amp - i];
    assert amp < |query| ==> rest[amp - i + 1..] == query[amp + 1..];
  }

  /** Where the '=' of that piece is: at or past its end if it has none. */
  lemma PieceEquals(query: string, i: nat)
    requires i < |query|
    ensures var amp, eq := Find(query, '&', i), Find(query, '=', i);
            && Find(query[i..amp], '=', 0) == (if eq < amp then eq else amp) - i
            && (eq == |query| || eq > amp || eq < amp)
  {
    hide Find;
    var amp, rest := Find(query, '&', i), query[i..];
    FindFrom(query, '=', i, i);
    FindHits(query, '&', i);
    FindHits(query, '=', i);
    FindWithin(rest, '=', amp - i, 0);
    assert query[i..amp] == rest[..amp - i];
  }

  lemma PieceParts(query: string, i: nat, params: Params)
    requires i < |query|
    ensures var amp, eq := Find(query, '&', i), Find(query, '=', i);
            var valueless := eq == |query| || eq > amp;
            var key := Decode(query[i..if valueless then amp else eq], true);
            && (!valueless ==> eq < amp)
            && AddPiece(params, query[i..amp])
               == (if key == "" then params
                   else params[key := if valueless then "" else Decode(query[eq + 1..amp], true)])
  {
    hide Decode, Find;
    var amp, eq := Find(query, '&', i), Find(query, '=', i);
    var piece := query[i..amp];
    PieceEquals(query, i);
    if eq < amp {
      assert piece[..eq - i] == query[i..eq] && piece[eq - i + 1..] == query[eq + 1..amp];
    } else {
      assert piece[..|piece|] == piece;
    }
  }

  method ParseQueryString(query: string) returns (params: Params)
    ensures params == ParseQuery(query)
  {
    hide Decode, Find, ParseRest, AddPiece;
    params := map[];
    var i := 0;
    assert query[0..] == query;
    while i < |query|
      invariant i <= |query| + 1
      invariant ParseQuery(query) == ParseRest(if i <= |query| then query[i..] else "", params)
      decreases |query| - i
    {
      NextPiece(query, i, params);
      PieceParts(query, i, params);
      var amp := Find(query, '&', i);
      var eq := Find(query, '=', i);
      if eq == |query| || eq > amp {
        var key := Decode(query[i..amp], true);
        if key != "" { params := params[key := ""]; }
      } else {
        var key := Decode(query[i..eq], true);
        var value := Decode(query[eq + 1..amp], true);
        if key != "" { params := params[key := value]; }
      }
      i := amp + 1;
    }
    NothingToParse(params);
    assert i == |query| ==> query[i..] == "";
  }

  lemma NothingToParse(params: Params)
    ensures ParseRest("", params) == params
  {
  }

  type Pair = (string, string)

  predicate BytePairs(pairs: seq<Pair>) {
    forall i :: 0 <= i < |pairs| ==> Bytes(pairs[i].0) && Bytes(pairs[i].1)
  }

  function PairText(p: Pair): string
    requires Bytes(p.0) && Bytes(p.1)
  {
    Encode(p.0) + "=" + Encode(p.1)
  }

  /** The pairs as a client writes them. */
  function Join(pairs: seq<Pair>): string
    requires BytePairs(pairs)
  {
    if pairs == [] then ""
    else if |pairs| == 1 then PairText(pairs[0])
    else PairText(pairs[0]) + "&" + Join(pairs[1..])
  }

  /** The last value given for each nonempty key. */
  function LastWins(params: Params, pairs: seq<Pair>): Params
    decreases |pairs|
  {
    if pairs == [] then params
    else LastWins(if pairs[0].0 == "" then params else params[pairs[0].0 := pairs[0].1], pairs[1..])
  }

  lemma PairParses(params: Params, p: Pair)
    requires Bytes(p.0) && Bytes(p.1)
    ensures AddPiece(params, PairText(p)) == if p.0 == "" then params else params[p.0 := p.1]
    ensures Lacks(PairText(p), '&') && PairText(p) != ""
  {
    hide Encode, Decode, Find;
    var k, v := Encode(p.0), Encode(p.1);
    EncodedIsPlain(p.0);
    EncodedIsPlain(p.1);
    FindSeparator(k, '=', v, 0);
    assert PairText(p) == k + ['='] + v;
    assert PairText(p)[..|k|] == k && PairText(p)[|k| + 1..] == v;
    DecodeEncode(p.0, true);
    DecodeEncode(p.1, true);
  }

  lemma FindNothing(s: string, c: char)
    requires Lacks(s, c)
    ensures Find(s, c, 0) == |s|
  {
    FindIs(s, c, 0, |s|);
  }

  /** A query written from any pairs is read back as the last value of every key. */
  lemma {:induction false} QueryRoundTrip(pairs: seq<Pair>, params: Params)
    requires BytePairs(pairs)
    ensures ParseRest(Join(pairs), params) == LastWins(params, pairs)
    decreases |pairs|
  {
    hide Find, AddPiece, PairText;
    if pairs != [] {
      var p, q := PairText(pairs[0]), Join(pairs);
      PairParses(params, pairs[0]);
      if |pairs| == 1 {
        FindNothing(p, '&');
        assert p[..|p|] == p;
      } else {
        var rest := Join(pairs[1..]);
        FindSeparator(p, '&', rest, 0);
        assert q == p + ['&'] + rest;
        assert q[..|p|] == p && q[|p| + 1..] == rest;
        QueryRoundTrip(pairs[1..], AddPiece(params, p));
      }
    }
  }

  /** A piece that is only a key has an empty value; an empty piece adds nothing. */
  lemma BareKey(params: Params, key: string)
    requires Bytes(key)
    ensures AddPiece(params, Encode(key)) == if key == "" then params else params[key := ""]
  {
    hide Encode, Decode, Find;
    EncodedIsPlain(key);
    FindNothing(Encode(key), '=');
    assert Encode(key)[..|Encode(key)|] == Encode(key);
    DecodeEncode(key, true);
  }
}
