/** Byte strings, as the C++ code handles them: a byte is a `char`, a
    `std::string` or a buffer region is a `string`.  The searches, the case
    folding and the number conversions that the parsers and printers share. */
module Text {

  datatype Option<+T> = None | Some(value: T)

  // ---- Searching ---------------------------------------------------------

  predicate CrlfAt(s: string, p: int) {
    0 <= p && p + 1 < |s| && s[p] == '\r' && s[p + 1] == '\n'
  }

  predicate NoCrlf(s: string) {
    forall p :: 0 <= p < |s| ==> !CrlfAt(s, p)
  }

  /** The first CR LF pair of `s`, if there is one. */
  function FirstCrlf(s: string): (r: Option<nat>)
    ensures r.Some? ==> CrlfAt(s, r.value) && forall p :: 0 <= p < r.value ==> !CrlfAt(s, p)
    ensures r.None? ==> NoCrlf(s)
  {
    FirstCrlfFrom(s, 0)
  }

  function FirstCrlfFrom(s: string, i: nat): (r: Option<nat>)
    requires i <= |s|
    requires forall p :: 0 <= p < i ==> !CrlfAt(s, p)
    ensures r.Some? ==> CrlfAt(s, r.value) && forall p :: 0 <= p < r.value ==> !CrlfAt(s, p)
    ensures r.None? ==> NoCrlf(s)
    decreases |s| - i
  {
    if CrlfAt(s, i) then Some(i) else if i == |s| then None else FirstCrlfFrom(s, i + 1)
  }

  /** A terminated line stays the first line when more bytes arrive. */
  lemma CrlfStable(a: string, b: string)
    requires FirstCrlf(a).Some?
    ensures FirstCrlf(a + b) == FirstCrlf(a)
  {
    var p := FirstCrlf(a).value;
    assert forall q :: 0 <= q <= p ==> (CrlfAt(a + b, q) <==> CrlfAt(a, q));
    assert CrlfAt(a + b, p);
  }

  /** A line without CR LF of its own ends at the terminator that follows it. */
  lemma CrlfEndsLine(line: string, t: string)
    requires NoCrlf(line)
    ensures FirstCrlf(line + "\r\n" + t) == Some(|line|)
  {
    var s := line + "\r\n" + t;
    assert CrlfAt(s, |line|);
    forall q | 0 <= q < |line|
      ensures !CrlfAt(s, q)
    {
      assert !CrlfAt(line, q);
      if q + 1 == |line| { assert s[q + 1] == '\r'; }
    }
  }

  lemma EmptyHasNoCrlf()
    ensures NoCrlf("")
  {
  }

  lemma NoCrlfConcat(a: string, sep: string, b: string)
    requires NoCrlf(a) && NoCrlf(b) && NoCrlf(sep) && sep != ""
    requires sep[0] != '\n' && sep[|sep| - 1] != '\r'
    ensures NoCrlf(a + sep + b)
  {
    var s := a + sep + b;
    forall q | 0 <= q < |s|
      ensures !CrlfAt(s, q)
    {
      assert q < |a| ==> !CrlfAt(a, q);
      assert |a| <= q < |a| + |sep| ==> !CrlfAt(sep, q - |a|);
      assert |a| + |sep| <= q ==> !CrlfAt(b, q - |a| - |sep|);
    }
  }

  /** The first index at or after `from` holding `c`, or `|s|` (std::find). */
  function Find(s: string, c: char, from: nat): (r: nat)
    requires from <= |s|
    ensures from <= r <= |s|
    decreases |s| - from
  {
    if from == |s| || s[from] == c then from else Find(s, c, from + 1)
  }

  lemma FindIs(s: string, c: char, from: nat, r: nat)
    decreases |s| - from
    requires from <= r <= |s|
    requires r < |s| ==> s[r] == c
    requires forall k :: from <= k < r ==> s[k] != c
    ensures Find(s, c, from) == r
  {
  }

  lemma FindIsFirst(s: string, c: char, from: nat)
    requires from <= |s|
    ensures var r := Find(s, c, from); (r < |s| ==> s[r] == c) && forall k :: from <= k < r ==> s[k] != c
    decreases |s| - from
  {
  }

  /** `c` does not occur in `s` at or after `from`. */
  predicate LacksFrom(s: string, c: char, from: nat) {
    forall k :: from <= k < |s| ==> s[k] != c
  }

  predicate Lacks(s: string, c: char) {
    LacksFrom(s, c, 0)
  }

  lemma LacksConcat(a: string, b: string, c: char)
    requires Lacks(a, c) && Lacks(b, c)
    ensures Lacks(a + b, c)
  {
  }

  /** A separator that does not occur before its place is found there. */
  lemma FindSeparator(pre: string, c: char, post: string, from: nat)
    requires from <= |pre| && LacksFrom(pre, c, from)
    ensures Find(pre + [c] + post, c, from) == |pre|
  {
    hide Find;
    FindIs(pre + [c] + post, c, from, |pre|);
  }

  // Where the two separators of "first second third" are found, and what they cut out.

  lemma FirstSeparator(first: string, second: string, third: string)
    requires Lacks(first, ' ')
    ensures Find(first + " " + second + " " + third, ' ', 0) == |first|
  {
    hide Find;
    var tail := second + " " + third;
    assert first + " " + second + " " + third == first + [' '] + tail;
    FindSeparator(first, ' ', tail, 0);
  }

  lemma SecondSeparator(first: string, second: string, third: string)
    requires Lacks(second, ' ')
    ensures Find(first + " " + second + " " + third, ' ', |first| + 1) == |first| + 1 + |second|
  {
    hide Find;
    var pre := first + " " + second;
    assert LacksFrom(pre, ' ', |first| + 1);
    FindSeparator(pre, ' ', third, |first| + 1);
  }

  lemma Words(first: string, second: string, third: string, line: string)
    requires line == first + " " + second + " " + third
    ensures line[..|first|] == first
    ensures line[|first| + 1..|first| + 1 + |second|] == second
    ensures line[|first| + 1 + |second| + 1..] == third
  {
  }

  predicate WordAt(s: string, word: string, i: int) {
    0 <= i <= |s| - |word| && s[i..i + |word|] == word
  }

  predicate Contains(s: string, word: string) {
    exists i | 0 <= i <= |s| :: WordAt(s, word, i)
  }

  /** The first index at or after `from` not holding a space, or `|s|`. */
  function PastSpaces(s: string, from: nat): (r: nat)
    requires from <= |s|
    ensures from <= r <= |s|
    decreases |s| - from
  {
    if from == |s| || s[from] != ' ' then from else PastSpaces(s, from + 1)
  }

  lemma PastOneSpace(s: string, from: nat)
    requires from < |s| && s[from] == ' '
    requires from + 1 == |s| || s[from + 1] != ' '
    ensures PastSpaces(s, from) == from + 1
  {
  }

  lemma {:induction false} PastAll(s: string, from: nat, to: nat)
    requires from <= to <= |s| && (to == |s| || s[to] != ' ')
    requires forall i :: from <= i < to ==> s[i] == ' '
    ensures PastSpaces(s, from) == to
    decreases |s| - from
  {
    if from < to {
      PastAll(s, from + 1, to);
    }
  }

  /** A prefix that reaches past `a` into `b`. */
  lemma TakeAcross(a: string, b: string, take: nat)
    requires |a| <= take <= |a| + |b|
    ensures (a + b)[..take] == a + b[..take - |a|]
    ensures forall s: string :: s + (a + b)[..take] == s + a + b[..take - |a|]
  {
  }

  // ---- Case --------------------------------------------------------------

  function LowerChar(c: char): char {
    if 'A' <= c <= 'Z' then (c as int + 32) as char else c
  }

  function ToLower(s: string): (r: string)
    ensures |r| == |s|
  {
    seq(|s|, i requires 0 <= i < |s| => LowerChar(s[i]))
  }

  // ---- Numbers -----------------------------------------------------------

  const U64: nat := 0x1_0000_0000_0000_0000

  function DigitChar(d: nat): char
    requires d < 16
  {
    (if d < 10 then '0' as int + d else 'a' as int + d - 10) as char
  }

  /** The value of a digit in base 10 or 16, or -1. */
  function DigitValue(c: char, base: nat): (d: int)
    ensures d < base || d == -1
    ensures -1 <= d
    requires base == 10 || base == 16
  {
    if '0' <= c <= '9' then c as int - '0' as int
    else if base == 16 && 'a' <= c <= 'f' then c as int - 'a' as int + 10
    else if base == 16 && 'A' <= c <= 'F' then c as int - 'A' as int + 10
    else -1
  }

  /** Reads the longest digit prefix of `s`, most significant digit first. */
  function ReadDigits(s: string, base: nat, acc: nat): (v: nat)
    requires base == 10 || base == 16
  {
    if s == "" || DigitValue(s[0], base) < 0 then acc
    else ReadDigits(s[1..], base, acc * base + DigitValue(s[0], base))
  }

  predicate IsSpace(c: char) {
    c == ' ' || 9 as char <= c <= 13 as char
  }

  function SkipWhite(s: string): string {
    if s != "" && IsSpace(s[0]) then SkipWhite(s[1..]) else s
  }

  function SkipSign(s: string): string {
    if s != "" && (s[0] == '-' || s[0] == '+') then s[1..] else s
  }

  function SkipRadix(s: string, base: nat): string {
    if base == 16 && |s| >= 2 && s[0] == '0' && (s[1] == 'x' || s[1] == 'X') then s[2..] else s
  }

  /** `strtoul(s, nullptr, base)` on a 64-bit target: white space, a sign, an
      optional 0x in base 16, then the digit prefix; too large gives the largest
      value, and a minus sign negates modulo 2^64. */
  function Strtoul(s: string, base: nat): (v: nat)
    requires base == 10 || base == 16
    ensures v < U64
  {
    var t := SkipWhite(s);
    var digits := ReadDigits(SkipRadix(SkipSign(t), base), base, 0);
    if digits >= U64 then U64 - 1
    else if t != "" && t[0] == '-' then (U64 - digits) % U64
    else digits
  }

  /** `atoi`: the saturated 64-bit `strtol`, cut to 32 bits. */
  function Atoi(s: string): (v: int)
    ensures -0x8000_0000 <= v < 0x8000_0000
  {
    var t := SkipWhite(s);
    var digits: int := ReadDigits(SkipSign(t), 10, 0);
    var neg := t != "" && t[0] == '-';
    var long: int := if neg then (if digits > U64 / 2 then -(U64 / 2) else -digits)
                else if digits >= U64 / 2 then U64 / 2 - 1 else digits;
    (long + 0x8000_0000) % 0x1_0000_0000 - 0x8000_0000
  }

  /** `std::to_string` in base 10; the chunk-size spelling in base 16. */
  function Print(n: nat, base: nat): (s: string)
    requires base == 10 || base == 16
    ensures s != ""
    ensures forall i :: 0 <= i < |s| ==> DigitValue(s[i], base) >= 0
  {
    if n < base then [DigitChar(n)] else Print(n / base, base) + [DigitChar(n % base)]
  }

  lemma PrintedHasNoCrlf(n: nat, base: nat)
    requires base == 10 || base == 16
    ensures NoCrlf(Print(n, base))
  {
    hide Print;
    var s := Print(n, base);
    forall p | 0 <= p < |s|
      ensures !CrlfAt(s, p)
    {
      assert DigitValue(s[p], base) >= 0;
    }
  }

  predicate StartsWithDigit(s: string, base: nat)
    requires base == 10 || base == 16
  {
    s != "" && DigitValue(s[0], base) >= 0
  }

  /** Reading through a run of digits and then `t` starts `t` from their value. */
  lemma {:induction false} ReadDigitsConcat(a: string, t: string, base: nat, acc: nat)
    requires base == 10 || base == 16
    requires forall i :: 0 <= i < |a| ==> DigitValue(a[i], base) >= 0
    ensures ReadDigits(a + t, base, acc) == ReadDigits(t, base, ReadDigits(a, base, acc))
  {
    if a == "" {
      assert a + t == t;
    } else {
      assert (a + t)[1..] == a[1..] + t;
      ReadDigitsConcat(a[1..], t, base, acc * base + DigitValue(a[0], base));
    }
  }

  /** Reading back a printed number: the digit prefix is exactly the number. */
  lemma {:induction false} ReadPrinted(n: nat, base: nat, t: string)
    requires base == 10 || base == 16
    requires !StartsWithDigit(t, base)
    ensures ReadDigits(Print(n, base) + t, base, 0) == n
  {
    ReadDigitsConcat(Print(n, base), t, base, 0);
    assert ReadDigits(Print(n, base), base, 0) == n by {
      if n < base {
        ReadOneDigit(n, base, 0);
      } else {
        var front := Print(n / base, base);
        ReadPrinted(n / base, base, "");
        assert front + "" == front;
        ReadDigitsConcat(front, [DigitChar(n % base)], base, 0);
        ReadOneDigit(n % base, base, n / base);
        assert n == (n / base) * base + n % base;
      }
    }
  }

  lemma ReadOneDigit(d: nat, base: nat, acc: nat)
    requires base == 10 || base == 16
    requires d < base
    ensures ReadDigits([DigitChar(d)], base, acc) == acc * base + d
  {
    assert [DigitChar(d)][1..] == "";
  }

  /** The round trip of the number headers: strtoul inverts to_string below 2^64. */
  lemma StrtoulPrinted(n: nat, base: nat, t: string)
    requires base == 10 || base == 16
    requires n < U64
    requires !StartsWithDigit(t, base)
    requires base == 16 ==> t == "" || (t[0] != 'x' && t[0] != 'X')
    ensures Strtoul(Print(n, base) + t, base) == n
  {
    var s := Print(n, base) + t;
    assert DigitValue(s[0], base) >= 0;
    assert SkipWhite(s) == s && SkipSign(s) == s;
    assert SkipRadix(s, base) == s by {
      if |Print(n, base)| >= 2 { assert DigitValue(s[1], base) >= 0; }
    }
    ReadPrinted(n, base, t);
  }

  lemma AtoiPrinted(n: nat)
    requires n < 0x8000_0000
    ensures Atoi(Print(n, 10)) == n
  {
    var s := Print(n, 10);
    assert DigitValue(s[0], 10) >= 0;
    assert SkipWhite(s) == s && SkipSign(s) == s;
    assert ReadDigits(s, 10, 0) == n by {
      assert s + "" == s;
      ReadPrinted(n, 10, "");
    }
  }
}
