/** The .NET string formatting the resolver relies on: `{n}`, `{n:D4}`, `{n:X8}`,
    `String.Trim` and `String.StartsWith`, each with its inverse or its defining property. */
module Formatting {

  predicate IsDigit(c: char) {
    '0' <= c <= '9'
  }

  predicate AllDigits(s: string) {
    forall i | 0 <= i < |s| :: IsDigit(s[i])
  }

  function DigitChar(d: nat): (c: char)
    requires d < 10
    ensures IsDigit(c) && c as int - '0' as int == d
  {
    ('0' as int + d) as char
  }

  /** `{n}` for a non-negative integer: its decimal digits, without leading zeros. */
  function Decimal(n: nat): (s: string)
    ensures 1 <= |s| && AllDigits(s)
    ensures |s| > 1 ==> s[0] != '0'
    ensures n < 10 <==> |s| == 1
  {
    if n < 10 then [DigitChar(n)] else Decimal(n / 10) + [DigitChar(n % 10)]
  }

  /** The value of a string of decimal digits (the inverse of `Decimal`). */
  function ParseDecimal(s: string): nat
    requires AllDigits(s)
  {
    if s == [] then 0 else ParseDecimal(s[..|s| - 1]) * 10 + (s[|s| - 1] as int - '0' as int)
  }

  lemma {:induction false} DecimalRoundTrip(n: nat)
    ensures ParseDecimal(Decimal(n)) == n
  {
    if n >= 10 {
      var s := Decimal(n);
      assert s[..|s| - 1] == Decimal(n / 10);
      DecimalRoundTrip(n / 10);
    }
  }

  /** `Decimal` is injective: two different numbers never print alike. */
  lemma DecimalInjective(a: nat, b: nat)
    requires Decimal(a) == Decimal(b)
    ensures a == b
  {
    DecimalRoundTrip(a);
    DecimalRoundTrip(b);
  }

  function Zeros(k: nat): (z: string)
    ensures |z| == k && AllDigits(z)
    ensures forall i | 0 <= i < k :: z[i] == '0'
  {
    seq(k, _ => '0')
  }

  lemma {:induction false} ParseZeros(k: nat)
    ensures ParseDecimal(Zeros(k)) == 0
  {
    if k > 0 {
      assert Zeros(k)[..k - 1] == Zeros(k - 1);
      ParseZeros(k - 1);
    }
  }

  /** Leading zeros do not change the value of a digit string. */
  lemma {:induction false} ParseLeadingZeros(k: nat, s: string)
    requires AllDigits(s)
    ensures ParseDecimal(Zeros(k) + s) == ParseDecimal(s)
  {
    if s == [] {
      assert Zeros(k) + s == Zeros(k);
      ParseZeros(k);
    } else {
      var t := Zeros(k) + s;
      assert t[..|t| - 1] == Zeros(k) + s[..|s| - 1];
      ParseLeadingZeros(k, s[..|s| - 1]);
    }
  }

  /** The digits of `n`, zero-padded on the left to at least four characters. */
  function Pad4(n: nat): (s: string)
    ensures |s| >= 4 && AllDigits(s)
    ensures |s| == if |Decimal(n)| < 4 then 4 else |Decimal(n)|
  {
    var digits := Decimal(n);
    if |digits| < 4 then Zeros(4 - |digits|) + digits else digits
  }

  /** `{n:D4}`: at least four digits, zero-padded, with a leading '-' for a negative value. */
  function D4(n: int): (s: string)
    ensures |s| >= 4
    ensures n >= 0 ==> AllDigits(s)
    ensures n < 0 ==> s[0] == '-' && AllDigits(s[1..])
  {
    if n < 0 then "-" + Pad4(-n) else Pad4(n)
  }

  /** `{n:D4}` exactly: the digits of the magnitude, zero-padded on the left to four when there
      are fewer, after a '-' for a negative value. All digits, that width and that value leave
      only one string. */
  lemma D4Exact(n: int)
    ensures n >= 0 ==> ParseDecimal(D4(n)) == n && |D4(n)| == (if |Decimal(n)| < 4 then 4 else |Decimal(n)|)
    ensures n < 0 ==> ParseDecimal(D4(n)[1..]) == -n && |D4(n)| == 1 + (if |Decimal(-n)| < 4 then 4 else |Decimal(-n)|)
  {
    if n < 0 {
      Pad4RoundTrip(-n);
      assert D4(n)[1..] == Pad4(-n);
    } else {
      Pad4RoundTrip(n);
    }
  }

  lemma Pad4RoundTrip(n: nat)
    ensures ParseDecimal(Pad4(n)) == n
  {
    var digits := Decimal(n);
    DecimalRoundTrip(n);
    if |digits| < 4 {
      ParseLeadingZeros(4 - |digits|, digits);
    }
  }

  /** `{n:D4}` is injective, so comparing formatted ids compares the ids. */
  lemma D4Injective(a: int, b: int)
    requires D4(a) == D4(b)
    ensures a == b
  {
    if (a < 0) != (b < 0) {
      assert false;
    }
    var da, db := if a < 0 then -a else a, if b < 0 then -b else b;
    assert Pad4(da) == Pad4(db) by {
      if a < 0 {
        assert Pad4(da) == D4(a)[1..];
        assert Pad4(db) == D4(b)[1..];
      }
    }
    Pad4RoundTrip(da);
    Pad4RoundTrip(db);
  }

  function HexDigit(d: nat): (c: char)
    requires d < 16
  {
    "0123456789ABCDEF"[d]
  }

  predicate IsUpperHex(c: char) {
    ('0' <= c <= '9') || ('A' <= c <= 'F')
  }

  function HexValue(c: char): (d: nat)
    requires IsUpperHex(c)
    ensures d < 16 && HexDigit(d) == c
  {
    if c <= '9' then c as int - '0' as int else c as int - 'A' as int + 10
  }

  /** The lowest `width` hexadecimal digits of `n`, most significant first, upper case. */
  function Hex(n: nat, width: nat): (s: string)
    ensures |s| == width
    ensures forall i | 0 <= i < width :: IsUpperHex(s[i])
  {
    if width == 0 then [] else Hex(n / 16, width - 1) + [HexDigit(n % 16)]
  }

  function ParseHex(s: string): nat
    requires forall i | 0 <= i < |s| :: IsUpperHex(s[i])
  {
    if s == [] then 0 else ParseHex(s[..|s| - 1]) * 16 + HexValue(s[|s| - 1])
  }

  function Pow16(k: nat): nat
  {
    if k == 0 then 1 else 16 * Pow16(k - 1)
  }

  lemma {:induction false} HexRoundTrip(n: nat, width: nat)
    requires n < Pow16(width)
    ensures ParseHex(Hex(n, width)) == n
  {
    if width > 0 {
      var s := Hex(n, width);
      assert s[..|s| - 1] == Hex(n / 16, width - 1);
      assert n / 16 < Pow16(width - 1);
      HexRoundTrip(n / 16, width - 1);
      assert HexValue(s[|s| - 1]) == n % 16;
    }
  }

  /** `{crc:X8}` for a 32-bit unsigned value: exactly eight upper-case hex digits. */
  function X8(n: nat): (s: string)
    requires n < 0x1_0000_0000
    ensures |s| == 8
    ensures forall i | 0 <= i < 8 :: IsUpperHex(s[i])
  {
    Hex(n, 8)
  }

  /** `X8` loses nothing: the value can be read back from its eight digits. */
  lemma X8RoundTrip(n: nat)
    requires n < 0x1_0000_0000
    ensures ParseHex(X8(n)) == n
  {
    assert Pow16(8) == 0x1_0000_0000;
    HexRoundTrip(n, 8);
  }

  /** `Char.IsWhiteSpace`: the Unicode space separators, line and paragraph separators,
      U+0009 to U+000D, U+0085 and U+00A0. */
  predicate IsWhiteSpace(c: char) {
    var x := c as int;
    (9 <= x <= 13) || x == 0x20 || x == 0x85 || x == 0xA0 || x == 0x1680
    || (0x2000 <= x <= 0x200A) || x == 0x2028 || x == 0x2029 || x == 0x202F
    || x == 0x205F || x == 0x3000
  }

  function TrimStart(s: string): (r: string)
    ensures |r| <= |s| && r == s[|s| - |r|..]
    ensures r != [] ==> !IsWhiteSpace(r[0])
    ensures forall i | 0 <= i < |s| - |r| :: IsWhiteSpace(s[i])
  {
    if s != [] && IsWhiteSpace(s[0]) then TrimStart(s[1..]) else s
  }

  function TrimEnd(s: string): (r: string)
    ensures |r| <= |s| && r == s[..|r|]
    ensures r != [] ==> !IsWhiteSpace(r[|r| - 1])
    ensures forall i | |r| <= i < |s| :: IsWhiteSpace(s[i])
  {
    if s != [] && IsWhiteSpace(s[|s| - 1]) then TrimEnd(s[..|s| - 1]) else s
  }

  /** `String.Trim()`: `s` with the white space at both ends removed, and nothing else; the
      slice left neither starts nor ends with white space. */
  function Trim(s: string): (r: string)
    ensures |r| <= |s| - TrimmedLeft(s)
    ensures r == s[TrimmedLeft(s)..TrimmedLeft(s) + |r|]
    ensures forall i | 0 <= i < TrimmedLeft(s) :: IsWhiteSpace(s[i])
    ensures forall i | TrimmedLeft(s) + |r| <= i < |s| :: IsWhiteSpace(s[i])
    ensures r != [] ==> !IsWhiteSpace(r[0]) && !IsWhiteSpace(r[|r| - 1])
  {
    var t := TrimStart(s);
    var r := TrimEnd(t);
    assert r == s[|s| - |t|..][..|r|];
    assert forall i | |s| - |t| + |r| <= i < |s| :: s[i] == t[i - (|s| - |t|)];
    r
  }

  /** How many leading white-space characters `Trim` drops. */
  function TrimmedLeft(s: string): nat
  {
    |s| - |TrimStart(s)|
  }

  /** Trimming twice is trimming once. */
  lemma TrimIdempotent(s: string)
    ensures Trim(Trim(s)) == Trim(s)
  {
    var r := Trim(s);
    if r != [] {
      assert TrimStart(r) == r;
      assert TrimEnd(r) == r;
    }
  }

  /** Leading white space in front of a non-blank start is all that `TrimStart` removes. */
  lemma {:induction false} TrimStartSkips(a: string, t: string)
    requires forall i | 0 <= i < |a| :: IsWhiteSpace(a[i])
    requires t != [] && !IsWhiteSpace(t[0])
    ensures TrimStart(a + t) == t
  {
    if a == [] {
      assert a + t == t;
    } else {
      assert (a + t)[0] == a[0];
      assert (a + t)[1..] == a[1..] + t;
      TrimStartSkips(a[1..], t);
    }
  }

  /** Trailing white space after a non-blank end is all that `TrimEnd` removes. */
  lemma {:induction false} TrimEndSkips(t: string, b: string)
    requires forall i | 0 <= i < |b| :: IsWhiteSpace(b[i])
    requires t != [] && !IsWhiteSpace(t[|t| - 1])
    ensures TrimEnd(t + b) == t
  {
    if b == [] {
      assert t + b == t;
    } else {
      assert (t + b)[|t + b| - 1] == b[|b| - 1];
      assert (t + b)[..|t + b| - 1] == t + b[..|b| - 1];
      TrimEndSkips(t, b[..|b| - 1]);
    }
  }

  /** White space around a text that neither starts nor ends with white space is exactly what
      `Trim` removes. */
  lemma TrimExact(a: string, m: string, b: string)
    requires forall i | 0 <= i < |a| :: IsWhiteSpace(a[i])
    requires forall i | 0 <= i < |b| :: IsWhiteSpace(b[i])
    requires m != [] && !IsWhiteSpace(m[0]) && !IsWhiteSpace(m[|m| - 1])
    ensures Trim(a + m + b) == m
  {
    assert a + m + b == a + (m + b);
    assert (m + b)[0] == m[0];
    TrimStartSkips(a, m + b);
    TrimEndSkips(m, b);
  }

  /** Ordinal `String.StartsWith(prefix)`. */
  predicate StartsWith(s: string, prefix: string) {
    |prefix| <= |s| && s[..|prefix|] == prefix
  }
}
