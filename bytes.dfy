/**
 * Bytes as the terminal protocol sees them, and Python's byte-string
 * formatting that the encoders rely on: `b"%i" % n` for a non-negative n,
 * `bytes.split`, and `int()` applied to a field of ASCII digits.
 */
module Bytes {
  import opened Wrappers

  type Byte = b: int | 0 <= b < 256

  const ESC: Byte := 0x1B   // escape, the introducer of every control sequence
  const BEL: Byte := 0x07   // bell, the terminator of an operating system command
  const SEMI: Byte := 0x3B  // ';', the parameter separator
  const ZERO: Byte := 0x30  // '0'

  predicate IsDigit(b: Byte) { ZERO <= b <= 0x39 }

  predicate AllDigits(s: seq<Byte>) { forall i | 0 <= i < |s| :: IsDigit(s[i]) }

  /** The bytes of an ASCII string literal. */
  function Ascii(s: string): (r: seq<Byte>)
    requires forall i | 0 <= i < |s| :: s[i] < 128 as char
    ensures |r| == |s| && forall i | 0 <= i < |s| :: r[i] == s[i] as int
  {
    seq(|s|, i requires 0 <= i < |s| => s[i] as int)
  }

  /** `b"%i" % n` for n >= 0: the decimal digits of n, most significant first. */
  function Decimal(n: nat): (r: seq<Byte>)
    ensures 1 <= |r| && AllDigits(r)
    ensures r[0] == ZERO ==> r == [ZERO]
  {
    if n < 10 then [ZERO + n] else Decimal(n / 10) + [ZERO + n % 10]
  }

  /** The value of a string of decimal digits (what `int()` computes for it). */
  function DigitsValue(s: seq<Byte>): nat
    requires AllDigits(s)
  {
    if s == [] then 0 else DigitsValue(s[..|s| - 1]) * 10 + (s[|s| - 1] - ZERO)
  }

  lemma {:induction false} DecimalRoundTrip(n: nat)
    ensures DigitsValue(Decimal(n)) == n
  {
    if n >= 10 {
      var d := Decimal(n / 10);
      DecimalRoundTrip(n / 10);
      assert (d + [ZERO + n % 10])[..|d|] == d;
    }
  }

  /** Distinct numbers are written as distinct digit strings, and conversely. */
  lemma DecimalInjective(m: nat, n: nat)
    ensures Decimal(m) == Decimal(n) <==> m == n
  {
    if Decimal(m) == Decimal(n) {
      DecimalRoundTrip(m);
      DecimalRoundTrip(n);
    }
  }

  /** Python's `bytes.split(d)`: the fields between occurrences of d, at least one. */
  function Split(s: seq<Byte>, d: Byte): (r: seq<seq<Byte>>)
    ensures 1 <= |r|
  {
    if s == [] then [[]]
    else if s[0] == d then [[]] + Split(s[1..], d)
    else var t := Split(s[1..], d); [[s[0]] + t[0]] + t[1..]
  }

  lemma {:induction false} SplitNoDelimiter(s: seq<Byte>, d: Byte)
    requires d !in s
    ensures Split(s, d) == [s]
  {
    if s != [] {
      SplitNoDelimiter(s[1..], d);
      assert [s[0]] + s[1..] == s;
    }
  }

  /** A field free of the delimiter, followed by the delimiter, splits off as the first field. */
  lemma {:induction false} SplitField(a: seq<Byte>, d: Byte, rest: seq<Byte>)
    requires d !in a
    ensures Split(a + [d] + rest, d) == [a] + Split(rest, d)
  {
    if a == [] {
      assert a + [d] + rest == [d] + rest;
      assert ([d] + rest)[1..] == rest;
    } else {
      assert (a + [d] + rest)[1..] == a[1..] + [d] + rest;
      SplitField(a[1..], d, rest);
      assert [a[0]] + a[1..] == a;
    }
  }

  /** Parameters written as decimals separated by ';' (the `%i;%i` of the templates). */
  function JoinDecimals(ns: seq<nat>): (r: seq<Byte>)
    requires 1 <= |ns|
    ensures 1 <= |r|
  {
    if |ns| == 1 then Decimal(ns[0]) else Decimal(ns[0]) + [SEMI] + JoinDecimals(ns[1..])
  }

  lemma JoinDecimalsCons(n: nat, ns: seq<nat>)
    requires 1 <= |ns|
    ensures JoinDecimals([n] + ns) == Decimal(n) + [SEMI] + JoinDecimals(ns)
  {
    assert ([n] + ns)[1..] == ns;
  }

  /** Every field is a non-empty run of digits: what `int()` accepts here. */
  function ParseFields(fields: seq<seq<Byte>>): (r: Option<seq<nat>>)
    ensures r.Some? ==> |r.value| == |fields|
    ensures r.Some? <==> forall i | 0 <= i < |fields| :: fields[i] != [] && AllDigits(fields[i])
  {
    if fields == [] then Some([])
    else if fields[0] == [] || !AllDigits(fields[0]) then None
    else match ParseFields(fields[1..])
      case None => None
      case Some(ns) => Some([DigitsValue(fields[0])] + ns)
  }

  /** Splitting joined decimals at ';' and reading each field gives the numbers back. */
  lemma {:induction false} JoinDecimalsRoundTrip(ns: seq<nat>)
    requires 1 <= |ns|
    ensures ParseFields(Split(JoinDecimals(ns), SEMI)) == Some(ns)
  {
    var d := Decimal(ns[0]);
    DecimalRoundTrip(ns[0]);
    assert SEMI !in d by {
      forall i | 0 <= i < |d| ensures d[i] != SEMI { assert IsDigit(d[i]); }
    }
    if |ns| == 1 {
      SplitNoDelimiter(d, SEMI);
      assert JoinDecimals(ns) == d;
      assert [d][1..] == [] && [d][0] == d && d != [] && AllDigits(d);
      assert ParseFields([d][1..]) == Some([]);
      assert [DigitsValue(d)] + [] == [DigitsValue(d)];
      assert ParseFields([d]) == Some([DigitsValue(d)]);
      assert ns == [ns[0]];
    } else {
      SplitField(d, SEMI, JoinDecimals(ns[1..]));
      JoinDecimalsRoundTrip(ns[1..]);
      var fs := Split(JoinDecimals(ns), SEMI);
      assert fs[1..] == Split(JoinDecimals(ns[1..]), SEMI);
      assert [ns[0]] + ns[1..] == ns;
    }
  }

  /** Joined decimals hold only digits and ';'. */
  lemma {:induction false} JoinDecimalsBytes(ns: seq<nat>)
    requires 1 <= |ns|
    ensures forall i | 0 <= i < |JoinDecimals(ns)| :: IsDigit(JoinDecimals(ns)[i]) || JoinDecimals(ns)[i] == SEMI
  {
    if |ns| > 1 {
      JoinDecimalsBytes(ns[1..]);
    }
  }

  /** The UTF-8 encoding of one scalar value (Python's `str.encode('utf8')`). */
  function Utf8Char(c: char): (r: seq<Byte>)
    ensures 1 <= |r| <= 4
    ensures |r| == 1 <==> c as int < 0x80
    ensures |r| == 1 ==> r[0] == c as int
    ensures |r| > 1 ==> forall i | 0 <= i < |r| :: r[i] >= 0x80
  {
    var n := c as int;
    if n < 0x80 then [n]
    else if n < 0x800 then [0xC0 + n / 0x40, 0x80 + n % 0x40]
    else if n < 0x10000 then [0xE0 + n / 0x1000, 0x80 + n / 0x40 % 0x40, 0x80 + n % 0x40]
    else [0xF0 + n / 0x40000, 0x80 + n / 0x1000 % 0x40, 0x80 + n / 0x40 % 0x40, 0x80 + n % 0x40]
  }

  function Utf8(s: string): (r: seq<Byte>)
  {
    if s == [] then [] else Utf8Char(s[0]) + Utf8(s[1..])
  }

  /** A byte below 0x80 appears in the encoding only where the string has that very character. */
  lemma {:induction false} Utf8Ascii(s: string, b: Byte)
    requires b < 0x80
    ensures b in Utf8(s) <==> b as char in s
  {
    if s != [] {
      Utf8Ascii(s[1..], b);
      var u := Utf8Char(s[0]);
      assert Utf8(s) == u + Utf8(s[1..]);
      assert b in u <==> s[0] == b as char;
      assert s == [s[0]] + s[1..];
    }
  }
}
