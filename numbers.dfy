/** The number conversions the handlers rely on: JavaScript's `parseInt` (the
    leaderboard's `limit`), the decimal text of a placeholder number (`$k` in
    the spot update), and the coercions Postgres applies when a JSON number is
    bound to an INTEGER or a DECIMAL(10, 2) column. */
module Numbers {
  import opened Basics

  // ---------------------------------------------------------------------
  // parseInt(s) with no radix argument

  /** The code points ECMAScript's parseInt skips before the number: white
      space (including the Zs category) and line terminators. */
  predicate IsJsSpace(c: char)
  {
    c == '\t' || c == '\U{B}' || c == '\U{C}' || c == ' ' || c == '\U{A0}' || c == '\U{FEFF}'
    || c == '\n' || c == '\r' || c == '\U{2028}' || c == '\U{2029}'
    || c == '\U{1680}' || ('\U{2000}' <= c <= '\U{200A}') || c == '\U{202F}' || c == '\U{205F}'
    || c == '\U{3000}'
  }

  function TrimStart(s: string): (r: string)
    ensures |r| <= |s| && r == s[|s| - |r|..]
    ensures r == [] || !IsJsSpace(r[0])
    ensures forall i :: 0 <= i < |s| - |r| ==> IsJsSpace(s[i])
  {
    if |s| > 0 && IsJsSpace(s[0]) then TrimStart(s[1..]) else s
  }

  /** The value of a digit character in the given radix (letters count from
      10, either case), if it is a digit of that radix. */
  function DigitValue(c: char, radix: nat): (r: Option<nat>)
    ensures r.Some? ==> r.value < radix
  {
    var d :=
      if '0' <= c <= '9' then (c as int - '0' as int)
      else if 'a' <= c <= 'z' then (c as int - 'a' as int) + 10
      else if 'A' <= c <= 'Z' then (c as int - 'A' as int) + 10
      else 36;
    if d < radix then Some(d) else None
  }

  /** The length of the longest prefix of `s` made of digits of `radix`. */
  function DigitRun(s: string, radix: nat): (n: nat)
    ensures n <= |s|
    ensures forall i :: 0 <= i < n ==> DigitValue(s[i], radix).Some?
    ensures n < |s| ==> DigitValue(s[n], radix).None?
  {
    if |s| > 0 && DigitValue(s[0], radix).Some? then 1 + DigitRun(s[1..], radix) else 0
  }

  /** Positional value of a string of digits, most significant first. */
  function DigitsValue(s: string, radix: nat): int
    requires forall i :: 0 <= i < |s| ==> DigitValue(s[i], radix).Some?
  {
    if s == [] then 0
    else DigitsValue(s[..|s| - 1], radix) * radix + DigitValue(s[|s| - 1], radix).value
  }

  /** `parseInt(s)`: `None` stands for NaN. Leading white space is skipped,
      one sign is accepted, a `0x`/`0X` prefix selects radix 16, and the
      longest run of digits that follows is read; anything after it is
      ignored. */
  function JsParseInt(s: string): (r: Option<int>)
    ensures NoLeadingNumber(TrimStart(s)) ==> r.None?
  {
    ParseSigned(TrimStart(s))
  }

  /** Text that is empty, or starts with neither a sign nor a digit. */
  predicate NoLeadingNumber(t: string)
  {
    t == [] || (t[0] != '-' && t[0] != '+' && DigitValue(t[0], 10).None?)
  }

  /** The sign, then the digits. */
  function ParseSigned(t: string): Option<int>
  {
    if |t| > 0 && t[0] == '-' then
      match ParseUnsigned(t[1..])
      case None => None
      case Some(m) => Some(-m)
    else if |t| > 0 && t[0] == '+' then ParseUnsigned(t[1..])
    else ParseUnsigned(t)
  }

  /** The radix prefix, then the longest run of digits. */
  function ParseUnsigned(u: string): Option<int>
  {
    var hex := |u| >= 2 && u[0] == '0' && (u[1] == 'x' || u[1] == 'X');
    var radix := if hex then 16 else 10;
    var v := if hex then u[2..] else u;
    var n := DigitRun(v, radix);
    if n == 0 then None else Some(DigitsValue(v[..n], radix))
  }

  // ---------------------------------------------------------------------
  // Decimal text of a number

  function DigitChar(d: nat): (c: char)
    requires d < 10
    ensures DigitValue(c, 10) == Some(d)
  {
    ('0' as int + d) as char
  }

  /** The decimal numeral of `n`, as template literals print it. */
  function NatToString(n: nat): (s: string)
    ensures |s| >= 1
    ensures forall i :: 0 <= i < |s| ==> DigitValue(s[i], 10).Some?
    ensures s[0] == '0' ==> n == 0 && s == "0"
    decreases n
  {
    if n < 10 then [DigitChar(n)] else NatToString(n / 10) + [DigitChar(n % 10)]
  }

  function IntToString(i: int): string
  {
    if i < 0 then "-" + NatToString(-i) else NatToString(i)
  }

  lemma {:induction false} DigitsValueOfNumeral(n: nat)
    ensures DigitsValue(NatToString(n), 10) == n
    decreases n
  {
    var s := NatToString(n);
    if n >= 10 {
      DigitsValueOfNumeral(n / 10);
      assert s[..|s| - 1] == NatToString(n / 10);
    }
  }

  /** `parseInt` reads back every integer's decimal numeral. */
  lemma ParseIntOfNumeral(i: int)
    ensures JsParseInt(IntToString(i)) == Some(i)
  {
    var s := IntToString(i);
    ParseSignedOfNumeral(i);
    TrimStartStops(s);
  }

  /** An integer's numeral, read with its sign, gives the integer back; it
      starts with no white space. */
  lemma ParseSignedOfNumeral(i: int)
    ensures |IntToString(i)| > 0 && !IsJsSpace(IntToString(i)[0])
    ensures ParseSigned(IntToString(i)) == Some(i)
  {
    var n: nat := if i < 0 then -i else i;
    var u := NatToString(n);
    NumeralReadsBack(n);
    var s := IntToString(i);
    DigitIsNotSpace(u[0]);
    if i < 0 {
      assert s[1..] == u;
    }
  }

  /** The same for a natural number. */
  lemma ParseIntOfNatural(n: nat)
    ensures JsParseInt(NatToString(n)) == Some(n)
  {
    ParseIntOfNumeral(n);
    assert IntToString(n) == NatToString(n);
  }

  lemma DigitIsNotSpace(c: char)
    requires DigitValue(c, 10).Some?
    ensures !IsJsSpace(c) && c != '-' && c != '+'
  {
  }

  lemma TrimStartStops(s: string)
    requires |s| > 0 && !IsJsSpace(s[0])
    ensures TrimStart(s) == s
  {
  }

  /** The digits of a numeral, read without a sign, give the number back;
      the numeral starts with neither a sign nor a `0x` prefix. */
  lemma NumeralReadsBack(n: nat)
    ensures ParseUnsigned(NatToString(n)) == Some(n)
  {
    var u := NatToString(n);
    assert DigitRun(u, 10) == |u|;
    assert u[..|u|] == u;
    DigitsValueOfNumeral(n);
  }

  // ---------------------------------------------------------------------
  // Postgres column coercions of a JSON number

  const MinInt32: int := -0x8000_0000
  const MaxInt32: int := 0x7FFF_FFFF

  /** Binding a JSON number to an INTEGER column: the number's text must be
      an integer numeral in range, otherwise the statement fails. */
  function IntegerColumn(x: real): (r: Option<int>)
    ensures r.Some? <==> x == x.Floor as real && MinInt32 <= x.Floor <= MaxInt32
    ensures r.Some? ==> r.value as real == x
  {
    if x == x.Floor as real && MinInt32 <= x.Floor <= MaxInt32 then Some(x.Floor) else None
  }

  /** DECIMAL(10, 2) holds at most ten digits, two after the point. */
  const DecimalBound: int := 10_000_000_000

  /** `x` in hundredths, rounded half away from zero (Postgres's rounding of
      numeric input to the column's scale). */
  function RoundToCents(x: real): (c: int)
    ensures x >= 0.0 ==> c >= 0 && c as real - 0.5 <= x * 100.0 < c as real + 0.5
    ensures x < 0.0 ==> c <= 0 && c as real - 0.5 < x * 100.0 <= c as real + 0.5
  {
    if x >= 0.0 then (x * 100.0 + 0.5).Floor else -((-x * 100.0 + 0.5).Floor)
  }

  /** The value stored when `x` is bound to a DECIMAL(10, 2) column, in
      hundredths; `None` is the "numeric field overflow" error. */
  function DecimalCents(x: real): (r: Option<int>)
    ensures r.Some? <==> -DecimalBound < RoundToCents(x) < DecimalBound
    ensures r.Some? ==> r.value == RoundToCents(x)
  {
    var c := RoundToCents(x);
    if -DecimalBound < c < DecimalBound then Some(c) else None
  }

  /** A value that already has two decimals is stored exactly. */
  lemma DecimalCentsExact(c: int)
    requires -DecimalBound < c < DecimalBound
    ensures DecimalCents(c as real / 100.0) == Some(c)
  {
    var x := c as real / 100.0;
    assert x * 100.0 == c as real;
    var r := RoundToCents(x);
    assert r as real - 0.5 <= c as real <= r as real + 0.5;
  }

  /** A positive distance below half a centimetre passes the handlers'
      "positive number" check and is still stored as 0.00. */
  lemma TinyPositiveRoundsToZero()
    ensures 0.004 > 0.0 && DecimalCents(0.004) == Some(0)
  {
    assert RoundToCents(0.004) == 0;
  }
}
