/**
  Block heights arrive as decimal strings in transaction records. The scripts
  turn them into numbers with `strconv.ParseInt(h, 10, 64)` and throw the error
  away, so what a malformed height compares as is whatever ParseInt returns
  alongside its error: 0 for a syntax error, the clamped int64 bound for an
  out-of-range value. This module states that parse exactly.
*/
module Heights {

  const MaxUint64: nat := 18446744073709551615
  const MaxInt64: nat := 9223372036854775807
  const MinInt64: int := -9223372036854775808

  /** ParseUint's overflow guard for base 10: an accumulator at or above it cannot take another digit. */
  const Cutoff: nat := MaxUint64 / 10 + 1

  datatype UintParse = Parsed(n: nat) | SyntaxError | RangeError

  predicate IsDigit(c: char)
  {
    '0' <= c <= '9'
  }

  function DigitValue(c: char): nat
    requires IsDigit(c)
  {
    c as int - '0' as int
  }

  function Digit(d: nat): char
    requires d < 10
  {
    ('0' as int + d) as char
  }

  /** The digit loop of strconv.ParseUint, left to right, stopping at the first bad digit or overflow. */
  function ScanUint(s: string, acc: nat): UintParse
    requires acc <= MaxUint64
    decreases |s|
  {
    if |s| == 0 then Parsed(acc)
    else if !IsDigit(s[0]) then SyntaxError
    else if acc >= Cutoff then RangeError
    else if acc * 10 + DigitValue(s[0]) > MaxUint64 then RangeError
    else ScanUint(s[1..], acc * 10 + DigitValue(s[0]))
  }

  /** strconv.ParseUint(s, 10, 64) */
  function ParseUint(s: string): UintParse
  {
    if s == "" then SyntaxError else ScanUint(s, 0)
  }

  /** The text after ParseInt's optional leading sign. */
  function Unsigned(s: string): string
  {
    if |s| > 0 && (s[0] == '+' || s[0] == '-') then s[1..] else s
  }

  /**
    The value of `strconv.ParseInt(s, 10, 64)` with its error discarded:
    0 on a syntax error, the clamped bound on a range error.
  */
  function ParseHeight(s: string): (h: int)
    ensures MinInt64 <= h <= MaxInt64
  {
    if s == "" then 0
    else
      var neg := s[0] == '-';
      var magnitude :=
        match ParseUint(Unsigned(s))
        case Parsed(n) => n
        case RangeError => MaxUint64
        case SyntaxError => 0;
      if !neg && magnitude > MaxInt64 then MaxInt64
      else if neg && magnitude > MaxInt64 + 1 then MinInt64
      else if neg then -magnitude
      else magnitude
  }

  /** The canonical decimal text of a non-negative number, as a chain reports a height. */
  function DecimalString(n: nat): (s: string)
    ensures |s| > 0 && IsDigit(s[0])
  {
    if n < 10 then [Digit(n)] else DecimalString(n / 10) + [Digit(n % 10)]
  }

  function Pow10(k: nat): nat
  {
    if k == 0 then 1 else 10 * Pow10(k - 1)
  }

  lemma {:induction false} Pow10Monotone(a: nat, b: nat)
    requires a <= b
    ensures Pow10(a) <= Pow10(b)
    decreases b
  {
    if a < b {
      Pow10Monotone(a, b - 1);
    }
  }

  /** The two powers of ten that bound a 19-digit accumulator. */
  lemma Pow10Nineteen()
    ensures Pow10(18) == 1000000000000000000 && Pow10(19) == 10000000000000000000
  {
    assert Pow10(1) == 10;
    assert Pow10(2) == 100;
    assert Pow10(3) == 1000;
    assert Pow10(4) == 10000;
    assert Pow10(5) == 100000;
    assert Pow10(6) == 1000000;
    assert Pow10(7) == 10000000;
    assert Pow10(8) == 100000000;
    assert Pow10(9) == 1000000000;
    assert Pow10(10) == 10000000000;
    assert Pow10(11) == 100000000000;
    assert Pow10(12) == 1000000000000;
    assert Pow10(13) == 10000000000000;
    assert Pow10(14) == 100000000000000;
    assert Pow10(15) == 1000000000000000;
    assert Pow10(16) == 10000000000000000;
    assert Pow10(17) == 100000000000000000;
    assert Pow10(18) == 1000000000000000000;
    assert Pow10(19) == 10000000000000000000;
  }

  /** Appending a digit extends a successful scan, as long as the value still fits in 64 bits. */
  lemma {:induction false} ScanUintSnoc(s: string, c: char, acc: nat, m: nat)
    requires acc <= MaxUint64
    requires ScanUint(s, acc) == Parsed(m)
    requires IsDigit(c) && m * 10 + DigitValue(c) <= MaxUint64
    ensures ScanUint(s + [c], acc) == Parsed(m * 10 + DigitValue(c))
    decreases |s|
  {
    if |s| == 0 {
      assert s + [c] == [c];
      assert [c][1..] == [];
    } else {
      var next := acc * 10 + DigitValue(s[0]);
      assert (s + [c])[0] == s[0];
      assert (s + [c])[1..] == s[1..] + [c];
      ScanUintSnoc(s[1..], c, next, m);
    }
  }

  lemma {:induction false} ScanDecimal(n: nat)
    requires n <= MaxUint64
    ensures ScanUint(DecimalString(n), 0) == Parsed(n)
  {
    if n < 10 {
      assert [Digit(n)][1..] == [];
    } else {
      ScanDecimal(n / 10);
      ScanUintSnoc(DecimalString(n / 10), Digit(n % 10), 0, n / 10);
    }
  }

  /** A well-formed height round-trips: parsing the decimal text of h gives back h. */
  lemma DecimalRoundTrip(h: nat)
    requires h <= MaxInt64
    ensures ParseHeight(DecimalString(h)) == h
  {
    ScanDecimal(h);
  }

  /**
    A scan that meets a bad character after at most 19 digits has not yet
    overflowed, so it reports a syntax error.
  */
  lemma {:induction false} ScanUintBadChar(s: string, acc: nat, consumed: nat, i: nat)
    requires acc <= MaxUint64
    requires i < |s| && !IsDigit(s[i])
    requires forall j :: 0 <= j < i ==> IsDigit(s[j])
    requires acc < Pow10(consumed) && consumed + i <= 19
    ensures ScanUint(s, acc) == SyntaxError
    decreases i
  {
    if i > 0 {
      Pow10Monotone(consumed, 18);
      Pow10Monotone(consumed + 1, 19);
      Pow10Nineteen();
      var next := acc * 10 + DigitValue(s[0]);
      ScanUintBadChar(s[1..], next, consumed + 1, i - 1);
    }
  }

  /**
    An unparseable height compares as 0: no digits after the optional sign, or
    a non-digit among the first twenty characters after it.
  */
  lemma MalformedHeightIsZero(s: string, i: nat)
    requires i <= 19 && i < |Unsigned(s)| && !IsDigit(Unsigned(s)[i])
    requires forall j :: 0 <= j < i ==> IsDigit(Unsigned(s)[j])
    ensures ParseHeight(s) == 0
  {
    ScanUintBadChar(Unsigned(s), 0, 0, i);
  }

  /** A sign with nothing after it, or no text at all, also compares as 0. */
  lemma EmptyHeightIsZero(s: string)
    requires Unsigned(s) == ""
    ensures ParseHeight(s) == 0
  {
  }
}
