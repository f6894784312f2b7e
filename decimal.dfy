/**
  Decimal text of integers, as Qt writes and reads it: QString::number for
  the encoder, and for fromQml the way QVariant::toInt reads a string
  (QString::toLongLong, then a truncating conversion to `int`).
*/
module Decimal {
  import opened Wrappers

  const INT_MIN: int := -0x8000_0000
  const INT_MAX: int := 0x7FFF_FFFF
  const LLONG_MIN: int := -0x8000_0000_0000_0000
  const LLONG_MAX: int := 0x7FFF_FFFF_FFFF_FFFF
  /** The number of distinct `int` values. */
  const INT_SPAN: int := 0x1_0000_0000

  /** The values of a C `int`, the type of the machine's numeric fields. */
  type Int32 = x: int | -0x8000_0000 <= x <= 0x7FFF_FFFF

  predicate IsDigit(c: char) {
    '0' <= c <= '9'
  }

  predicate AllDigits(s: string) {
    forall i :: 0 <= i < |s| ==> IsDigit(s[i])
  }

  function DigitChar(d: nat): (c: char)
    requires d < 10
    ensures IsDigit(c)
  {
    ('0' as int + d) as char
  }

  function DigitValue(c: char): (d: nat)
    requires IsDigit(c)
    ensures d < 10
  {
    c as int - '0' as int
  }

  /** The decimal digits of n, most significant first, with no leading zero. */
  function Digits(n: nat): (s: string)
    ensures |s| > 0 && AllDigits(s)
    ensures s[0] == '0' ==> n == 0
    decreases n
  {
    if n < 10 then [DigitChar(n)] else Digits(n / 10) + [DigitChar(n % 10)]
  }

  /** The value of a string of decimal digits (read left to right). */
  function DigitsValue(s: string): nat
    requires AllDigits(s)
  {
    if s == [] then 0 else DigitsValue(s[..|s| - 1]) * 10 + DigitValue(s[|s| - 1])
  }

  lemma {:induction false} DigitsRoundTrip(n: nat)
    ensures DigitsValue(Digits(n)) == n
  {
    if n >= 10 {
      var s := Digits(n / 10);
      assert Digits(n)[..|Digits(n)| - 1] == s;
      DigitsRoundTrip(n / 10);
    }
  }

  /** QString::number(n): a minus sign for negative n, then the digits of |n|. */
  function Number(n: int): (s: string)
    ensures |s| > 0 && (s[0] == '-' <==> n < 0)
    ensures n < 0 ==> |s| > 1 && AllDigits(s[1..])
    ensures n >= 0 ==> AllDigits(s)
  {
    if n < 0 then "-" + Digits(-n) else Digits(n)
  }

  /**
    The integer a decimal literal denotes: an optional '+' or '-' followed by
    at least one digit, and nothing else; None for any other text.
  */
  function ParseInteger(s: string): Option<int> {
    if |s| >= 2 && (s[0] == '-' || s[0] == '+') && AllDigits(s[1..]) then
      var magnitude: int := DigitsValue(s[1..]);
      Some(if s[0] == '-' then -magnitude else magnitude)
    else if |s| >= 1 && AllDigits(s) then
      Some(DigitsValue(s))
    else
      None
  }

  /**
    The C conversion of a 64-bit value to `int`: the two's-complement low
    32 bits, so the result is congruent to x modulo 2^32.
  */
  function Truncate32(x: int): (n: Int32)
    ensures (n - x) % INT_SPAN == 0
    ensures INT_MIN <= x <= INT_MAX ==> n == x
  {
    var low := x % INT_SPAN;
    if low > INT_MAX then low - INT_SPAN else low
  }

  /**
    QVariant::toInt on a string: QString::toLongLong gives the literal's
    value when it fits in 64 bits and 0 on any failure, and that value is
    then truncated to an `int` with no overflow reported.
  */
  function ToInt(s: string): (n: Int32)
    ensures ParseInteger(s).None? ==> n == 0
    ensures ParseInteger(s).Some? && INT_MIN <= ParseInteger(s).value <= INT_MAX ==> n == ParseInteger(s).value
    ensures ParseInteger(s).Some? && LLONG_MIN <= ParseInteger(s).value <= LLONG_MAX ==>
      (n - ParseInteger(s).value) % INT_SPAN == 0
    ensures ParseInteger(s).Some? && !(LLONG_MIN <= ParseInteger(s).value <= LLONG_MAX) ==> n == 0
  {
    match ParseInteger(s)
    case Some(v) => if LLONG_MIN <= v <= LLONG_MAX then Truncate32(v) else 0
    case None => 0
  }

  /** The text QString::number writes is read back by the parser as the same integer. */
  lemma NumberParses(n: int)
    ensures ParseInteger(Number(n)) == Some(n)
  {
    if n < 0 {
      var d := Digits(-n);
      var s := "-" + d;
      assert s == Number(n);
      assert |s| >= 2 && s[0] == '-';
      assert s[1..] == d;
      DigitsRoundTrip(-n);
      assert ParseInteger(s) == Some(0 - DigitsValue(d) as int);
    } else {
      var d := Digits(n);
      assert d == Number(n);
      assert IsDigit(d[0]);
      assert d[0] != '-' && d[0] != '+';
      DigitsRoundTrip(n);
      assert ParseInteger(d) == Some(DigitsValue(d));
    }
  }

  /**
    Text beyond the `int` range is not rejected but wraps: 4294967297 reads
    as 1 and 2147483648 as -2147483648, while text beyond 64 bits reads as 0.
  */
  lemma OutOfRangeWraps()
    ensures ToInt(Number(0x1_0000_0001)) == 1
    ensures ToInt(Number(0x8000_0000)) == INT_MIN
    ensures ToInt(Number(0x1_0000_0000_0000_0000)) == 0
  {
    NumberParses(0x1_0000_0001);
    NumberParses(0x8000_0000);
    NumberParses(0x1_0000_0000_0000_0000);
  }

  /** Writing an `int` with QString::number and reading it with toInt gives it back. */
  lemma NumberRoundTrip(n: Int32)
    ensures ToInt(Number(n)) == n
  {
    NumberParses(n);
  }
}
