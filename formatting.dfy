/**
 * Decimal text as the watch face produces and consumes it: the `%02d`
 * conversion of `String.format`, `Integer.toString` and `Integer.parseInt`
 * (radix 10, 32-bit range), over ASCII digits.
 */
module Formatting {

  datatype Option<T> = None | Some(value: T)

  /** The smallest and largest values of a Java `int`. */
  const IntMin: int := -0x8000_0000
  const IntMax: int := 0x7fff_ffff

  predicate IsDigit(c: char) {
    '0' <= c <= '9'
  }

  predicate AllDigits(s: string) {
    forall i :: 0 <= i < |s| ==> IsDigit(s[i])
  }

  function DigitValue(c: char): (d: int)
    requires IsDigit(c)
    ensures 0 <= d < 10
  {
    c as int - '0' as int
  }

  function DigitChar(d: int): (c: char)
    requires 0 <= d < 10
    ensures IsDigit(c) && DigitValue(c) == d
  {
    ('0' as int + d) as char
  }

  /** The shortest decimal text of `n`: digits only, no leading zero. */
  function Decimal(n: nat): (s: string)
    ensures 1 <= |s| && AllDigits(s)
    ensures |s| > 1 ==> s[0] != '0'
    ensures n < 10 <==> |s| == 1
  {
    if n < 10 then [DigitChar(n)] else Decimal(n / 10) + [DigitChar(n % 10)]
  }

  /** The value of a string of decimal digits, read most significant first. */
  function DecimalValue(s: string): nat
    requires AllDigits(s)
  {
    if s == [] then 0 else DecimalValue(s[..|s| - 1]) * 10 + DigitValue(s[|s| - 1])
  }

  /** Reading back the decimal text of a number gives the number. */
  lemma {:induction false} DecimalRoundTrip(n: nat)
    ensures DecimalValue(Decimal(n)) == n
  {
    var s := Decimal(n);
    if n >= 10 {
      assert s[..|s| - 1] == Decimal(n / 10);
      DecimalRoundTrip(n / 10);
    }
  }

  /** `Integer.toString(n)`: a minus sign for negative values, then the digits. */
  function IntToString(n: int): string {
    if n < 0 then "-" + Decimal(-n) else Decimal(n)
  }

  /** A sign character followed by one or more digits. */
  predicate SignedDigits(s: string, sign: char) {
    |s| > 1 && s[0] == sign && AllDigits(s[1..])
  }

  /** Reads a string of decimal digits left to right; `None` at the first character that is not a digit. */
  function ParseDigits(s: string): Option<nat> {
    if s == [] then Some(0)
    else if !IsDigit(s[|s| - 1]) then None
    else match ParseDigits(s[..|s| - 1])
      case None => None
      case Some(v) => Some(v * 10 + DigitValue(s[|s| - 1]))
  }

  /** The digit reader accepts exactly the strings of digits, and reads their decimal value. */
  lemma {:induction false} ParseDigitsValue(s: string)
    ensures ParseDigits(s).Some? <==> AllDigits(s)
    ensures ParseDigits(s).Some? ==> ParseDigits(s).value == DecimalValue(s)
  {
    if s != [] {
      var prefix := s[..|s| - 1];
      ParseDigitsValue(prefix);
      assert AllDigits(s) <==> AllDigits(prefix) && IsDigit(s[|s| - 1]) by {
        assert forall i :: 0 <= i < |prefix| ==> prefix[i] == s[i];
      }
    }
  }

  /**
   * `Integer.parseInt(s)`: an optional leading `-` or `+`, then at least one
   * digit, and a value that fits in an `int`; `None` where Java throws
   * `NumberFormatException`. Leading zeros are allowed.
   */
  function ParseInt(s: string): (r: Option<int>)
    ensures r.Some? ==> IntMin <= r.value <= IntMax
  {
    if |s| == 0 then None
    else
      var digits := if s[0] == '-' || s[0] == '+' then s[1..] else s;
      var d := ParseDigits(digits);
      if |digits| == 0 || d.None? then None
      else
        var v: int := if s[0] == '-' then -(d.value as int) else d.value;
        if IntMin <= v <= IntMax then Some(v) else None
  }

  /**
   * Which texts `Integer.parseInt` accepts, and what it reads them as:
   * one or more digits, optionally after a `+` or a `-`, whose value fits
   * in an `int`.
   */
  lemma ParseIntAccepts(s: string)
    ensures ParseInt(s).Some? <==>
      || (|s| > 0 && AllDigits(s) && DecimalValue(s) <= IntMax)
      || (SignedDigits(s, '+') && DecimalValue(s[1..]) <= IntMax)
      || (SignedDigits(s, '-') && DecimalValue(s[1..]) <= -IntMin)
    ensures ParseInt(s).Some? && AllDigits(s) ==> ParseInt(s).value == DecimalValue(s)
    ensures ParseInt(s).Some? && SignedDigits(s, '+') ==> ParseInt(s).value == DecimalValue(s[1..])
    ensures ParseInt(s).Some? && SignedDigits(s, '-') ==> ParseInt(s).value == -(DecimalValue(s[1..]) as int)
  {
    if |s| > 0 {
      ParseDigitsValue(s);
      ParseDigitsValue(s[1..]);
    }
  }

  /** `Integer.parseInt` inverts `Integer.toString` on every `int`. */
  lemma ParseIntRoundTrip(n: int)
    requires IntMin <= n <= IntMax
    ensures ParseInt(IntToString(n)) == Some(n)
  {
    var s := IntToString(n);
    ParseIntAccepts(s);
    if n < 0 {
      assert s[1..] == Decimal(-n);
      DecimalRoundTrip(-n);
    } else {
      DecimalRoundTrip(n);
    }
  }

  /** The results `Integer.parseInt` gives on a few non-canonical texts. */
  lemma ParseIntExamples()
    ensures ParseInt("+7") == Some(7) && ParseInt("-0") == Some(0) && ParseInt("007") == Some(7)
    ensures ParseInt("") == None && ParseInt("+") == None && ParseInt("1a") == None
  {
    assert "+7"[1..] == "7" && "7"[..0] == "";
    assert "-0"[1..] == "0" && "0"[..0] == "";
    assert "007"[..2] == "00" && "00"[..1] == "0" && "0"[..0] == "";
    assert !IsDigit("1a"[1]);
  }

  /** Leading zeros are accepted: the text "00" reads as zero. */
  lemma DoubleZeroIsZero()
    ensures ParseInt("00") == Some(0)
  {
    assert AllDigits("00") && "00"[..1] == "0" && "0"[..0] == "";
  }

  /**
   * The `%02d` conversion: at least two characters, padded with a leading
   * zero; a negative value already has two characters with its sign.
   */
  function ZeroPad2(n: int): (s: string)
    ensures 0 <= n < 100 ==> s == [DigitChar(n / 10), DigitChar(n % 10)]
    ensures 0 <= n < 100 ==> AllDigits(s) && DecimalValue(s) == n
    ensures 100 <= n ==> s == Decimal(n)
    ensures n < 0 ==> s == "-" + Decimal(-n)
  {
    if n < 0 then "-" + Decimal(-n)
    else if n < 10 then
      assert ("0" + Decimal(n))[..1] == "0" && "0"[..0] == "";
      "0" + Decimal(n)
    else
      assert n < 100 ==> Decimal(n / 10) == [DigitChar(n / 10)];
      DecimalRoundTrip(n);
      Decimal(n)
  }
}
