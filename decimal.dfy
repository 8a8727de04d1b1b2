/**
  Decimal rendering of integers, as Go's `fmt` verb `%d` writes an `int`:
  an optional minus sign followed by the digits, most significant first, with
  no leading zero. `ParseInt` reads such a string back; the round-trip lemma
  shows that the rendering loses nothing, so a number written into the
  webhook's response can be recovered from it.
*/
module Decimal {

  predicate IsDigit(c: char) {
    '0' <= c <= '9'
  }

  predicate AllDigits(s: string) {
    forall i | 0 <= i < |s| :: IsDigit(s[i])
  }

  function DigitChar(d: nat): (c: char)
    requires d < 10
    ensures IsDigit(c) && c as int - '0' as int == d
  {
    ('0' as int + d) as char
  }

  /** The decimal digits of `n`, most significant first. */
  function Digits(n: nat): (s: string)
    ensures |s| > 0 && AllDigits(s)
    ensures s[0] == '0' ==> n == 0  // no leading zero
    decreases n
  {
    if n < 10 then [DigitChar(n)] else Digits(n / 10) + [DigitChar(n % 10)]
  }

  /** `n` as `%d` prints it. */
  function FormatInt(n: int): (s: string)
    ensures |s| > 0
    ensures s[0] == '-' <==> n < 0
    ensures n >= 0 ==> IsDigit(s[0])
    ensures AllDigits(s[1..])
    ensures s[0] == '0' ==> n == 0                 // no leading zero
    ensures n < 0 ==> |s| > 1 && s[1] != '0'       // nor after the sign
  {
    if n < 0 then "-" + Digits(-n) else Digits(n)
  }

  /** The value of a string of decimal digits (the empty string reads as 0). */
  function ParseNat(s: string): (n: nat)
    requires AllDigits(s)
  {
    if s == [] then 0
    else ParseNat(s[..|s| - 1]) * 10 + (s[|s| - 1] as int - '0' as int)
  }

  /** The value of an optionally signed string of decimal digits. */
  function ParseInt(s: string): (n: int)
    requires |s| > 0
    requires s[0] == '-' || IsDigit(s[0])
    requires AllDigits(s[1..])
  {
    if s[0] == '-' then -(ParseNat(s[1..]) as int) else ParseNat(s)
  }

  lemma {:induction false} DigitsRoundTrip(n: nat)
    ensures ParseNat(Digits(n)) == n
    decreases n
  {
    if n >= 10 {
      var s := Digits(n);
      assert s[..|s| - 1] == Digits(n / 10);
      DigitsRoundTrip(n / 10);
    }
  }

  /** Reading back what `FormatInt` writes gives the number it was given. */
  lemma FormatRoundTrip(n: int)
    ensures ParseInt(FormatInt(n)) == n
  {
    var s := FormatInt(n);
    if n < 0 {
      assert s[1..] == Digits(-n);
      DigitsRoundTrip(-n);
    } else {
      DigitsRoundTrip(n);
    }
  }

  /** Distinct numbers are written as distinct strings. */
  lemma FormatInjective(m: int, n: int)
    requires FormatInt(m) == FormatInt(n)
    ensures m == n
  {
    FormatRoundTrip(m);
    FormatRoundTrip(n);
  }

  /**
    A decimal number followed by a non-digit ends where the non-digit starts:
    if two such strings agree, so do their numbers.
  */
  lemma FormatDelimited(m: int, n: int, x: string, y: string)
    requires |x| > 0 && |y| > 0 && !IsDigit(x[0]) && !IsDigit(y[0])
    requires FormatInt(m) + x == FormatInt(n) + y
    ensures m == n && x == y
  {
    var a, c := FormatInt(m), FormatInt(n);
    var s := a + x;
    assert s == c + y;
    // past the sign, each number is digits up to the non-digit that follows it
    assert !IsDigit(s[|a|]) && !IsDigit(s[|c|]);
    assert forall k | 1 <= k < |a| :: IsDigit(s[k]);
    assert forall k | 1 <= k < |c| :: IsDigit(s[k]);
    assert |a| == |c|;
    assert a == (a + x)[..|a|] && c == (c + y)[..|c|];
    FormatInjective(m, n);
    assert x == (a + x)[|a|..];
  }
}
