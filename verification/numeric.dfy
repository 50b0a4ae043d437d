/** Go integer semantics the model needs: 64-bit ranges, truncating
    division, decimal formatting as done by `fmt`'s `%d` and `%02d`, and
    decimal parsing as done by `strconv.Atoi`. */
module Numeric {
  import opened Wrappers

  const MinInt64: int := -0x8000_0000_0000_0000
  const MaxInt64: int := 0x7FFF_FFFF_FFFF_FFFF
  /** 2^64: the modulus of Go's `uint` on a 64-bit platform. */
  const TwoTo64: int := 0x1_0000_0000_0000_0000

  /** Go's `int` and `int64` on a 64-bit platform. */
  type Int64 = x: int | MinInt64 <= x <= MaxInt64

  /** Go's `uint` on a 64-bit platform. */
  type Uint64 = x: int | 0 <= x < TwoTo64

  /** The 64-bit two's-complement value congruent to `x`: what Go's `int`
      arithmetic and `int(u)` conversions yield when they overflow. */
  function WrapInt64(x: int): (r: Int64)
    ensures (r - x) % TwoTo64 == 0
    ensures MinInt64 <= x <= MaxInt64 ==> r == x
  {
    (x - MinInt64) % TwoTo64 + MinInt64
  }

  /** Go's `/`: the quotient truncated toward zero. */
  function TruncDiv(a: int, b: int): (q: int)
    requires b > 0
    ensures a >= 0 ==> q == a / b
    ensures a < 0 ==> q == -((-a) / b)
  {
    if a >= 0 then a / b else -((-a) / b)
  }

  /** Go's `%`: the remainder takes the sign of the dividend, so that
      `a == TruncDiv(a, b) * b + TruncRem(a, b)`. */
  function TruncRem(a: int, b: int): (r: int)
    requires b > 0
    ensures a == TruncDiv(a, b) * b + r
    ensures a >= 0 ==> 0 <= r < b
    ensures a < 0 ==> -b < r <= 0
  {
    a - TruncDiv(a, b) * b
  }

  /** Go's conversion `uint(x)` of a 64-bit signed value. */
  function ToUint(x: Int64): (u: nat)
    ensures u < TwoTo64
    ensures (u - x) % TwoTo64 == 0
    ensures x >= 0 ==> u == x
  {
    if x < 0 then x + TwoTo64 else x
  }

  predicate IsDigit(c: char) {
    '0' <= c <= '9'
  }

  predicate AllDigits(s: string) {
    forall i :: 0 <= i < |s| ==> IsDigit(s[i])
  }

  function DigitChar(d: nat): (c: char)
    requires d < 10
    ensures IsDigit(c)
    ensures DigitValue(c) == d
  {
    (48 + d) as char
  }

  function DigitValue(c: char): (d: nat)
    requires IsDigit(c)
    ensures d < 10
  {
    (c as int) - 48
  }

  /** The decimal digits of `n`, most significant first, without leading
      zeros. */
  function NatText(n: nat): (s: string)
    ensures 1 <= |s|
    ensures AllDigits(s)
    ensures (|s| == 1) == (n < 10)
    ensures (s[0] == '0') == (n == 0)
    decreases n
  {
    if n < 10 then [DigitChar(n)] else NatText(n / 10) + [DigitChar(n % 10)]
  }

  /** The number a string of decimal digits denotes. */
  function DigitsValue(s: string): nat
    requires AllDigits(s)
    decreases |s|
  {
    if |s| == 0 then 0 else 10 * DigitsValue(s[..|s| - 1]) + DigitValue(s[|s| - 1])
  }

  /** Reading back the digits `NatText` writes yields the number. */
  lemma {:induction false} NatTextRoundTrip(n: nat)
    ensures DigitsValue(NatText(n)) == n
    decreases n
  {
    if n >= 10 {
      NatTextRoundTrip(n / 10);
      var s := NatText(n);
      assert s[..|s| - 1] == NatText(n / 10);
    }
  }

  /** `fmt.Sprintf("%d", n)`. */
  function Itoa(n: int): (s: string)
    ensures 1 <= |s|
    ensures n >= 0 ==> AllDigits(s) && DigitsValue(s) == n
    ensures n < 0 ==> s[0] == '-' && AllDigits(s[1..]) && DigitsValue(s[1..]) == -n
  {
    if n < 0 then
      NatTextRoundTrip(-n);
      "-" + NatText(-n)
    else
      NatTextRoundTrip(n);
      NatText(n)
  }

  /** `fmt.Sprintf("%02d", n)`: at least two characters, zero-padded after
      the sign; a negative number already has two characters. */
  function Pad2(n: int): (s: string)
    ensures 2 <= |s|
    ensures 0 <= n < 100 ==> |s| == 2
    ensures n >= 0 ==> AllDigits(s) && DigitsValue(s) == n
    ensures n < 0 ==> s == Itoa(n)
    ensures n >= 10 ==> s == Itoa(n)
  {
    if 0 <= n < 10 then
      NatTextRoundTrip(n);
      assert DigitsValue("0" + NatText(n)) == n by {
        assert ("0" + NatText(n))[..1] == "0";
      }
      "0" + NatText(n)
    else
      Itoa(n)
  }

  /** `fmt.Sprintf("%02d:%02d", seconds/60, seconds%60)` with Go's
      truncating operators: a remaining time as minutes and seconds. */
  function ClockText(seconds: int): (s: string)
    ensures forall i :: 0 <= i < |s| ==> s[i] == ':' || s[i] == '-' || IsDigit(s[i])
  {
    Pad2(TruncDiv(seconds, 60)) + ":" + Pad2(TruncRem(seconds, 60))
  }

  /** For a non-negative time, the text reads back as the time: the part
      before the colon counts minutes, the two digits after it count
      seconds below 60. */
  lemma ClockTextReadsBack(seconds: nat)
    ensures var t := ClockText(seconds);
            && 5 <= |t| && t[|t| - 3] == ':'
            && AllDigits(t[..|t| - 3]) && AllDigits(t[|t| - 2..])
            && DigitsValue(t[|t| - 2..]) < 60
            && DigitsValue(t[..|t| - 3]) * 60 + DigitsValue(t[|t| - 2..]) == seconds
  {
    var mm := Pad2(TruncDiv(seconds, 60));
    var ss := Pad2(TruncRem(seconds, 60));
    var t := ClockText(seconds);
    assert t == mm + ":" + ss;
    assert |ss| == 2;
    assert t[..|t| - 3] == mm;
    assert t[|t| - 2..] == ss;
  }

  /** The text after an optional leading sign. */
  function Unsigned(s: string): (d: string)
    requires 1 <= |s|
    ensures |d| + 1 >= |s|
  {
    if s[0] == '-' || s[0] == '+' then s[1..] else s
  }

  /** `strconv.Atoi` on a 64-bit platform: an optional sign, then at least
      one decimal digit, and the value must fit in 64 bits. Anything else,
      the empty text and a sign alone included, is rejected. */
  function Atoi(s: string): (r: Option<int>)
    ensures r.Some? <==>
              && 1 <= |s| && 1 <= |Unsigned(s)| && AllDigits(Unsigned(s))
              && (if s[0] == '-' then DigitsValue(Unsigned(s)) <= -MinInt64 else DigitsValue(Unsigned(s)) <= MaxInt64)
    ensures r.Some? ==> r.value == (if s[0] == '-' then -(DigitsValue(Unsigned(s)) as int) else DigitsValue(Unsigned(s)))
    ensures r.Some? ==> MinInt64 <= r.value <= MaxInt64
    ensures AllDigits(s) && 1 <= |s| && DigitsValue(s) <= MaxInt64 ==> r == Some(DigitsValue(s))
  {
    if |s| == 0 then None
    else
      var negative := s[0] == '-';
      var digits := Unsigned(s);
      if |digits| == 0 || !AllDigits(digits) then None
      else
        var magnitude: int := DigitsValue(digits);
        var v := if negative then -magnitude else magnitude;
        if MinInt64 <= v <= MaxInt64 then Some(v) else None
  }

  /** A signed number reads as itself: a minus sign negates, a plus sign
      changes nothing. */
  lemma AtoiSigned(n: nat)
    ensures n <= -MinInt64 ==> Atoi("-" + NatText(n)) == Some(-(n as int))
    ensures n <= MaxInt64 ==> Atoi("+" + NatText(n)) == Some(n)
    ensures n > MaxInt64 ==> Atoi(NatText(n)) == None
  {
    NatTextRoundTrip(n);
    assert Unsigned("-" + NatText(n)) == NatText(n);
    assert Unsigned("+" + NatText(n)) == NatText(n);
  }

  /** `Atoi` reads back every 64-bit number `%d` writes. */
  lemma AtoiItoa(n: Int64)
    ensures Atoi(Itoa(n)) == Some(n)
  {
    var s := Itoa(n);
    if n < 0 {
      assert s[0] == '-';
    } else {
      assert s[0] != '-' && s[0] != '+';
    }
  }
}
