/**
 * The few pieces of JavaScript semantics that the analytics tools depend on:
 * numbers that may be NaN, `String()` of an integer, `Array.prototype.slice`
 * with negative indices, and `Number(x.toFixed(1))`.
 */
module Js {

  datatype Option<T> = None | Some(value: T)

  /** A JavaScript number as the tools can produce it: a finite value, or NaN (what `0 / 0` gives). */
  datatype Num = Fin(v: real) | NaN

  /**
   * `sum / count` where a zero count comes only with an empty, hence zero, sum:
   * JavaScript answers NaN for `0 / 0`.
   */
  function Div(sum: real, count: nat): (r: Num)
    requires count == 0 ==> sum == 0.0
    ensures r.NaN? <==> count == 0
    ensures r.Fin? ==> r.v * count as real == sum
  {
    if count == 0 then NaN else Fin(sum / count as real)
  }

  /** `(x / 10) * 100`: items correct out of 10 as a percentage. */
  function Percent(x: real): (r: real)
    ensures r == 10.0 * x
  {
    x / 10.0 * 100.0
  }

  /** `Percent` on a number that may be NaN; NaN stays NaN. */
  function PercentOfTen(x: Num): (r: Num)
    ensures r.NaN? <==> x.NaN?
    ensures r.Fin? ==> r.v == 10.0 * x.v
  {
    match x
    case NaN => NaN
    case Fin(v) => Fin(Percent(v))
  }

  /** `x < y`, which is false as soon as one side is NaN. */
  predicate Less(x: Num, y: Num) {
    x.Fin? && y.Fin? && x.v < y.v
  }

  // ---------------------------------------------------------------------------
  // String(n) for an integer n

  function DigitChar(d: nat): (c: char)
    requires d < 10
    ensures '0' <= c <= '9'
  {
    "0123456789"[d]
  }

  function CharDigit(c: char): nat
    requires '0' <= c <= '9'
  {
    (c as int - '0' as int) as nat
  }

  /** The decimal digits of n, most significant first, without leading zeros. */
  function Digits(n: nat): (s: string)
    ensures |s| > 0
    ensures forall i :: 0 <= i < |s| ==> '0' <= s[i] <= '9'
    decreases n
  {
    if n < 10 then [DigitChar(n)] else Digits(n / 10) + [DigitChar(n % 10)]
  }

  /** The value of a string of decimal digits. */
  function DigitsValue(s: string): nat
    requires forall i :: 0 <= i < |s| ==> '0' <= s[i] <= '9'
  {
    if s == [] then 0 else DigitsValue(s[..|s| - 1]) * 10 + CharDigit(s[|s| - 1])
  }

  /** `String(n)` for an integer n. */
  function IntToString(n: int): (s: string)
    ensures |s| > 0
    ensures s[0] == '-' <==> n < 0
  {
    if n < 0 then "-" + Digits(-n) else Digits(n)
  }

  lemma {:induction false} DigitsRoundTrip(n: nat)
    ensures DigitsValue(Digits(n)) == n
    decreases n
  {
    if n >= 10 {
      DigitsRoundTrip(n / 10);
      var s := Digits(n);
      assert s[..|s| - 1] == Digits(n / 10);
    }
  }

  /** Reads back what IntToString writes. */
  function ParseInt(s: string): int
    requires |s| > 0
    requires forall i :: 0 < i < |s| ==> '0' <= s[i] <= '9'
    requires s[0] == '-' || '0' <= s[0] <= '9'
  {
    if s[0] == '-' then -(DigitsValue(s[1..]) as int) else DigitsValue(s)
  }

  lemma IntToStringRoundTrip(n: int)
    ensures var s := IntToString(n);
              && |s| > 0 && (s[0] == '-' || '0' <= s[0] <= '9')
              && (forall i :: 0 < i < |s| ==> '0' <= s[i] <= '9')
              && ParseInt(s) == n
  {
    var s := IntToString(n);
    if n < 0 {
      assert s[1..] == Digits(-n);
      DigitsRoundTrip(-n);
    } else {
      DigitsRoundTrip(n);
    }
  }

  /** Distinct integers have distinct decimal spellings, so `String(x) === String(y)` iff `x == y`. */
  lemma IntToStringInjective(x: int, y: int)
    ensures IntToString(x) == IntToString(y) <==> x == y
  {
    IntToStringRoundTrip(x);
    IntToStringRoundTrip(y);
  }

  // ---------------------------------------------------------------------------
  // Array.prototype.slice

  /** How `slice` turns a relative index into a position: negative counts from the end, then clamp. */
  function RelativeIndex(len: nat, rel: int): (k: nat)
    ensures k <= len
    ensures 0 <= rel <= len ==> k == rel
    ensures -(len as int) <= rel < 0 ==> k == len + rel
  {
    if rel < 0 then (if len + rel < 0 then 0 else len + rel)
    else if rel > len then len
    else rel
  }

  /** `s.slice(start, end)`. */
  function Slice<T>(s: seq<T>, start: int, end: int): (r: seq<T>)
    ensures |r| <= |s|
    ensures 0 <= start <= end <= |s| ==> r == s[start..end]
    ensures forall x :: x in r ==> x in s
  {
    var a := RelativeIndex(|s|, start);
    var b := RelativeIndex(|s|, end);
    if a < b then s[a..b] else []
  }

  /** `s.slice(start)`. */
  function SliceFrom<T>(s: seq<T>, start: int): (r: seq<T>)
    ensures 0 <= start <= |s| ==> r == s[start..]
    ensures -(|s| as int) <= start < 0 ==> r == s[|s| + start..]
  {
    Slice(s, start, |s|)
  }

  // ---------------------------------------------------------------------------
  // Number(x.toFixed(1))

  /**
   * `Number(x.toFixed(1))` over exact reals: the nearest multiple of 0.1, halves
   * rounded away from zero (toFixed rounds the magnitude and then restores the sign).
   */
  function RoundTenths(x: real): (r: real)
    ensures -0.05 <= r - x <= 0.05
  {
    if x >= 0.0 then
      var f := (x * 10.0 + 0.5).Floor;
      assert f as real <= x * 10.0 + 0.5 < f as real + 1.0;
      f as real / 10.0
    else
      var f := (-x * 10.0 + 0.5).Floor;
      assert f as real <= -x * 10.0 + 0.5 < f as real + 1.0;
      -(f as real / 10.0)
  }

  lemma RoundTenthsOfWhole(k: int)
    ensures RoundTenths(k as real) == k as real
  {
    if k >= 0 {
      assert (k as real * 10.0 + 0.5).Floor == 10 * k;
    } else {
      assert (-(k as real) * 10.0 + 0.5).Floor == -10 * k;
    }
  }
}
