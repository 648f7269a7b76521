/**
 * Percentages as the program prints them. Every score the program computes is
 * `round(x, 1)` of a percentage, so the model keeps scores as whole numbers
 * of TENTHS of a percent (`853` is 85.3%). Rounding is Python's
 * round-half-to-even, applied to the exact rational value.
 */
module Scores {
  import opened Wrappers
  import opened Text

  /** 100.0% in tenths. */
  const Full: nat := 1000

  /** `r` is within half a unit of the exact quotient num / den. */
  predicate NearestTo(num: nat, den: nat, r: nat) {
    r * (2 * den) <= 2 * num + den && 2 * num <= r * (2 * den) + den
  }

  /** `num / den` rounded to the nearest integer, ties to even. */
  function RoundHalfEven(num: nat, den: nat): (r: nat)
    requires den > 0
    ensures NearestTo(num, den, r)
    ensures num <= Full * den ==> r <= Full
    ensures num == 0 ==> r == 0
  {
    var q, rem := num / den, num % den;
    var up := 2 * rem > den || (2 * rem == den && q % 2 == 1);
    var r := if up then q + 1 else q;
    RoundingError(num, den, q, rem, r);
    r
  }

  /** The rounded quotient is within half a unit of the exact one. */
  lemma RoundingError(num: nat, den: nat, q: nat, rem: nat, r: nat)
    requires den > 0 && q == num / den && rem == num % den
    requires r == q || (r == q + 1 && 2 * rem >= den)
    requires r == q ==> 2 * rem <= den
    ensures NearestTo(num, den, r)
    ensures num <= Full * den ==> r <= Full
    ensures num == 0 ==> r == 0
  {
    var p := q * den;
    assert num == p + rem;
    assert r * (2 * den) == 2 * (r * den);
    if r == q + 1 {
      assert r * den == p + den;
    }
    if num <= Full * den && r > Full {
      MulMono(Full + 1, r, 2 * den);
    }
  }

  /** Multiplication is monotone: a proof helper for `RoundHalfEven`'s bound. */
  lemma MulMono(a: nat, b: nat, c: nat)
    requires a <= b
    ensures a * c <= b * c
  {
  }

  /**
   * `round(resume * 0.4 + interview * 0.6, 1)` (main.py) in tenths: the
   * exact blend is (4 * resume + 6 * interview) / 10 tenths.
   */
  function Blend(resume: nat, interview: nat): (total: nat)
    ensures resume <= interview ==> resume <= total <= interview
    ensures interview <= resume ==> interview <= total <= resume
  {
    RoundHalfEven(4 * resume + 6 * interview, 10)
  }

  lemma BlendWithinRange(resume: nat, interview: nat)
    requires resume <= Full && interview <= Full
    ensures Blend(resume, interview) <= Full
  {
  }

  function DigitChar(d: nat): (c: char)
    requires d < 10
    ensures IsDigit(c)
  {
    "0123456789"[d]
  }

  function DigitValue(c: char): (d: nat)
    requires IsDigit(c)
    ensures d < 10
  {
    (c as int) - ('0' as int)
  }

  /** The decimal digits of `n`, without leading zeros. */
  function NatToString(n: nat): (s: string)
    ensures s != [] && forall i :: 0 <= i < |s| ==> IsDigit(s[i])
  {
    if n < 10 then [DigitChar(n)] else NatToString(n / 10) + [DigitChar(n % 10)]
  }

  function DigitsValue(s: string): nat
    requires forall i :: 0 <= i < |s| ==> IsDigit(s[i])
  {
    if s == [] then 0 else DigitsValue(s[..|s| - 1]) * 10 + DigitValue(s[|s| - 1])
  }

  /**
   * How Python prints a score already rounded to one decimal: the integer
   * part, a point and one digit (`85.0`, `100.0`, `33.3`).
   */
  function FormatTenths(t: nat): string {
    NatToString(t / 10) + "." + [DigitChar(t % 10)]
  }

  /** Reads back a string printed by FormatTenths. */
  function ParseTenths(s: string): Option<nat> {
    if |s| >= 3 && s[|s| - 2] == '.' && IsDigit(s[|s| - 1])
       && forall i :: 0 <= i < |s| - 2 ==> IsDigit(s[i])
    then Some(DigitsValue(s[..|s| - 2]) * 10 + DigitValue(s[|s| - 1]))
    else None
  }

  lemma {:induction false} DigitsOfNat(n: nat)
    ensures DigitsValue(NatToString(n)) == n
  {
    if n >= 10 {
      var s := NatToString(n);
      assert s[..|s| - 1] == NatToString(n / 10);
      DigitsOfNat(n / 10);
    }
  }

  /** The printed score reads back as the same number of tenths. */
  lemma FormatTenthsRoundTrip(t: nat)
    ensures ParseTenths(FormatTenths(t)) == Some(t)
  {
    var s := FormatTenths(t);
    var head := NatToString(t / 10);
    assert s[..|s| - 2] == head;
    DigitsOfNat(t / 10);
  }
}
