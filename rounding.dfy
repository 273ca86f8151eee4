/**
 * Python's round(x, 2) on a float, taken on the exact value of the number:
 * the nearest multiple of 0.01, and on an exact tie the even multiple.
 * Binary floating point itself is not modelled; numbers are reals.
 */
module Rounding {
  /** The integer nearest to y; on a tie (y exactly halfway), the even one. */
  function RoundHalfEven(y: real): (n: int)
    ensures y - 0.5 <= n as real <= y + 0.5
    ensures (n as real == y - 0.5 || n as real == y + 0.5) ==> n % 2 == 0
  {
    var f := y.Floor;
    var frac := y - f as real;
    if frac < 0.5 then f
    else if frac > 0.5 then f + 1
    else if f % 2 == 0 then f
    else f + 1
  }

  /** The two properties of RoundHalfEven determine its result. */
  lemma RoundHalfEvenUnique(y: real, n: int)
    requires y - 0.5 <= n as real <= y + 0.5
    requires (n as real == y - 0.5 || n as real == y + 0.5) ==> n % 2 == 0
    ensures n == RoundHalfEven(y)
  {
  }

  /** round(x, 2): a whole number of hundredths, within half a hundredth of x, and never negative for x >= 0. */
  function Round2(x: real): (r: real)
    ensures (r * 100.0).Floor as real == r * 100.0
    ensures -0.005 <= r - x <= 0.005
    ensures x >= 0.0 ==> r >= 0.0
    ensures x == 0.0 ==> r == 0.0
  {
    RoundHalfEven(x * 100.0) as real / 100.0
  }

  /** Rounding never reverses the order of two numbers. */
  lemma Round2Monotone(x: real, y: real)
    requires x <= y
    ensures Round2(x) <= Round2(y)
  {
    var n, m := RoundHalfEven(x * 100.0), RoundHalfEven(y * 100.0);
    if n > m {
      assert m + 1 <= n;
      assert n as real == x * 100.0 + 0.5 && m as real == y * 100.0 - 0.5;
    }
  }

  /** A value already rounded to hundredths is left as it is: rounding is idempotent. */
  lemma Round2Idempotent(x: real)
    ensures Round2(Round2(x)) == Round2(x)
  {
    var n := RoundHalfEven(x * 100.0);
    assert Round2(x) * 100.0 == n as real;
    RoundHalfEvenUnique(n as real, n);
  }
}
