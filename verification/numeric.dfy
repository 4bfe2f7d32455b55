/**
 * Python's numeric conversions used by the planner, over exact reals:
 * `round(x, 2)` and the truncating `int(x)`.
 */
module Numeric {

  /** True when `x` is a whole number of hundredths. */
  predicate IsHundredths(x: real)
  {
    (x * 100.0).Floor as real == x * 100.0
  }

  /**
   * Python's round(x, 2): the nearest multiple of 0.01, ties to the even
   * multiple. Computed on the exact value of `x`.
   */
  function Round2(x: real): (r: real)
    ensures -0.005 <= r - x <= 0.005
    ensures IsHundredths(r)
  {
    var y := x * 100.0;
    var f := y.Floor;
    var frac := y - f as real;
    var k := if frac < 0.5 then f
             else if frac > 0.5 then f + 1
             else if f % 2 == 0 then f
             else f + 1;
    assert -0.5 <= k as real - y <= 0.5;
    assert (k as real / 100.0) * 100.0 == k as real;
    k as real / 100.0
  }

  /** Python's int(x) on a float: truncation toward zero. */
  function Trunc(x: real): (n: int)
    ensures 0.0 <= x ==> n as real <= x < n as real + 1.0
    ensures x < 0.0 ==> n as real - 1.0 < x <= n as real
  {
    if x >= 0.0 then x.Floor else -((-x).Floor)
  }
}
