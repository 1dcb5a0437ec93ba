/**
 * Numeric helpers shared by the utilities. Numbers of the source are
 * modelled as exact reals; the source's only rounding is
 * `parseFloat(x.toFixed(0))`, which is `Round` here.
 */
module Numbers {

  /**
   * Rounding to a whole number as `toFixed(0)` does it: to the nearest
   * integer, with halves going away from zero (the sign is handled apart
   * from the magnitude).
   */
  function Round(x: real): (r: int)
    ensures x >= 0.0 ==> x - 0.5 < r as real <= x + 0.5
    ensures x < 0.0 ==> x - 0.5 <= r as real < x + 0.5
  {
    if x >= 0.0 then (x + 0.5).Floor else -((-x + 0.5).Floor)
  }

  /** Rounding is symmetric about zero: halves go away from zero on both sides. */
  lemma RoundIsOdd(x: real)
    ensures Round(-x) == -Round(x)
  {
    if x > 0.0 {
      assert -x < 0.0;
    } else if x == 0.0 {
      assert -x == 0.0;
    }
  }

  /** A whole number is left as it is. */
  lemma RoundOfInteger(n: int)
    ensures Round(n as real) == n
  {
  }

  /** The rounding error is at most one half. */
  lemma RoundError(x: real)
    ensures -0.5 <= Round(x) as real - x <= 0.5
  {
  }

  /** Rounding never reverses the order of two numbers. */
  lemma RoundMonotone(x: real, y: real)
    requires x <= y
    ensures Round(x) <= Round(y)
  {
  }

  /** `Math.abs`. */
  function Abs(x: real): (r: real)
    ensures r >= 0.0
    ensures r == x || r == -x
  {
    if x < 0.0 then -x else x
  }

  /** The absolute difference does not depend on the order of its operands. */
  lemma AbsDifferenceSymmetric(x: real, y: real)
    ensures Abs(x - y) == Abs(y - x)
  {
  }

  /** The smaller of two integers (`Math.min`). */
  function Min(x: int, y: int): (r: int)
    ensures r <= x && r <= y
    ensures r == x || r == y
  {
    if x <= y then x else y
  }
}
