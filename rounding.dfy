/**
 * Rounding to two decimal places, as `round(x, 2)` does on the dashboard's
 * numbers: to the nearest hundredth, with an exact tie going to the even
 * neighbour. Values are exact reals; binary floating-point representation is
 * not modelled.
 */
module Rounding {

  /** A real with at most two decimal places. */
  predicate IsCents(x: real) {
    (x * 100.0).Floor as real == x * 100.0
  }

  /** The integer nearest to y; a value exactly halfway goes to the even one. */
  function RoundHalfEven(y: real): (n: int)
    ensures y - 0.5 <= n as real <= y + 0.5
    ensures n as real - y == 0.5 || y - n as real == 0.5 ==> n % 2 == 0
  {
    var f := y.Floor;
    var d := y - f as real;
    if d < 0.5 then f
    else if d > 0.5 then f + 1
    else if f % 2 == 0 then f
    else f + 1
  }

  /** `round(x, 2)`: x to the nearest hundredth, ties to even. */
  function Round2(x: real): (r: real)
    ensures IsCents(r)
    ensures x - 0.005 <= r <= x + 0.005
  {
    RoundHalfEven(x * 100.0) as real / 100.0
  }

  /** Rounding never reverses the order of two values. */
  lemma RoundHalfEvenMonotone(y1: real, y2: real)
    requires y1 <= y2
    ensures RoundHalfEven(y1) <= RoundHalfEven(y2)
  {
    // Both results lie within one half of their inputs, so they could only be
    // out of order if both inputs were the same tie, and a tie has one result.
  }

  /** Round2 is monotone: sorting on the rounded key never inverts the exact order. */
  lemma Round2Monotone(x1: real, x2: real)
    requires x1 <= x2
    ensures Round2(x1) <= Round2(x2)
  {
    RoundHalfEvenMonotone(x1 * 100.0, x2 * 100.0);
  }

  /** A value that already has two decimal places is left as it is. */
  lemma Round2OfCents(x: real)
    requires IsCents(x)
    ensures Round2(x) == x
  {
    var n := (x * 100.0).Floor;
    assert RoundHalfEven(x * 100.0) == n;
  }
}
