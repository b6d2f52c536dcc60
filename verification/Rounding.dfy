/** std::round on reals: to the nearest integer, halves away from zero. */
module Rounding {

  function Round(x: real): int {
    if x >= 0.0 then (x + 0.5).Floor else -(-x + 0.5).Floor
  }

  function Abs(x: real): (r: real)
    ensures r >= 0.0 && (r == x || r == -x)
  {
    if x < 0.0 then -x else x
  }

  /** Rounding moves a number by at most a half. */
  lemma RoundIsNear(x: real)
    ensures x - 0.5 <= Round(x) as real <= x + 0.5
  {
  }

  /** The integer is the nearest one, a tie going away from zero. */
  predicate IsNearest(x: real, n: int) {
    if x >= 0.0 then n as real - 0.5 <= x < n as real + 0.5 else n as real - 0.5 < x <= n as real + 0.5
  }

  /** The rounded value is the one nearest integer. */
  lemma RoundIsTheNearest(x: real, n: int)
    ensures Round(x) == n <==> IsNearest(x, n)
  {
  }

  lemma RoundIsMonotonic(x: real, y: real)
    requires x <= y
    ensures Round(x) <= Round(y)
  {
    RoundIsNear(x);
    RoundIsNear(y);
  }

  /** Shifting up by a whole number shifts the rounded value by as much, or by one more across zero. */
  lemma RoundShift(x: real, n: nat)
    ensures Round(x) + n <= Round(x + n as real) <= Round(x) + n + 1
  {
  }
}
