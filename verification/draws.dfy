/**
 * Random draws. Every `Math.random()` call of the games is a parameter of
 * the model: an exact real in [0, 1). `Math.floor(Math.random() * n)` is
 * `Pick(r, n)`.
 */
module Draws {

  /** The range of `Math.random()`. */
  type Unit = r: real | 0.0 <= r < 1.0

  /** `Math.floor(r * n)`: a whole number in [0, n). */
  function Pick(r: Unit, n: nat): (k: int)
    requires n > 0
    ensures 0 <= k < n
  {
    var x := r * n as real;
    ScaleBelow(r, n as real);
    FloorBelow(x, n);
    x.Floor
  }

  lemma ScaleBelow(r: real, m: real)
    requires 0.0 <= r < 1.0 && m > 0.0
    ensures 0.0 <= r * m < m
  {
    assert (1.0 - r) * m > 0.0;
  }

  lemma FloorBelow(x: real, n: int)
    requires 0.0 <= x < n as real
    ensures 0 <= x.Floor < n
  {
  }

  /** The draw `k / n` picks exactly `k`: every value of the range is reachable. */
  function DrawFor(k: nat, n: nat): (r: Unit)
    requires k < n
    ensures Pick(r, n) == k
  {
    k as real / n as real
  }
}
