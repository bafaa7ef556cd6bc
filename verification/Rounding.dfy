/** Rounding, as Python does it. */
module Rounding {
  /** Python's `round`: to the nearest, ties to even. */
  function Round(x: real): int {
    var f := x.Floor;
    if x - f as real < 0.5 then f
    else if x - f as real > 0.5 then f + 1
    else if f % 2 == 0 then f else f + 1
  }

  lemma RoundNear(x: real)
    ensures -0.5 <= Round(x) as real - x <= 0.5
  {
  }

  /** Half-way between two whole numbers it takes the even one. */
  lemma RoundTies(k: int)
    ensures Round(k as real) == k && Round(k as real + 0.5) % 2 == 0
  {
    assert (k as real + 0.5).Floor == k;
  }

  lemma RoundInOrder(x: real, y: real)
    requires x <= y
    ensures Round(x) <= Round(y)
  {
    assert x.Floor <= y.Floor;
  }
}
