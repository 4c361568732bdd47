/** The few laws of products and quotients that the proofs over reals share. */
module RealFacts {
  /** Multiplication under a name, for proofs that need its laws only. */
  function Times(a: real, b: real): real {
    a * b
  }

  lemma ProductNotNegative(x: real, y: real)
    requires x >= 0.0 && y >= 0.0
    ensures x * y >= 0.0 && Times(x, y) >= 0.0
  {
  }

  lemma ProductPositive(x: real, y: real)
    requires x > 0.0 && y > 0.0
    ensures x * y > 0.0 && Times(x, y) > 0.0
  {
  }

  lemma Ratio(x: real, y: real)
    requires y != 0.0
    ensures x / y * y == x && Times(x / y, y) == x
  {
  }

  lemma ShareOfWhole(x: real, y: real)
    requires 0.0 <= x <= y && y > 0.0
    ensures 0.0 <= x / y <= 1.0
  {
  }

  lemma RatioNotNegative(x: real, y: real)
    requires x >= 0.0 && y > 0.0
    ensures x / y >= 0.0
  {
  }
}
