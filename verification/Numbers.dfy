/** Rounding, and facts about reals that are stated alone to keep products out of other proofs. */
module Numbers {

  function MaxInt(x: int, y: int): int {
    if x > y then x else y
  }

  function MinInt(x: int, y: int): int {
    if x < y then x else y
  }

  function Ceil(x: real): int {
    -(-x).Floor
  }

  /** Rounding of non-negative values, half upwards. */
  function Round(x: real): int {
    (x + 0.5).Floor
  }

  lemma PositiveProduct(x: real, y: real)
    requires x > 0.0 && y > 0.0
    ensures x * y > 0.0
  {
  }

  lemma DivideAndMultiply(n: real, d: real)
    requires d != 0.0
    ensures n / d * d == n
  {
  }
}
