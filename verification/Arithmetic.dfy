/** Small facts about integers that several modules need. */
module Arithmetic {
  function Max(a: int, b: int): int { if a < b then b else a }

  function Min(a: int, b: int): int { if a <= b then a else b }

  /** A product of natural numbers is positive exactly when both are. */
  lemma Product(x: int, y: int)
    requires x >= 0 && y >= 0
    ensures x * y >= 0 && (x * y > 0 <==> x > 0 && y > 0)
  {
  }
}
