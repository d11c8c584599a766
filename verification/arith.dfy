/** Facts about real division that the solver does not find unaided. */
module RealArith {

  /** Division by a positive number undoes multiplication by it. */
  lemma DivisionOf(x: real, s: real, y: real)
    requires s > 0.0 && y * s == x
    ensures x / s == y
  {
  }
}
