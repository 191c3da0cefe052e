/** Small facts about multiplication that the solver is better told than left to find. */
module RealArithmetic {
  lemma Scales(k: real, a: real, b: real)
    requires k >= 0.0 && a <= b
    ensures k * a <= k * b
  {}

  lemma ScaledFromZero(k: real, a: real)
    requires k >= 0.0 && a >= 0.0
    ensures k * a >= 0.0
  {}

  lemma ScalesBack(k: real, a: real, b: real)
    requires k > 0.0
    ensures a >= b <==> a * k >= b * k
  {}

  lemma ScalesInt(k: nat, a: nat, b: nat)
    requires a <= b
    ensures a * k <= b * k
  {}
}
