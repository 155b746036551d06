/** Small facts of real arithmetic, stated once for abstract numbers and used by the statistics modules. */
module Arith {

  // ---------------------------------------------------------------- real numbers

  lemma Product(a: real, b: real)
    requires a >= 0.0 && b >= 0.0
    ensures a * b >= 0.0
  {
  }

  lemma ScaleStrict(a: real, b: real, k: real)
    requires k > 0.0 && a < b
    ensures a * k < b * k
  {
  }

  lemma ScaleIff(a: real, b: real, k: real)
    requires k > 0.0
    ensures a < b <==> a * k < b * k
  {
    if a < b {
      ScaleStrict(a, b, k);
    } else if b < a {
      ScaleStrict(b, a, k);
    }
  }

  /** A share of a positive whole. */
  lemma Share(a: real, d: real)
    requires d > 0.0
    ensures a / d < 1.0 <==> a < d
    ensures a / d == 1.0 <==> a == d
    ensures a / d > 0.0 <==> a > 0.0
  {
    var q := a / d;
    assert q * d == a;
    ScaleIff(q, 1.0, d);
    ScaleIff(1.0, q, d);
    ScaleIff(0.0, q, d);
  }

  lemma QuotientOf(q: real, d: real, a: real)
    requires d > 0.0 && q * d == a
    ensures q == a / d
  {
  }
}
