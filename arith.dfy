/** Small facts of integer arithmetic that the solver does not find on its own
    (products and Euclidean division with a variable operand). */
module Arith {

  /** A positive multiple of d is at least d. */
  lemma MulAtLeast(e: int, d: int)
    requires e >= 1 && d >= 1
    ensures d * e >= d
  {
  }

  /** Multiplying by a non-negative number keeps the order. */
  lemma MulLe(x: int, a: int, b: int)
    requires x >= 0 && a <= b
    ensures x * a <= x * b
  {
  }

  /** `a <= b` gives `a / d <= b / d` for a positive divisor. */
  lemma DivMonotone(a: int, b: int, d: int)
    requires 0 <= a <= b && d >= 1
    ensures a / d <= b / d
  {
    var qa, qb := a / d, b / d;
    assert a == d * qa + a % d && b == d * qb + b % d;
    if qa > qb {
      MulAtLeast(qa - qb, d);
    }
  }

  /** Dividing by a positive number does not increase a non-negative number. */
  lemma DivAtMost(a: int, d: int)
    requires a >= 0 && d >= 1
    ensures a / d <= a
  {
  }
}
