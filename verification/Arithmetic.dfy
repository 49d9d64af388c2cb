/** The few facts about products and quotients that the money proofs use, each stated for plain variables. */
module Arithmetic {
  lemma MulMonotone(x: int, y: int, k: int)
    requires x <= y && 0 <= k
    ensures x * k <= y * k
  {
  }

  lemma MulNonNegative(x: int, y: int)
    requires 0 <= x && 0 <= y
    ensures 0 <= x * y
  {
  }

  /** `x` is one of the multiples of `b` that lie strictly between two neighbours only if it is neither. */
  lemma MulCancel(x: int, y: int, b: int)
    requires 0 < b && x * b < y * b + b
    ensures x <= y
  {
    if y + 1 <= x {
      MulMonotone(y + 1, x, b);
    }
  }

  lemma DivMod(a: int, b: int)
    requires 0 < b
    ensures a == a / b * b + a % b && 0 <= a % b < b
  {
  }

  lemma ModOfMultiple(q: int, b: int)
    requires 0 < b
    ensures (q * b) % b == 0 && (q * b) / b == q
  {
    var k := (q * b) / b;
    DivMod(q * b, b);
    MulCancel(q, k, b);
    MulCancel(k, q, b);
  }

  lemma DivIs(a: int, b: int, q: int)
    requires 0 < b && q * b <= a < q * b + b
    ensures a / b == q
  {
    DivMod(a, b);
    MulCancel(q, a / b, b);
    MulCancel(a / b, q, b);
  }
}
