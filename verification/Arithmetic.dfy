/** Integer division and products, as the other modules need them. */
module Arithmetic {

  /** Go's division of integers, and its conversion of a quotient to an integer: towards zero. */
  function TruncDiv(a: int, b: int): int
    requires b > 0
  {
    if a >= 0 then a / b else -((-a) / b)
  }

  lemma TruncDivBounds(a: int, b: int)
    requires b > 0
    ensures a >= 0 ==> TruncDiv(a, b) * b <= a
    ensures a < 0 ==> TruncDiv(a, b) <= 0
  {
  }

  lemma MulMonotone(a: int, b: int, m: nat)
    requires a <= b
    ensures a * m <= b * m
  {
  }

  lemma MulMonotoneRight(m: nat, a: int, b: int)
    requires a <= b
    ensures m * a <= m * b
  {
  }

  lemma MulStep(a: nat, m: nat)
    ensures (a + 1) * m == a * m + m
  {
  }

  lemma QuotientBounds(a: nat, b: nat)
    requires b > 0
    ensures a / b * b <= a < (a / b + 1) * b && a / b >= 0
  {
    var q: int := a / b;
    assert a == q * b + a % b;
    if q < 0 {
      MulMonotone(q, -1, b);
    } else {
      MulStep(q, b);
    }
  }

  lemma TruncDivNegative(a: int, b: int)
    requires a < 0 && b > 0
    ensures var q := (-a) / b; TruncDiv(a, b) == -q && q >= 0
  {
    QuotientBounds(-a, b);
  }
}
