/** The few facts about products the rest needs. */
module Arithmetic {
  lemma Distribute(a: int, b: int, c: int)
    ensures a * c + b * c == (a + b) * c
  {
  }

  lemma MulMonotone(a: int, b: int, c: nat)
    requires a <= b
    ensures a * c <= b * c
  {
    Distribute(a, b - a, c);
    MulSign(b - a, c);
  }

  lemma MulSign(a: nat, b: nat)
    ensures a * b >= 0
  {
  }

  lemma MulAssociates(a: int, b: int, c: int)
    ensures a * b * c == a * (b * c)
  {
  }

  lemma DivBounds(a: int, b: int)
    requires b > 0
    ensures a / b * b <= a < a / b * b + b
  {
  }

  /** Adding a multiple of the divisor. */
  lemma DivShift(a: nat, d: nat, more: nat)
    requires d > 0
    ensures (a + d * more) / d == a / d + more && (a + d * more) % d == a % d
  {
    var q, r := a / d, a % d;
    assert a + d * more == d * (q + more) + r by {
      assert a == d * q + r;
      assert d * (q + more) == d * q + d * more;
    }
    DivUnique(a + d * more, d, q + more, r);
  }

  lemma DivUnique(value: int, divisor: int, quotient: int, rest: int)
    requires 0 <= rest < divisor
    requires value == divisor * quotient + rest
    ensures value / divisor == quotient && value % divisor == rest
  {
    var d := value / divisor - quotient;
    assert divisor * d == rest - value % divisor by {
      assert divisor * d == divisor * (value / divisor) - divisor * quotient;
    }
  }
}
