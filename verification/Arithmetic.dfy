// Facts about truncating division that the solver needs one at a time.
module Arithmetic {
  lemma MulMono(a: nat, b: nat, c: nat)
    requires a <= b
    ensures a * c <= b * c
    ensures c * a <= c * b
  {
  }

  lemma MulStrict(a: nat, b: nat, c: nat)
    requires a < b && 0 < c
    ensures a * c < b * c
  {
  }

  lemma MulBelow(a: nat, b: nat, m: nat)
    requires a < m && b < m
    ensures a * b < m * m
  {
    MulMono(a, m, b);
    MulStrict(b, m, m);
  }

  lemma DivBounds(a: nat, b: nat)
    requires 0 < b
    ensures a / b * b <= a < (a / b + 1) * b
  {
  }

  lemma DivIs(a: nat, b: nat, q: nat)
    requires 0 < b
    requires q * b <= a < (q + 1) * b
    ensures a / b == q
  {
    DivBounds(a, b);
    if q < a / b {
      MulMono(q + 1, a / b, b);
    } else if a / b < q {
      MulMono(a / b + 1, q, b);
    }
  }

  lemma DivMulCancel(a: nat, b: nat)
    requires 0 < b
    ensures a * b / b == a
  {
    DivIs(a * b, b, a);
  }

  lemma MulAssociates(a: nat, b: nat, c: nat)
    ensures a * b * c == a * (b * c)
  {
  }

  lemma MulAtLeast(a: nat, b: nat)
    requires 0 < b
    ensures a <= a * b
  {
    MulMono(1, b, a);
  }

  // (a + 1) * (b + 1) is at least a + b + 1.
  lemma ProductOverSum(a: nat, b: nat)
    ensures a + b + 1 <= (a + 1) * (b + 1)
  {
    MulAtLeast(a + 1, b + 1);
    assert (a + 1) * (b + 1) == a * (b + 1) + (b + 1);
    MulAtLeast(a, b + 1);
  }

  // Dividing by b and then by c is dividing by b * c once.
  lemma DivDiv(a: nat, b: nat, c: nat)
    requires 0 < b && 0 < c
    ensures 0 < b * c
    ensures a / b / c == a / (b * c)
  {
    var q := a / b;
    var r := q / c;
    MulStrict(0, b, c);
    DivBounds(a, b);
    DivBounds(q, c);
    NestedBounds(a, b, c, q, r);
    DivIs(a, b * c, r);
  }

  lemma NestedBounds(a: nat, b: nat, c: nat, q: nat, r: nat)
    requires q * b <= a < (q + 1) * b
    requires r * c <= q < (r + 1) * c
    ensures r * (b * c) <= a < (r + 1) * (b * c)
  {
    MulMono(r * c, q, b);
    MulMono(q + 1, (r + 1) * c, b);
    MulAssociates(r, c, b);
    MulAssociates(r + 1, c, b);
    assert c * b == b * c;
  }

  // A common factor of numerator and denominator cancels.
  lemma DivCommonFactor(a: nat, b: nat, c: nat)
    requires 0 < b && 0 < c
    ensures 0 < b * c
    ensures a * c / (b * c) == a / b
  {
    DivMulCancel(a, c);
    DivDiv(a * c, c, b);
    assert c * b == b * c;
  }

  lemma DivMonotone(a: nat, b: nat, c: nat)
    requires a <= b && 0 < c
    ensures a / c <= b / c
  {
    DivBounds(a, c);
    DivBounds(b, c);
    if b / c < a / c {
      MulMono(b / c + 1, a / c, c);
    }
  }

  // a / c stays below m exactly when a stays below m * c.
  lemma DivBelow(a: nat, c: nat, m: nat)
    requires 0 < c
    ensures a / c < m <==> a < m * c
  {
    DivBounds(a, c);
    if a / c < m {
      MulMono(a / c + 1, m, c);
    } else {
      MulMono(m, a / c, c);
    }
  }

  // Squaring keeps the order, both ways.
  lemma SquareOrder(a: nat, b: nat)
    ensures a < b <==> a * a < b * b
    ensures a <= b <==> a * a <= b * b
  {
    if a < b {
      MulMono(a, b, a);
      MulStrict(a, b, b);
    } else {
      MulMono(b, a, a);
      MulMono(b, a, b);
    }
  }

  // The square of the mean is at least the product.
  lemma MeanSquare(a: nat, b: nat, m: nat)
    requires a + b <= 2 * m
    ensures a * b <= m * m
  {
    var d: int := m - a;
    MulMono(b, 2 * m - a, a);
    assert a * b <= (m - d) * (m + d);
    assert (m - d) * (m + d) == m * m - d * d;
    assert 0 <= d * d;
  }

  function Pow10(e: nat): (r: nat)
    ensures 0 < r
  {
    if e == 0 then 1 else 10 * Pow10(e - 1)
  }

  lemma {:induction false} Pow10Add(a: nat, b: nat)
    ensures Pow10(a + b) == Pow10(a) * Pow10(b)
  {
    if a > 0 {
      Pow10Add(a - 1, b);
      assert 10 * (Pow10(a - 1) * Pow10(b)) == (10 * Pow10(a - 1)) * Pow10(b);
    }
  }
}
