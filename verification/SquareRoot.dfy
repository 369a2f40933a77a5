// The Babylonian square root loop and the square/root pair built on it
// (libs/common/src/amount.rs).
module SquareRoot {
  import opened Prelude
  import opened Arithmetic
  import opened FixedPoint

  // Reference definition: the root found by counting up.
  function FloorRoot(n: nat): (r: nat)
    ensures r * r <= n < (r + 1) * (r + 1)
  {
    if n == 0 then 0
    else
      var r := FloorRoot(n - 1);
      if (r + 1) * (r + 1) <= n then r + 1 else r
  }

  lemma FloorRootUnique(n: nat, r: nat)
    requires r * r <= n < (r + 1) * (r + 1)
    ensures r == FloorRoot(n)
  {
    var f := FloorRoot(n);
    SquareOrder(r, f + 1);
    SquareOrder(f, r + 1);
  }

  function CheckedAddU256(a: U256, b: U256): Option<U256> {
    if a + b < TWO_256 then Some(a + b) else None
  }

  function CheckedDivU256(a: U256, b: U256): Option<U256> {
    if b == 0 then None else Some(a / b)
  }

  // For a guess between 1 and n the sum n / guess + guess is at most n + 1.
  lemma GuessSumBound(n: nat, guess: nat)
    requires 1 <= guess <= n
    ensures n / guess + guess <= n + 1
  {
    var q := n / guess;
    DivBounds(n, guess);
    if q > 0 {
      ProductOverSum(q - 1, guess - 1);
    }
  }

  // One Newton step never falls below the root.
  lemma NewtonStaysAbove(n: nat, guess: nat)
    requires 1 <= guess
    ensures var m := (n / guess + guess) / 2; n < (m + 1) * (m + 1)
  {
    var q := n / guess;
    var m := (q + guess) / 2;
    DivBounds(n, guess);
    MeanSquare(q + 1, guess, m + 1);
  }

  // When the step no longer decreases, the guess is the root.
  lemma NewtonFixedPoint(n: nat, guess: nat)
    requires 1 <= guess
    requires guess <= (n / guess + guess) / 2
    ensures guess * guess <= n
  {
    DivBounds(n, guess);
    MulMono(guess, n / guess, guess);
  }

  // The whole range but the very last value: there the first n + 1 overflows.
  method SqrtU256(n: U256) returns (root: Option<U256>)
    ensures root == if n == TWO_256 - 1 then None else Some(FloorRoot(n))
  {
    if n == 0 {
      return Some(0);
    }
    var sum := CheckedAddU256(1, n);
    if sum.None? {
      return None;
    }
    var half := CheckedDivU256(sum.value, 2);
    if half.None? {
      return None;
    }
    var current: U256 := n;
    var next: U256 := half.value;
    assert n / 1 == n && 1 < n + 2;
    assert n < (n + 1) * (n + 1);
    assert n / n == 1;
    while next < current
      invariant n < TWO_256 - 1
      invariant 1 <= current <= n
      invariant n < (current + 1) * (current + 1)
      invariant next == (n / current + current) / 2
      decreases current
    {
      assert 1 <= next by {
        DivBounds(n, current);
      }
      NewtonStaysAbove(n, current);
      current := next;
      GuessSumBound(n, current);
      var quotient := CheckedDivU256(n, next);
      if quotient.None? {
        return None;
      }
      var total := CheckedAddU256(quotient.value, next);
      if total.None? {
        return None;
      }
      var halved := CheckedDivU256(total.value, 2);
      if halved.None? {
        return None;
      }
      next := halved.value;
    }
    NewtonFixedPoint(n, current);
    FloorRootUnique(n, current);
    return Some(current);
  }

  // A 128-bit value has a root below 2^64.
  lemma RootOfU128(n: U128)
    ensures FloorRoot(n) < 0x1_00000000_00000000
  {
    SquareOrder(FloorRoot(n), 0x1_00000000_00000000);
  }

  // checked_sqrt as a value: the root of the raw number, in units of 10^-9.
  function SqrtAmount(a: Amount): Amount {
    RootOfU128(a.raw);
    Amount(FloorRoot(a.raw) * SCALE_SQRT)
  }

  // checked_sqrt never fails on a 128-bit amount.
  method CheckedSqrt(a: Amount) returns (root: Option<Amount>)
    ensures root == Some(SqrtAmount(a))
  {
    var r := SqrtU256(a.raw);
    if r.None? {
      return None;
    }
    RootOfU128(a.raw);
    root := TryU128(MulU256(r.value, SCALE_SQRT));
  }

  // Squaring the root gives the largest perfect square not above the raw value.
  lemma SquareOfRoot(a: Amount)
    ensures var s := CheckedSq(SqrtAmount(a));
      && s.Some?
      && s.value.raw <= a.raw
      && s.value.raw == FloorRoot(s.value.raw) * FloorRoot(s.value.raw)
      && (forall k: nat :: k * k <= a.raw ==> k * k <= s.value.raw)
  {
    var r := FloorRoot(a.raw);
    RootOfU128(a.raw);
    var x := r * SCALE_SQRT;
    ProductFits(x, x);
    assert x * x == r * r * SCALE;
    DivMulCancel(r * r, SCALE);
    SquareOrder(r, r + 1);
    FloorRootUnique(r * r, r);
    forall k: nat | k * k <= a.raw
      ensures k * k <= r * r
    {
      SquareOrder(k, r + 1);
      SquareOrder(k, r);
    }
  }

  lemma ScaledSquare(q: nat)
    ensures (q * SCALE_SQRT) * (q * SCALE_SQRT) == q * q * SCALE
  {
  }

  // Taking the root of a square only loses the digits below 10^-9.
  lemma RootOfSquare(a: Amount)
    requires CheckedSq(a).Some?
    ensures SqrtAmount(CheckedSq(a).value).raw == a.raw - a.raw % SCALE_SQRT
  {
    ProductFits(a.raw, a.raw);
    var square := a.raw * a.raw;
    var q := a.raw / SCALE_SQRT;
    DivBounds(a.raw, SCALE_SQRT);
    SquareOrder(q * SCALE_SQRT, a.raw);
    SquareOrder(a.raw, (q + 1) * SCALE_SQRT);
    ScaledSquare(q);
    ScaledSquare(q + 1);
    DivBounds(square, SCALE);
    FloorRootUnique(square / SCALE, q);
  }

  // Squaring succeeds exactly while the true square fits in 128 bits.
  lemma SquareRange(a: Amount)
    ensures CheckedSq(a).None? <==> TWO_128 * SCALE <= a.raw * a.raw
    ensures CheckedSq(a) == CheckedMul(a, a)
  {
    ProductFits(a.raw, a.raw);
    DivBelow(a.raw * a.raw, SCALE, TWO_128);
  }
}
