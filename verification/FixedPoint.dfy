// 18-decimal fixed-point amounts held in a u128, with 256-bit intermediates
// (libs/common/src/amount.rs).
module FixedPoint {
  import opened Prelude
  import opened Arithmetic

  const SCALE: U128 := 1_000_000_000_000_000_000
  const SCALE_SQRT: U128 := 1_000_000_000
  const DECIMALS: nat := 18

  datatype Amount = Amount(raw: U128)

  const ZERO: Amount := Amount(0)
  const ONE: Amount := Amount(SCALE)
  const TWO: Amount := Amount(2 * SCALE)
  const FOUR: Amount := Amount(4 * SCALE)

  // The 256-bit operators wrap around, as the library's +, - and * do.
  function AddU256(a: U256, b: U256): U256 { (a + b) % TWO_256 }
  function SubU256(a: U256, b: U256): U256 { (a - b) % TWO_256 }
  function MulU256(a: U256, b: U256): U256 { (a * b) % TWO_256 }

  function TryU128(v: U256): Option<Amount> {
    if v < TWO_128 then Some(Amount(v)) else None
  }

  function CheckedAdd(a: Amount, b: Amount): Option<Amount> {
    TryU128(AddU256(a.raw, b.raw))
  }

  function CheckedSub(a: Amount, b: Amount): Option<Amount> {
    TryU128(SubU256(a.raw, b.raw))
  }

  function CheckedMul(a: Amount, b: Amount): Option<Amount> {
    TryU128(MulU256(a.raw, b.raw) / SCALE)
  }

  function CheckedDiv(a: Amount, b: Amount): Option<Amount>
    requires b.raw != 0
  {
    TryU128(MulU256(a.raw, SCALE) / b.raw)
  }

  function CheckedIdiv(a: Amount, b: Amount): Option<Amount>
    requires b.raw != 0
  {
    TryU128(MulU256(a.raw / b.raw, SCALE))
  }

  function CheckedSq(a: Amount): Option<Amount> {
    TryU128(MulU256(a.raw, a.raw) / SCALE)
  }

  // The product of two 128-bit values never wraps.
  lemma ProductFits(a: U128, b: U128)
    ensures a * b < TWO_256
    ensures MulU256(a, b) == a * b
  {
    MulBelow(a, b, TWO_128);
    assert TWO_128 * TWO_128 == TWO_256;
    SmallModulo(a * b, TWO_256);
  }

  lemma SmallModulo(x: nat, m: nat)
    requires x < m
    ensures x % m == x
  {
  }

  lemma AddExact(a: Amount, b: Amount)
    ensures CheckedAdd(a, b) == if a.raw + b.raw < TWO_128 then Some(Amount(a.raw + b.raw)) else None
  {
    assert a.raw + b.raw < TWO_256;
  }

  // The wrapped difference lands above 2^128 exactly on underflow, so wrapping
  // never produces a wrong value.
  lemma SubExact(a: Amount, b: Amount)
    ensures CheckedSub(a, b) == if b.raw <= a.raw then Some(Amount(a.raw - b.raw)) else None
  {
    if a.raw < b.raw {
      var wrapped := a.raw - b.raw + TWO_256;
      assert SubU256(a.raw, b.raw) == wrapped;
    }
  }

  // checked_mul is the exact product rounded down to a multiple of 10^-18.
  lemma MulExact(a: Amount, b: Amount)
    ensures CheckedMul(a, b).None? <==> TWO_128 * SCALE <= a.raw * b.raw
    ensures CheckedMul(a, b).Some? ==>
      var m := CheckedMul(a, b).value.raw; m * SCALE <= a.raw * b.raw < (m + 1) * SCALE
  {
    ProductFits(a.raw, b.raw);
    DivBelow(a.raw * b.raw, SCALE, TWO_128);
    DivBounds(a.raw * b.raw, SCALE);
  }

  // checked_div is the largest q with q * b <= a * SCALE.
  lemma DivExact(a: Amount, b: Amount)
    requires b.raw != 0
    ensures CheckedDiv(a, b).None? <==> TWO_128 * b.raw <= a.raw * SCALE
    ensures CheckedDiv(a, b).Some? ==>
      var q := CheckedDiv(a, b).value.raw; q * b.raw <= a.raw * SCALE < (q + 1) * b.raw
  {
    ProductFits(a.raw, SCALE);
    DivBelow(a.raw * SCALE, b.raw, TWO_128);
    DivBounds(a.raw * SCALE, b.raw);
  }

  // Dividing and multiplying back never overshoots, never fails, and loses
  // less than b / SCALE + 1 units.
  lemma MulAfterDiv(a: Amount, b: Amount)
    requires b.raw != 0
    requires CheckedDiv(a, b).Some?
    ensures var back := CheckedMul(CheckedDiv(a, b).value, b);
      && back.Some?
      && back.value.raw <= a.raw
      && (a.raw - back.value.raw) * SCALE < b.raw + SCALE
  {
    var q := CheckedDiv(a, b).value;
    DivExact(a, b);
    MulExact(q, b);
    assert q.raw * b.raw <= a.raw * SCALE;
    assert a.raw * SCALE < TWO_128 * SCALE;
    var m := CheckedMul(q, b).value.raw;
    assert (q.raw + 1) * b.raw == q.raw * b.raw + b.raw;
    assert (a.raw - m) * SCALE == a.raw * SCALE - m * SCALE;
  }

  // checked_idiv is checked_div cut to whole units, and it fails only when the
  // whole quotient itself is too large.
  lemma IdivExact(a: Amount, b: Amount)
    requires b.raw != 0
    ensures CheckedIdiv(a, b).None? <==> TWO_128 <= a.raw / b.raw * SCALE
    ensures CheckedDiv(a, b).Some? ==>
      var q := CheckedDiv(a, b).value.raw;
      CheckedIdiv(a, b) == Some(Amount(q - q % SCALE))
  {
    var whole := a.raw / b.raw;
    DivBounds(a.raw, b.raw);
    assert whole < TWO_128 by {
      MulMono(1, b.raw, whole);
    }
    ProductFits(whole, SCALE);
    if CheckedDiv(a, b).Some? {
      ProductFits(a.raw, SCALE);
      var q := a.raw * SCALE / b.raw;
      DivDiv(a.raw * SCALE, b.raw, SCALE);
      DivCommonFactor(a.raw, b.raw, SCALE);
      assert q / SCALE == whole;
      assert q - q % SCALE == whole * SCALE;
    }
  }
}
