// The decimal printer of an amount and the literal reader that undoes it
// (libs/common/src/amount.rs, proc-macros/amount-macros/src/lib.rs).
module AmountText {
  import opened Prelude
  import opened Arithmetic
  import opened FixedPoint
  import opened Text
  import opened RustLiterals

  function WholeDigits(a: Amount): string {
    Digits(a.raw / SCALE)
  }

  function FractionDigits(a: Amount): string {
    PadLeft(Digits(a.raw % SCALE), DECIMALS)
  }

  lemma FractionDigitsShape(a: Amount)
    ensures |FractionDigits(a)| == DECIMALS && AllDigits(FractionDigits(a))
    ensures DigitsValue(FractionDigits(a)) == a.raw % SCALE
  {
    ScaleIsPower();
    DigitsLength(a.raw % SCALE, DECIMALS);
    DigitsRoundTrip(a.raw % SCALE);
    PadLeftValue(Digits(a.raw % SCALE), DECIMALS);
  }

  lemma ScaleIsPower()
    ensures Pow10(DECIMALS) == SCALE
  {
    assert Pow10(6) == 1_000_000;
    Pow10Add(6, 6);
    Pow10Add(12, 6);
  }

  function ShownFraction(digits: string, precision: Option<nat>): string {
    match precision
    case Some(p) => if p < |digits| then digits[..p] else digits
    case None => if TrimZeros(digits) == "" then "0" else TrimZeros(digits)
  }

  function Display(a: Amount, precision: Option<nat>): string {
    WholeDigits(a) + "." + ShownFraction(FractionDigits(a), precision)
  }

  // How a literal is refused: some refusals are panics of the macro, some are
  // panics or range errors in the code it expands to.
  datatype ReadError = InvalidFloat | BadInteger | OutOfRange | DoesNotCompile | NotANumber

  // None is the unwrap of a result that does not fit, or a zero divisor.
  function FromU128WithScale(value: U128, scale: U8): Option<Amount> {
    var divisor := Pow10(scale) % TWO_256;
    if divisor == 0 then None else TryU128(MulU256(value, SCALE) / divisor)
  }

  function Scaled(value: U128, scale: U8): Result<Amount, ReadError> {
    match FromU128WithScale(value, scale)
    case Some(a) => Ok(a)
    case None => Err(OutOfRange)
  }

  function ReadDigits(digits: string, fractionLength: nat): Result<Amount, ReadError> {
    if digits == "" || !AllDigits(digits) then Err(BadInteger)
    else if TWO_128 <= DigitsValue(digits) then Err(OutOfRange)
    else Scaled(DigitsValue(digits), fractionLength % 256)
  }

  function ReadFloat(text: string): Result<Amount, ReadError> {
    var parts := Split(text, '.');
    if |parts| == 2 then ReadDigits(parts[0] + parts[1], |parts[1]|)
    else if |parts| == 1 then ReadDigits(parts[0], 0)
    else Err(InvalidFloat)
  }

  // The four smallest cases are constants; every other literal is cast to a
  // u128, which a value too large for its own suffix does not survive.
  function ReadInteger(v: nat, suffix: Suffix): Result<Amount, ReadError> {
    if TWO_128 <= v then Err(BadInteger)
    else if v == 0 then Ok(ZERO)
    else if v == 1 then Ok(ONE)
    else if v == 2 then Ok(TWO)
    else if v == 4 then Ok(FOUR)
    else if !Fits(v, suffix, TWO_128 - 1) then Err(DoesNotCompile)
    else Scaled(v, 0)
  }

  function ReadLiteral(literal: Literal): Result<Amount, ReadError> {
    match literal
    case IntLit(v, suffix) => ReadInteger(v, suffix)
    case FloatLit(digits, _) => ReadFloat(digits)
    case _ => Err(NotANumber)
  }

  // A plain numeral with a point or an exponent is a float token, any other an
  // integer.
  function ReadText(text: string): Result<Amount, ReadError> {
    if '.' in text || 'e' in text || 'E' in text then ReadFloat(text)
    else if text == "" || !AllDigits(text) then Err(BadInteger)
    else ReadLiteral(IntLit(DigitsValue(text), Unsuffixed))
  }

  // Scaling up by 18 places and down by fewer is one exact multiplication.
  lemma ExactShift(v: nat, unit: nat, power: nat)
    requires 0 < power && unit * power == SCALE
    ensures v * SCALE / power == v * unit
  {
    assert v * SCALE == v * unit * power;
    DivMulCancel(v * unit, power);
  }

  lemma PowerSplit(k: nat)
    requires k <= DECIMALS
    ensures Pow10(DECIMALS - k) * Pow10(k) == SCALE
    ensures Pow10(k) < TWO_256
  {
    ScaleIsPower();
    Pow10Add(DECIMALS - k, k);
    MulMono(1, Pow10(DECIMALS - k), Pow10(k));
  }

  // A scale of at most 18 multiplies exactly.
  lemma ScaledExact(value: U128, scale: nat)
    requires scale <= DECIMALS
    ensures FromU128WithScale(value, scale)
         == if value * Pow10(DECIMALS - scale) < TWO_128 then Some(Amount(value * Pow10(DECIMALS - scale))) else None
  {
    PowerSplit(scale);
    SmallModulo(Pow10(scale), TWO_256);
    ProductFits(value, SCALE);
    ExactShift(value, Pow10(DECIMALS - scale), Pow10(scale));
  }

  lemma SplitPoint(whole: string, fraction: string)
    requires AllDigits(whole) && AllDigits(fraction)
    ensures Split(whole + "." + fraction, '.') == [whole, fraction]
  {
    SplitAt(whole, fraction, '.');
    SplitWhole(fraction, '.');
  }

  // Reading "whole.fraction" concatenates the digits and scales by the length
  // of the fraction.
  lemma ReadFloatPoint(whole: string, fraction: string)
    requires AllDigits(whole) && AllDigits(fraction)
    ensures ReadText(whole + "." + fraction) == ReadDigits(whole + fraction, |fraction|)
  {
    var text := whole + "." + fraction;
    assert text[|whole|] == '.';
    SplitPoint(whole, fraction);
  }

  lemma ScaledFits(value: nat, scale: nat, raw: U128)
    requires scale <= DECIMALS && value * Pow10(DECIMALS - scale) == raw
    ensures value < TWO_128 && FromU128WithScale(value, scale) == Some(Amount(raw))
  {
    MulAtLeast(value, Pow10(DECIMALS - scale));
    ScaledExact(value, scale);
  }

  lemma ReadDigitsExact(digits: string, k: nat, raw: U128)
    requires digits != "" && AllDigits(digits) && k <= DECIMALS
    requires DigitsValue(digits) * Pow10(DECIMALS - k) == raw
    ensures ReadDigits(digits, k) == Ok(Amount(raw))
  {
    ScaledFits(DigitsValue(digits), k, raw);
    SmallModulo(k, 256);
  }

  // The digits of the whole part followed by all 18 fraction digits spell the
  // raw value.
  lemma AllPlaces(a: Amount)
    ensures AllDigits(WholeDigits(a) + FractionDigits(a))
    ensures DigitsValue(WholeDigits(a) + FractionDigits(a)) == a.raw
  {
    FractionDigitsShape(a);
    DigitsRoundTrip(a.raw / SCALE);
    DigitsValueAppend(WholeDigits(a), FractionDigits(a));
    ScaleIsPower();
  }

  // Cutting the last digits off a numeral divides by their unit.
  lemma CutDigits(head: string, tail: string)
    requires AllDigits(head) && AllDigits(tail)
    ensures AllDigits(head + tail)
    ensures DigitsValue(head) * Pow10(|tail|) == DigitsValue(head + tail) - DigitsValue(head + tail) % Pow10(|tail|)
    ensures DigitsValue(tail) == DigitsValue(head + tail) % Pow10(|tail|)
  {
    DigitsValueAppend(head, tail);
    DigitsValueBound(tail);
    CutValue(DigitsValue(head + tail), DigitsValue(head), Pow10(|tail|), DigitsValue(tail));
  }

  lemma RemainderIs(q: nat, unit: nat, r: nat)
    requires r < unit
    ensures (q * unit + r) % unit == r
  {
    DivIs(q * unit + r, unit, q);
  }

  lemma CutValue(total: nat, q: nat, unit: nat, r: nat)
    requires r < unit && total == q * unit + r
    ensures q * unit == total - total % unit && r == total % unit
  {
    RemainderIs(q, unit, r);
  }

  // The raw value with everything below k decimals removed.
  function CutTo(raw: U128, k: nat): U128
    requires k <= DECIMALS
  {
    CutIsMultiple(raw, Pow10(DECIMALS - k));
    raw - raw % Pow10(DECIMALS - k)
  }

  // A numeral with 18 fraction digits, cut after k of them, reads as the value
  // cut to k decimals.
  lemma ReadCutNumeral(whole: string, f: string, k: nat, raw: U128)
    requires whole != "" && AllDigits(whole) && AllDigits(f)
    requires k <= DECIMALS == |f|
    requires AllDigits(whole + f) && DigitsValue(whole + f) == raw
    ensures ReadText(whole + "." + f[..k]) == Ok(Amount(CutTo(raw, k)))
  {
    var head, tail := whole + f[..k], f[k..];
    assert f == f[..k] + f[k..];
    assert whole + f == head + tail;
    CutDigits(head, tail);
    ReadDigitsExact(head, k, CutTo(raw, k));
    ReadFloatPoint(whole, f[..k]);
  }

  // Printing the first k fraction digits and reading them back cuts the amount
  // to k decimals.
  lemma ReadBackPrefix(a: Amount, k: nat)
    requires k <= DECIMALS
    requires |FractionDigits(a)| == DECIMALS
    ensures ReadText(WholeDigits(a) + "." + FractionDigits(a)[..k])
         == Ok(Amount(CutTo(a.raw, k)))
  {
    FractionDigitsShape(a);
    AllPlaces(a);
    ReadCutNumeral(WholeDigits(a), FractionDigits(a), k, a.raw);
  }

  // Without a precision the digits shown are the first k, and the rest are
  // all zeros.
  lemma TrimmedIsPrefix(a: Amount) returns (k: nat)
    ensures k <= DECIMALS == |FractionDigits(a)|
    ensures ShownFraction(FractionDigits(a), None) == FractionDigits(a)[..k]
    ensures FractionDigits(a)[k..] == Zeros(DECIMALS - k)
  {
    var f := FractionDigits(a);
    FractionDigitsShape(a);
    TrimZerosSplits(f);
    var t := |TrimZeros(f)|;
    if t == 0 {
      k := 1;
      assert f == f[0..] == Zeros(DECIMALS);
      assert f[..1] == "0";
      assert f[1..] == Zeros(DECIMALS - 1);
    } else {
      k := t;
    }
  }

  // The main round trip: every amount, printed plainly, reads back unchanged.
  lemma DisplayRoundTrip(a: Amount)
    ensures ReadText(Display(a, None)) == Ok(a)
  {
    var whole, f := WholeDigits(a), FractionDigits(a);
    var k := TrimmedIsPrefix(a);
    FractionDigitsShape(a);
    ReadBackPrefix(a, k);
    AllPlaces(a);
    assert whole + f == (whole + f[..k]) + f[k..];
    CutDigits(whole + f[..k], f[k..]);
    ZerosValue(DECIMALS - k);
  }

  lemma CutBounds(raw: U128, k: nat)
    requires k <= DECIMALS
    ensures CutTo(raw, k) <= raw < CutTo(raw, k) + Pow10(DECIMALS - k)
    ensures CutTo(raw, k) % Pow10(DECIMALS - k) == 0
  {
    CutIsMultiple(raw, Pow10(DECIMALS - k));
  }

  // With a precision the printed value is the truncation: at most the amount,
  // and less than one unit of the last shown place below it.
  lemma DisplayPrecision(a: Amount, p: nat)
    ensures var unit := Pow10(DECIMALS - if p < DECIMALS then p else DECIMALS);
      var shown := ReadText(Display(a, Some(p)));
      && shown.Ok?
      && shown.value.raw <= a.raw < shown.value.raw + unit
      && shown.value.raw % unit == 0
  {
    FractionDigitsShape(a);
    var k := if p < DECIMALS then p else DECIMALS;
    assert ShownFraction(FractionDigits(a), Some(p)) == FractionDigits(a)[..k];
    ReadBackPrefix(a, k);
    CutBounds(a.raw, k);
  }

  lemma CutIsMultiple(n: nat, unit: nat)
    requires 0 < unit
    ensures 0 <= n - n % unit <= n < n - n % unit + unit
    ensures (n - n % unit) % unit == 0
  {
    var q := n / unit;
    assert n - n % unit == q * unit;
    DivMulCancel(q, unit);
  }

  // An integer literal means that many whole units, the four with constants of
  // their own included. It is refused exactly when it does not fit 128 bits,
  // its own suffix, or, scaled, 128 bits.
  lemma IntegerLiteralMeaning(v: nat, suffix: Suffix)
    ensures ReadInteger(v, suffix) ==
      if TWO_128 <= v then Err(BadInteger)
      else if v !in {0, 1, 2, 4} && !Fits(v, suffix, TWO_128 - 1) then Err(DoesNotCompile)
      else if v * SCALE < TWO_128 then Ok(Amount(v * SCALE))
      else Err(OutOfRange)
  {
    if v < TWO_128 {
      ScaleIsPower();
      ScaledExact(v, 0);
    }
  }

  // A plain decimal numeral is read like the number it spells.
  lemma PlainIntegerMeaning(n: nat)
    ensures ReadText(Digits(n)) == ReadInteger(n, Unsuffixed)
  {
    DigitsRoundTrip(n);
    var text := Digits(n);
    assert forall c :: c in text ==> IsDigit(c);
    assert '.' !in text && 'e' !in text && 'E' !in text;
  }
}
