// The printed amount is the shortest numeral that reads back as it
// (libs/common/src/amount.rs, proc-macros/amount-macros/src/lib.rs).
module ShortestAmount {
  import opened Prelude
  import opened Arithmetic
  import opened FixedPoint
  import opened Text
  import opened AmountText

  // ---- The shown digits ----

  lemma {:induction false} TrimmedEnd(s: string)
    ensures TrimZeros(s) == "" || TrimZeros(s)[|TrimZeros(s)| - 1] != '0'
  {
    if s != "" && s[|s| - 1] == '0' {
      TrimmedEnd(s[..|s| - 1]);
    }
  }

  // Without a precision the fraction shown is "0" or ends in another digit.
  lemma NoTrailingZeros(a: Amount)
    ensures var f := ShownFraction(FractionDigits(a), None);
      f == "0" || (f != "" && f[|f| - 1] != '0')
  {
    TrimmedEnd(FractionDigits(a));
  }

  // With a precision of p exactly p places are shown, but no more than 18.
  lemma ShownPlaces(a: Amount, p: nat)
    ensures var f := ShownFraction(FractionDigits(a), Some(p));
      AllDigits(f) && |f| == (if p < DECIMALS then p else DECIMALS)
  {
    FractionDigitsShape(a);
  }

  // ---- No numeral of fewer digits has the same value ----

  lemma {:induction false} DigitsShortest(s: string)
    requires s != "" && AllDigits(s)
    ensures |Digits(DigitsValue(s))| <= |s|
  {
    DigitsValueBound(s);
    DigitsLength(DigitsValue(s), |s|);
  }

  // A numeral that ends in a digit other than 0 is no multiple of ten.
  lemma LastDigit(s: string)
    requires s != "" && AllDigits(s) && s[|s| - 1] != '0'
    ensures DigitsValue(s) % 10 != 0
  {
  }

  lemma PowerMultiple(v: nat, e: nat)
    requires 0 < e
    ensures v * Pow10(e) % 10 == 0
  {
    assert v * Pow10(e) == v * Pow10(e - 1) * 10;
    DivMulCancel(v * Pow10(e - 1), 10);
  }

  // The digits shown, run together, and what is cut off behind them.
  lemma ShownValue(a: Amount) returns (t: nat, v: nat)
    ensures t == |ShownFraction(FractionDigits(a), None)| && 1 <= t <= DECIMALS
    ensures v * Pow10(DECIMALS - t) == a.raw
    ensures 1 < t ==> v % 10 != 0
  {
    var whole, f := WholeDigits(a), FractionDigits(a);
    t := TrimmedIsPrefix(a);
    FractionDigitsShape(a);
    NoTrailingZeros(a);
    AllPlaces(a);
    var shown := whole + f[..t];
    assert whole + f == shown + f[t..];
    CutDigits(shown, f[t..]);
    ZerosValue(DECIMALS - t);
    v := DigitsValue(shown);
    if 1 < t {
      assert shown[|shown| - 1] == f[..t][t - 1] != '0';
      LastDigit(shown);
    }
  }

  // If v units of 10^-t and w units of 10^-k are the same amount and k < t,
  // then v is a multiple of ten.
  lemma FewerPlaces(v: nat, t: nat, w: nat, k: nat)
    requires k < t <= DECIMALS
    requires v * Pow10(DECIMALS - t) == w * Pow10(DECIMALS - k)
    ensures v % 10 == 0
  {
    var unit := Pow10(DECIMALS - t);
    Pow10Add(t - k, DECIMALS - t);
    MulAssociates(w, Pow10(t - k), unit);
    DivMulCancel(v, unit);
    DivMulCancel(w * Pow10(t - k), unit);
    PowerMultiple(w, t - k);
  }

  // ---- What a numeral with a point reads as ----

  lemma ReadDigitsMeaning(digits: string, k: nat)
    requires digits != "" && AllDigits(digits) && k <= DECIMALS
    ensures var raw := DigitsValue(digits) * Pow10(DECIMALS - k);
      ReadDigits(digits, k) == if raw < TWO_128 then Ok(Amount(raw)) else Err(OutOfRange)
  {
    var v := DigitsValue(digits);
    MulAtLeast(v, Pow10(DECIMALS - k));
    SmallModulo(k, 256);
    if v < TWO_128 {
      ScaledExact(v, k);
    }
  }

  // Up to 18 places: the digits times their unit, exactly, or a range error if
  // the digits or the result leave 128 bits.
  lemma FloatLiteralMeaning(whole: string, fraction: string)
    requires AllDigits(whole) && AllDigits(fraction) && |fraction| <= DECIMALS && whole + fraction != ""
    ensures AllDigits(whole + fraction)
    ensures var raw := DigitsValue(whole + fraction) * Pow10(DECIMALS - |fraction|);
      ReadText(whole + "." + fraction) == if raw < TWO_128 then Ok(Amount(raw)) else Err(OutOfRange)
  {
    ReadFloatPoint(whole, fraction);
    ReadDigitsMeaning(whole + fraction, |fraction|);
  }

  // One and a half is 1.5 times 10^18.
  lemma OneAndAHalf()
    ensures ReadText("1.5") == Ok(Amount(1_500_000_000_000_000_000))
  {
    assert "1" + "." + "5" == "1.5" && "1" + "5" == "15";
    assert "15"[..1] == "1" && "1"[..0] == "" && DigitsValue("15") == 15;
    FloatLiteralMeaning("1", "5");
    ScaleIsPower();
    assert Pow10(DECIMALS) == 10 * Pow10(DECIMALS - 1);
  }

  // Anything but digits around the point, an exponent among them, is refused,
  // and so is a second point.
  lemma OtherTextRefused(whole: string, fraction: string, more: string)
    requires '.' !in whole && '.' !in fraction
    ensures whole + fraction == "" || !AllDigits(whole + fraction) ==>
      ReadText(whole + "." + fraction) == Err(BadInteger)
    ensures ReadText(whole + "." + (fraction + "." + more)) == Err(InvalidFloat)
  {
    SplitAt(whole, fraction, '.');
    SplitWhole(fraction, '.');
    SplitAt(whole, fraction + "." + more, '.');
    SplitAt(fraction, more, '.');
    assert (whole + "." + fraction)[|whole|] == '.';
    assert (whole + "." + (fraction + "." + more))[|whole|] == '.';
  }

  const MANY: nat := 38

  lemma ManyPlaces(k: nat)
    requires k <= MANY
    ensures Pow10(k) < TWO_256
  {
    ScaleIsPower();
    Pow10Add(DECIMALS, DECIMALS);
    Pow10Add(2, 2 * DECIMALS);
    assert Pow10(2) == 10 * Pow10(1) == 100;
    Pow10Add(MANY - k, k);
    MulMono(1, Pow10(MANY - k), Pow10(k));
  }

  // Also with more places than an amount has the digits are scaled exactly, and
  // only then cut.
  lemma ReadsAs(whole: string, fraction: string, a: Amount)
    requires AllDigits(whole) && AllDigits(fraction) && |fraction| <= MANY
    requires ReadText(whole + "." + fraction) == Ok(a)
    ensures AllDigits(whole + fraction)
    ensures a.raw == DigitsValue(whole + fraction) * SCALE / Pow10(|fraction|)
  {
    ReadFloatPoint(whole, fraction);
    DigitsValueAppend(whole, fraction);
    ManyPlaces(|fraction|);
    SmallModulo(|fraction|, 256);
    SmallModulo(Pow10(|fraction|), TWO_256);
    ProductFits(DigitsValue(whole + fraction), SCALE);
  }

  lemma WholeOf(v: nat, head: nat, unit: nat, tail: nat, raw: nat)
    requires tail < unit && v == head * unit + tail && raw == v * SCALE / unit
    ensures raw / SCALE == head
  {
    DivDiv(v * SCALE, unit, SCALE);
    DivCommonFactor(v, unit, SCALE);
    DivIs(v, unit, head);
  }

  // What is in front of the point is the whole part of the amount.
  lemma WholePart(whole: string, fraction: string, a: Amount)
    requires AllDigits(whole) && AllDigits(fraction) && |fraction| <= MANY
    requires ReadText(whole + "." + fraction) == Ok(a)
    ensures DigitsValue(whole) == a.raw / SCALE
  {
    ReadsAs(whole, fraction, a);
    var v, unit := DigitsValue(whole + fraction), Pow10(|fraction|);
    DigitsValueAppend(whole, fraction);
    DigitsValueBound(fraction);
    WholeOf(v, DigitsValue(whole), unit, DigitsValue(fraction), a.raw);
  }

  lemma DisplayLength(a: Amount) returns (t: nat, v: nat)
    ensures t == |ShownFraction(FractionDigits(a), None)| && 1 <= t <= DECIMALS
    ensures |Display(a, None)| == |WholeDigits(a)| + 1 + t && |WholeDigits(a)| <= 21
    ensures v * Pow10(DECIMALS - t) == a.raw
    ensures 1 < t ==> v % 10 != 0
  {
    t, v := ShownValue(a);
    ScaleIsPower();
    Pow10Add(DECIMALS, 3);
    DigitsLength(a.raw / SCALE, 21);
  }

  // The main result: whatever is printed without a precision is shortest among
  // all numerals with digits on both sides of the point that read back as the
  // amount. In particular no zero is shown that could be left out.
  lemma DisplayIsShortest(a: Amount, whole: string, fraction: string)
    requires AllDigits(whole) && AllDigits(fraction) && whole != "" && fraction != ""
    requires ReadText(whole + "." + fraction) == Ok(a)
    ensures |Display(a, None)| <= |whole + "." + fraction|
  {
    var t, v := DisplayLength(a);
    if |fraction| < t {
      EnoughPlaces(a, whole, fraction, t, v);
    }
    if |fraction| <= MANY {
      WholePart(whole, fraction, a);
      DigitsShortest(whole);
    }
  }

  lemma EnoughPlaces(a: Amount, whole: string, fraction: string, t: nat, v: nat)
    requires AllDigits(whole) && AllDigits(fraction) && fraction != ""
    requires ReadText(whole + "." + fraction) == Ok(a)
    requires |fraction| < t <= DECIMALS && v * Pow10(DECIMALS - t) == a.raw
    ensures v % 10 == 0
  {
    FloatLiteralMeaning(whole, fraction);
    FewerPlaces(v, t, DigitsValue(whole + fraction), |fraction|);
  }
}
