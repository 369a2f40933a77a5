// Decimal digits, splitting and joining of text.
module Text {
  import opened Arithmetic

  predicate IsDigit(c: char) { '0' <= c <= '9' }

  predicate AllDigits(s: string) { forall k :: 0 <= k < |s| ==> IsDigit(s[k]) }

  function DigitChar(d: nat): char
    requires d < 10
  {
    '0' + d as char
  }

  function DigitValue(c: char): nat
    requires IsDigit(c)
  {
    (c - '0') as nat
  }

  // Decimal text without leading zeros, as an integer is formatted.
  function Digits(n: nat): (s: string)
    ensures 0 < |s| && AllDigits(s)
  {
    if n < 10 then [DigitChar(n)] else Digits(n / 10) + [DigitChar(n % 10)]
  }

  function DigitsValue(s: string): nat
    requires AllDigits(s)
  {
    if s == "" then 0
    else DigitsValue(s[..|s| - 1]) * 10 + DigitValue(s[|s| - 1])
  }

  lemma {:induction false} DigitsRoundTrip(n: nat)
    ensures DigitsValue(Digits(n)) == n
  {
    if n < 10 {
      assert Digits(n)[..0] == "";
    } else {
      DigitsRoundTrip(n / 10);
      assert Digits(n)[..|Digits(n)| - 1] == Digits(n / 10);
    }
  }

  // Positional value: appending t shifts s by |t| places.
  lemma {:induction false} DigitsValueAppend(s: string, t: string)
    requires AllDigits(s) && AllDigits(t)
    ensures AllDigits(s + t)
    ensures DigitsValue(s + t) == DigitsValue(s) * Pow10(|t|) + DigitsValue(t)
  {
    if t == "" {
      assert s + t == s;
    } else {
      var front := t[..|t| - 1];
      DigitsValueAppend(s, front);
      assert (s + t)[..|s + t| - 1] == s + front;
      MulAssociates(DigitsValue(s), Pow10(|front|), 10);
      assert DigitsValue(s + front) * 10 == DigitsValue(s) * Pow10(|front|) * 10 + DigitsValue(front) * 10;
    }
  }

  lemma {:induction false} DigitsValueBound(s: string)
    requires AllDigits(s)
    ensures DigitsValue(s) < Pow10(|s|)
  {
    if s != "" {
      DigitsValueBound(s[..|s| - 1]);
    }
  }

  lemma {:induction false} DigitsLength(n: nat, w: nat)
    requires 0 < w && n < Pow10(w)
    ensures |Digits(n)| <= w
  {
    if 10 <= n {
      assert 1 < w by { assert Pow10(1) == 10 * Pow10(0) == 10; }
      DivBelow(n, 10, Pow10(w - 1));
      DigitsLength(n / 10, w - 1);
    }
  }

  // The zeros a number is padded with on the left.
  function Zeros(count: nat): (s: string)
    ensures |s| == count && AllDigits(s)
  {
    seq(count, i => '0')
  }

  function PadLeft(s: string, width: nat): string {
    if |s| < width then Zeros(width - |s|) + s else s
  }

  lemma {:induction false} ZerosValue(count: nat)
    ensures DigitsValue(Zeros(count)) == 0
  {
    if count > 0 {
      ZerosValue(count - 1);
      assert Zeros(count)[..count - 1] == Zeros(count - 1);
    }
  }

  lemma PadLeftValue(s: string, width: nat)
    requires AllDigits(s)
    ensures AllDigits(PadLeft(s, width))
    ensures DigitsValue(PadLeft(s, width)) == DigitsValue(s)
  {
    if |s| < width {
      DigitsValueAppend(Zeros(width - |s|), s);
      ZerosValue(width - |s|);
    }
  }

  // Drops every trailing '0'.
  function TrimZeros(s: string): string {
    if s != "" && s[|s| - 1] == '0' then TrimZeros(s[..|s| - 1]) else s
  }

  lemma {:induction false} TrimZerosSplits(s: string)
    ensures TrimZeros(s) <= s
    ensures s[|TrimZeros(s)|..] == Zeros(|s| - |TrimZeros(s)|)
  {
    if s != "" && s[|s| - 1] == '0' {
      var front := s[..|s| - 1];
      TrimZerosSplits(front);
      var k := |TrimZeros(s)|;
      assert s[k..] == front[k..] + ['0'];
    }
  }

  // The pieces of s between separators; there is always at least one.
  function Split(s: string, sep: char): (parts: seq<string>)
    ensures 0 < |parts|
  {
    if s == "" then [""]
    else
      var rest := Split(s[1..], sep);
      if s[0] == sep then [""] + rest
      else [[s[0]] + rest[0]] + rest[1..]
  }

  function Join(parts: seq<string>, sep: string): string {
    if |parts| == 0 then ""
    else if |parts| == 1 then parts[0]
    else parts[0] + sep + Join(parts[1..], sep)
  }

  lemma {:induction false} SplitAt(a: string, b: string, sep: char)
    requires sep !in a
    ensures Split(a + [sep] + b, sep) == [a] + Split(b, sep)
  {
    var s := a + [sep] + b;
    if a == "" {
      assert s[1..] == b;
    } else {
      SplitAt(a[1..], b, sep);
      assert s[1..] == a[1..] + [sep] + b;
      assert [a[0]] + a[1..] == a;
    }
  }

  lemma {:induction false} SplitWhole(a: string, sep: char)
    requires sep !in a
    ensures Split(a, sep) == [a]
  {
    if a != "" {
      SplitWhole(a[1..], sep);
      assert [a[0]] + a[1..] == a;
    }
  }

  lemma {:induction false} SplitJoin(parts: seq<string>, sep: char)
    requires 0 < |parts|
    requires forall k :: 0 <= k < |parts| ==> sep !in parts[k]
    ensures Split(Join(parts, [sep]), sep) == parts
  {
    if |parts| == 1 {
      SplitWhole(parts[0], sep);
    } else {
      SplitAt(parts[0], Join(parts[1..], [sep]), sep);
      SplitJoin(parts[1..], sep);
      assert [parts[0]] + parts[1..] == parts;
    }
  }
}
