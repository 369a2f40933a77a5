// The comma-separated text of a vector and the macro that reads such a list
// (libs/common/src/vector.rs, proc-macros/vector-macros/src/lib.rs).
module VectorText {
  import opened Prelude
  import opened Arithmetic
  import opened FixedPoint
  import opened Text
  import opened AmountText
  import opened ByteCodec

  // The largest number of places that neither the amount nor the request
  // exceeds.
  function Places(precision: Option<nat>): (places: nat)
    ensures places <= DECIMALS && (precision.Some? ==> places <= precision.value)
    ensures places == DECIMALS || precision == Some(places)
  {
    if precision.Some? && precision.value < DECIMALS then precision.value else DECIMALS
  }

  function Shown(data: seq<Amount>, places: nat): (parts: seq<string>)
    ensures |parts| == |data|
  {
    seq(|data|, i requires 0 <= i < |data| => Display(data[i], Some(places)))
  }

  lemma {:induction false} JoinSnoc(parts: seq<string>, last: string, sep: string)
    requires parts != []
    ensures Join(parts + [last], sep) == Join(parts, sep) + sep + last
  {
    if |parts| > 1 {
      JoinSnoc(parts[1..], last, sep);
      assert (parts + [last])[1..] == parts[1..] + [last];
    } else {
      assert (parts + [last])[1..] == [last];
    }
  }

  lemma JoinNext(parts: seq<string>, i: nat, sep: string)
    requires i < |parts|
    ensures Join(parts[..i + 1], sep) == Join(parts[..i], sep) + (if i == 0 then "" else sep) + parts[i]
  {
    assert parts[..i + 1] == parts[..i] + [parts[i]];
    if i > 0 {
      JoinSnoc(parts[..i], parts[i], sep);
    }
  }

  function Separator(alternate: bool): string {
    if alternate then "\n\t" else ","
  }

  // List mode: the separator is empty before the first element only.
  method DisplayList(vector: Vector, precision: Option<nat>, alternate: bool) returns (text: string)
    ensures text == Join(Shown(vector.data, Places(precision)), if alternate then "\n\t" else ",")
  {
    text := "";
    var separator := "";
    ghost var parts := Shown(vector.data, Places(precision));
    for i := 0 to |vector.data|
      invariant separator == if i == 0 then "" else Separator(alternate)
      invariant text == Join(parts[..i], Separator(alternate))
    {
      JoinNext(parts, i, Separator(alternate));
      var shown := Display(vector.data[i], Some(Places(precision)));
      assert shown == parts[i];
      text := text + separator + shown;
      separator := Separator(alternate);
    }
    assert parts[..|parts|] == parts;
  }

  function ReadAll(parts: seq<string>): Result<seq<Amount>, ReadError> {
    if parts == [] then Ok([])
    else
      match ReadText(parts[0])
      case Err(e) => Err(e)
      case Ok(a) =>
        match ReadAll(parts[1..])
        case Err(e) => Err(e)
        case Ok(rest) => Ok([a] + rest)
  }

  // A comma-separated list of literals; a trailing comma is allowed.
  function ReadVector(text: string): Result<Vector, ReadError> {
    var parts := Split(text, ',');
    var items := if parts[|parts| - 1] == "" then parts[..|parts| - 1] else parts;
    match ReadAll(items)
    case Ok(data) => Ok(Vector(data))
    case Err(e) => Err(e)
  }

  lemma DisplayHasNoComma(a: Amount, p: nat)
    ensures ',' !in Display(a, Some(p)) && Display(a, Some(p)) != ""
  {
    FractionDigitsShape(a);
    assert AllDigits(WholeDigits(a));
    var shown := ShownFraction(FractionDigits(a), Some(p));
    assert AllDigits(shown);
    assert forall c :: c in Display(a, Some(p)) ==> c in WholeDigits(a) || c == '.' || c in shown;
  }

  lemma {:induction false} ReadAllShown(data: seq<Amount>)
    ensures ReadAll(Shown(data, DECIMALS)) == Ok(data)
  {
    if data != [] {
      ReadAllShown(data[1..]);
      FullPrecision(data[0]);
      ShownCons(data);
      assert [data[0]] + data[1..] == data;
    }
  }

  lemma FullPrecision(a: Amount)
    ensures ReadText(Display(a, Some(DECIMALS))) == Ok(a)
  {
    DisplayPrecision(a, DECIMALS);
    assert Pow10(0) == 1;
  }

  lemma ShownCons(data: seq<Amount>)
    requires data != []
    ensures Shown(data, DECIMALS) == [Display(data[0], Some(DECIMALS))] + Shown(data[1..], DECIMALS)
  {
  }

  // The default list text, read by the list macro, rebuilds the vector.
  lemma ListRoundTrip(vector: Vector)
    ensures ReadVector(Join(Shown(vector.data, Places(None)), Separator(false))) == Ok(vector)
  {
    var parts := Shown(vector.data, DECIMALS);
    ReadAllShown(vector.data);
    if vector.data != [] {
      forall i | 0 <= i < |parts|
        ensures ',' !in parts[i] && parts[i] != ""
      {
        DisplayHasNoComma(vector.data[i], DECIMALS);
      }
      SplitJoin(parts, ',');
    }
  }

  lemma {:induction false} SplitTrailing(text: string, sep: char)
    ensures Split(text + [sep], sep) == Split(text, sep) + [""]
  {
    if text == "" {
      assert [sep][1..] == "" && Split([sep], sep) == [""] + Split("", sep);
    } else {
      SplitTrailing(text[1..], sep);
      assert (text + [sep])[1..] == text[1..] + [sep];
    }
  }

  // A comma behind the last element changes nothing.
  lemma TrailingComma(vector: Vector)
    requires vector.data != []
    ensures ReadVector(Join(Shown(vector.data, Places(None)), Separator(false)) + ",") == Ok(vector)
  {
    var parts := Shown(vector.data, DECIMALS);
    ReadAllShown(vector.data);
    forall i | 0 <= i < |parts|
      ensures ',' !in parts[i]
    {
      DisplayHasNoComma(vector.data[i], DECIMALS);
    }
    SplitJoin(parts, ',');
    SplitTrailing(Join(parts, ","), ',');
    assert (parts + [""])[..|parts|] == parts;
  }
}
