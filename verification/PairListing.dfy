// Choosing one trading pair per base coin, numbering the pairs, and noticing
// changes against an earlier list (bin/scripts/src/bin/list_bitget_pairs.rs).
module PairListing {
  import opened Prelude
  import opened Text
  import opened Sorting

  datatype Product = Product(
    base: string, quote: string, minTrade: string, pricePrecision: string, quantityPrecision: string, status: string)

  datatype OutputPair = OutputPair(
    id: nat, symbol: string, base: string, quote: string, minTrade: string, priceScale: nat, quantityScale: nat)

  // ---- Base coins in byte order ----

  predicate LexLess(a: string, b: string) {
    b != "" && (a == "" || a[0] < b[0] || (a[0] == b[0] && LexLess(a[1..], b[1..])))
  }

  lemma {:induction false} LexIrreflexive(a: string)
    ensures !LexLess(a, a)
  {
    if a != "" {
      LexIrreflexive(a[1..]);
    }
  }

  lemma {:induction false} LexTotal(a: string, b: string)
    requires a != b
    ensures LexLess(a, b) || LexLess(b, a)
  {
    if a != "" && b != "" && a[0] == b[0] {
      assert a == [a[0]] + a[1..] && b == [b[0]] + b[1..];
      LexTotal(a[1..], b[1..]);
    }
  }

  lemma {:induction false} LexTransitive(a: string, b: string, c: string)
    requires LexLess(a, b) && LexLess(b, c)
    ensures LexLess(a, c)
  {
    if a != "" && a[0] == b[0] && b[0] == c[0] {
      LexTransitive(a[1..], b[1..], c[1..]);
    }
  }

  lemma LexIsStrictOrder()
    ensures StrictOrder(LexLess)
  {
    forall a {
      LexIrreflexive(a);
    }
    forall a, b | a != b
      ensures LexLess(a, b) || LexLess(b, a)
    {
      LexTotal(a, b);
    }
    forall a, b, c | LexLess(a, b) && LexLess(b, c)
      ensures LexLess(a, c)
    {
      LexTransitive(a, b, c);
    }
  }

  // Dictionary order: at the first difference the smaller character comes first,
  // and a proper prefix comes before the longer string.
  lemma {:induction false} LexIsDictionary(a: string, b: string)
    ensures LexLess(a, b) <==> exists k :: FirstDifference(a, b, k) && (k == |a| || (k < |b| && a[k] < b[k]))
  {
    if a == "" && b != "" {
      assert FirstDifference(a, b, 0);
    } else if a != "" && b != "" && a[0] == b[0] {
      LexIsDictionary(a[1..], b[1..]);
      assert a == [a[0]] + a[1..] && b == [b[0]] + b[1..];
      if k :| FirstDifference(a[1..], b[1..], k) && (k == |a[1..]| || (k < |b[1..]| && a[1..][k] < b[1..][k])) {
        assert FirstDifference(a, b, k + 1);
      }
      if k :| FirstDifference(a, b, k) && (k == |a| || (k < |b| && a[k] < b[k])) {
        assert FirstDifference(a[1..], b[1..], k - 1);
      }
    } else if a != "" && b != "" {
      assert FirstDifference(a, b, 0);
    }
  }

  // The strings agree before k and no further.
  predicate FirstDifference(a: string, b: string, k: int) {
    && 0 <= k <= |a| && k <= |b| && a != b
    && (forall i :: 0 <= i < k ==> a[i] == b[i])
    && (k < |a| && k < |b| ==> a[k] != b[k])
  }

  // ---- Selection ----

  predicate Wanted(p: Product) { p.quote == "USDC" || p.quote == "USDT" }

  function Online(products: seq<Product>): seq<Product> {
    if products == [] then []
    else
      var before := Online(products[..|products| - 1]);
      var last := products[|products| - 1];
      if last.status == "online" then before + [last] else before
  }

  // The first product with this base and quote.
  function FirstWith(products: seq<Product>, base: string, quote: string): Option<Product> {
    if products == [] then None
    else if products[0].base == base && products[0].quote == quote then Some(products[0])
    else FirstWith(products[1..], base, quote)
  }

  // The reference choice for a base coin: USDC if listed, otherwise USDT.
  function Choice(products: seq<Product>, base: string): Option<Product> {
    var usdc := FirstWith(products, base, "USDC");
    if usdc.Some? then usdc else FirstWith(products, base, "USDT")
  }

  lemma {:induction false} FirstWithFound(products: seq<Product>, base: string, quote: string)
    ensures FirstWith(products, base, quote).Some? <==>
      exists i :: 0 <= i < |products| && products[i].base == base && products[i].quote == quote
    ensures var p := FirstWith(products, base, quote);
      p.Some? ==> p.value.base == base && p.value.quote == quote && p.value in products
  {
    if products != [] {
      FirstWithFound(products[1..], base, quote);
      assert products == [products[0]] + products[1..];
      if !(products[0].base == base && products[0].quote == quote) {
        if i :| 0 <= i < |products| && products[i].base == base && products[i].quote == quote {
          assert products[1..][i - 1] == products[i];
        }
        if i :| 0 <= i < |products[1..]| && products[1..][i].base == base && products[1..][i].quote == quote {
          assert products[i + 1] == products[1..][i];
        }
      }
    }
  }

  // The products of one group: those with the base and a wanted quote.
  function Group(products: seq<Product>, base: string): seq<Product> {
    if products == [] then []
    else
      var before := Group(products[..|products| - 1], base);
      var last := products[|products| - 1];
      if Wanted(last) && last.base == base then before + [last] else before
  }

  lemma {:induction false} FirstWithSnoc(products: seq<Product>, p: Product, base: string, quote: string)
    ensures FirstWith(products + [p], base, quote) ==
      if FirstWith(products, base, quote).Some? then FirstWith(products, base, quote)
      else if p.base == base && p.quote == quote then Some(p) else None
  {
    if products == [] {
      assert [p][1..] == [];
    } else {
      assert (products + [p])[1..] == products[1..] + [p];
      FirstWithSnoc(products[1..], p, base, quote);
    }
  }

  // Looking inside the group finds what looking through the whole list finds.
  lemma {:induction false} GroupKeepsFirst(products: seq<Product>, base: string, quote: string)
    requires quote == "USDC" || quote == "USDT"
    ensures FirstWith(Group(products, base), base, quote) == FirstWith(products, base, quote)
  {
    if products != [] {
      var front, last := products[..|products| - 1], products[|products| - 1];
      GroupKeepsFirst(front, base, quote);
      FirstWithSnoc(front, last, base, quote);
      FirstWithSnoc(Group(front, base), last, base, quote);
      assert products == front + [last];
    }
  }

  method FindQuote(pairs: seq<Product>, base: string, quote: string) returns (found: Option<Product>)
    requires forall i :: 0 <= i < |pairs| ==> pairs[i].base == base
    ensures found == FirstWith(pairs, base, quote)
  {
    for i := 0 to |pairs|
      invariant FirstWith(pairs, base, quote) == FirstWith(pairs[i..], base, quote)
    {
      if pairs[i].quote == quote {
        return Some(pairs[i]);
      }
      assert pairs[i..][1..] == pairs[i + 1..];
    }
    return None;
  }

  // The hash map hands out the groups in any order.
  ghost predicate VisitsBases(products: seq<Product>, visit: seq<string>) {
    NoDuplicates(visit) && forall b :: b in visit <==> Choice(products, b).Some?
  }

  ghost predicate Grouped(byBase: map<string, seq<Product>>, products: seq<Product>) {
    && (forall b :: b in byBase <==> Group(products, b) != [])
    && (forall b :: b in byBase ==> byBase[b] == Group(products, b))
  }

  method GroupByBase(products: seq<Product>) returns (byBase: map<string, seq<Product>>)
    ensures Grouped(byBase, products)
  {
    byBase := map[];
    for i := 0 to |products|
      invariant Grouped(byBase, products[..i])
    {
      assert products[..i + 1][..i] == products[..i];
      var p := products[i];
      if Wanted(p) {
        var before := if p.base in byBase then byBase[p.base] else [];
        byBase := byBase[p.base := before + [p]];
      }
    }
    assert products[..|products|] == products;
  }

  lemma {:induction false} GroupMembers(products: seq<Product>, base: string)
    ensures forall i :: 0 <= i < |Group(products, base)| ==> Group(products, base)[i].base == base
    ensures Group(products, base) == [] <==> Choice(products, base).None?
  {
    GroupBases(products, base);
    GroupKeepsFirst(products, base, "USDC");
    GroupKeepsFirst(products, base, "USDT");
    var g := Group(products, base);
    if g != [] {
      assert g[0].quote == "USDC" || g[0].quote == "USDT";
    }
  }

  lemma {:induction false} GroupBases(products: seq<Product>, base: string)
    ensures forall i :: 0 <= i < |Group(products, base)| ==>
      Group(products, base)[i].base == base && Wanted(Group(products, base)[i])
  {
    if products != [] {
      GroupBases(products[..|products| - 1], base);
    }
  }

  function Chosen(products: seq<Product>, bases: seq<string>): (c: seq<Product>)
    requires forall i :: 0 <= i < |bases| ==> Choice(products, bases[i]).Some?
    ensures |c| == |bases|
  {
    seq(|bases|, i requires 0 <= i < |bases| => Choice(products, bases[i]).value)
  }

  method SelectPairs(products: seq<Product>, visit: seq<string>) returns (selected: seq<Product>)
    requires VisitsBases(products, visit)
    ensures selected == Chosen(products, visit)
  {
    var byBase := GroupByBase(products);
    selected := [];
    for i := 0 to |visit|
      invariant |selected| == i
      invariant forall j :: 0 <= j < i ==> selected[j] == Chosen(products, visit)[j]
    {
      var base := visit[i];
      assert base in visit;
      GroupMembers(products, base);
      GroupKeepsFirst(products, base, "USDC");
      GroupKeepsFirst(products, base, "USDT");
      var usdc := FindQuote(byBase[base], base, "USDC");
      var usdt := FindQuote(byBase[base], base, "USDT");
      if usdc.Some? {
        selected := selected + [usdc.value];
      } else if usdt.Some? {
        selected := selected + [usdt.value];
      }
    }
  }

  // ---- Sorting and numbering ----

  function BasesOf(products: seq<Product>): (b: seq<string>)
    ensures |b| == |products| && forall i :: 0 <= i < |b| ==> b[i] == products[i].base
  {
    MapSeq((p: Product) => p.base, products)
  }

  function InsertByBase(p: Product, s: seq<Product>): seq<Product> {
    if s == [] || LexLess(p.base, s[0].base) then [p] + s else [s[0]] + InsertByBase(p, s[1..])
  }

  function SortByBase(s: seq<Product>): seq<Product> {
    if s == [] then [] else InsertByBase(s[0], SortByBase(s[1..]))
  }

  lemma {:induction false} InsertByBaseBases(p: Product, s: seq<Product>)
    ensures BasesOf(InsertByBase(p, s)) == Insert(p.base, BasesOf(s), LexLess)
    ensures forall q :: q in InsertByBase(p, s) <==> q == p || q in s
  {
    if s == [] || LexLess(p.base, s[0].base) {
      assert BasesOf([p] + s) == [p.base] + BasesOf(s);
    } else {
      InsertByBaseBases(p, s[1..]);
      assert BasesOf(s)[1..] == BasesOf(s[1..]);
      assert s == [s[0]] + s[1..];
    }
  }

  lemma {:induction false} SortByBaseBases(s: seq<Product>)
    ensures BasesOf(SortByBase(s)) == Sort(BasesOf(s), LexLess)
    ensures forall q :: q in SortByBase(s) <==> q in s
  {
    if s != [] {
      SortByBaseBases(s[1..]);
      InsertByBaseBases(s[0], SortByBase(s[1..]));
      assert BasesOf(s)[1..] == BasesOf(s[1..]);
      assert s == [s[0]] + s[1..];
    }
  }

  function ParseU8(s: string): Option<nat> {
    var digits := if s != "" && s[0] == '+' then s[1..] else s;
    if digits == "" || !AllDigits(digits) || 255 < DigitsValue(digits) then None else Some(DigitsValue(digits))
  }

  function ScaleOr(s: string, fallback: nat): nat {
    match ParseU8(s)
    case Some(v) => v
    case None => fallback
  }

  const TWO_32: nat := 0x1_0000_0000

  // The position is cast to u32.
  function Numbered(p: Product, position: nat): OutputPair {
    OutputPair((position + 1) % TWO_32, p.base + "/" + p.quote, p.base, p.quote, p.minTrade,
      ScaleOr(p.pricePrecision, 2), ScaleOr(p.quantityPrecision, 4))
  }

  function NumberAll(products: seq<Product>): (out: seq<OutputPair>)
    ensures |out| == |products|
  {
    seq(|products|, i requires 0 <= i < |products| => Numbered(products[i], i))
  }

  // Whether a base coin has an online pair worth listing.
  ghost predicate Listable(products: seq<Product>, base: string, quote: string) {
    exists i :: 0 <= i < |products| && products[i].status == "online"
      && products[i].base == base && products[i].quote == quote
  }

  ghost predicate HasBase(out: seq<OutputPair>, base: string) {
    exists i :: 0 <= i < |out| && out[i].base == base
  }

  // Strictly ascending base coins, numbered from one, named base/quote.
  ghost predicate Ordered(out: seq<OutputPair>) {
    && (forall i, j :: 0 <= i < j < |out| ==> LexLess(out[i].base, out[j].base))
    && (forall i :: 0 <= i < |out| ==> out[i].id == (i + 1) % TWO_32)
    && (forall i :: 0 <= i < |out| ==> out[i].symbol == out[i].base + "/" + out[i].quote)
  }

  // The quote of a listed base: USDC exactly when such a pair is online.
  ghost predicate QuotedFrom(products: seq<Product>, p: OutputPair) {
    p.quote == if Listable(products, p.base, "USDC") then "USDC" else "USDT"
  }

  // Decimal digits, perhaps behind a plus sign, that spell a byte.
  ghost predicate Spells(text: string, v: nat) {
    exists digits ::
      (text == digits || text == "+" + digits) && digits != "" && AllDigits(digits) && v == DigitsValue(digits) < 256
  }

  // A scale is what its text spells, or the fallback if that is no byte.
  ghost predicate ScaleFrom(text: string, fallback: nat, scale: nat) {
    Spells(text, scale) || (scale == fallback && forall v: nat :: !Spells(text, v))
  }

  // A listed pair has the terms of the first online product with its coins; the
  // scales fall back to 2 and 4.
  ghost predicate TermsFrom(products: seq<Product>, p: OutputPair) {
    exists i :: FirstOnline(products, p.base, p.quote, i) && p.minTrade == products[i].minTrade
      && ScaleFrom(products[i].pricePrecision, 2, p.priceScale)
      && ScaleFrom(products[i].quantityPrecision, 4, p.quantityScale)
  }

  predicate OnlineWith(products: seq<Product>, base: string, quote: string, i: int) {
    0 <= i < |products| && products[i].status == "online" && products[i].base == base && products[i].quote == quote
  }

  ghost predicate FirstOnline(products: seq<Product>, base: string, quote: string, i: int) {
    OnlineWith(products, base, quote, i) && forall j :: 0 <= j < i ==> !OnlineWith(products, base, quote, j)
  }

  lemma SpelledIsParsed(text: string, v: nat)
    ensures ParseU8(text) == Some(v) <==> Spells(text, v)
  {
    var digits := if text != "" && text[0] == '+' then text[1..] else text;
    assert text == digits || text == "+" + digits;
    if Spells(text, v) {
      var d :| (text == d || text == "+" + d) && d != "" && AllDigits(d) && v == DigitsValue(d) < 256;
      assert digits == d;
    }
  }

  lemma ScaleMeaning(text: string, fallback: nat)
    ensures ScaleFrom(text, fallback, ScaleOr(text, fallback))
  {
    forall v: nat {
      SpelledIsParsed(text, v);
    }
  }

  lemma {:induction false} FirstWithOnline(products: seq<Product>, base: string, quote: string) returns (i: int)
    ensures FirstWith(Online(products), base, quote).Some? ==>
      FirstOnline(products, base, quote, i) && FirstWith(Online(products), base, quote).value == products[i]
    ensures FirstWith(Online(products), base, quote).None? ==>
      forall j :: !OnlineWith(products, base, quote, j)
  {
    i := 0;
    if products != [] {
      var n := |products| - 1;
      var front, last := products[..n], products[n];
      i := FirstWithOnline(front, base, quote);
      FirstWithSnoc(Online(front), last, base, quote);
      assert forall j :: 0 <= j < n ==> (OnlineWith(products, base, quote, j) <==> OnlineWith(front, base, quote, j));
      if FirstWith(Online(front), base, quote).None? {
        i := n;
      }
    }
  }

  // What the script writes, whatever the visiting order was: an ordered list
  // with one pair per base coin that has an online USDC or USDT pair.
  ghost predicate IsListing(products: seq<Product>, out: seq<OutputPair>) {
    && Ordered(out)
    && (forall i :: 0 <= i < |out| ==> QuotedFrom(products, out[i]) && TermsFrom(products, out[i]))
    && (forall b :: HasBase(out, b) <==> Listable(products, b, "USDC") || Listable(products, b, "USDT"))
  }

  method FilterOnline(products: seq<Product>) returns (online: seq<Product>)
    ensures online == Online(products)
  {
    online := [];
    for i := 0 to |products|
      invariant online == Online(products[..i])
    {
      assert products[..i + 1][..i] == products[..i];
      if products[i].status == "online" {
        online := online + [products[i]];
      }
    }
    assert products[..|products|] == products;
  }

  method ListPairs(products: seq<Product>, visit: seq<string>) returns (out: seq<OutputPair>)
    requires VisitsBases(Online(products), visit)
    ensures out == Listing(products, visit)
    ensures IsListing(products, out)
  {
    var online := FilterOnline(products);
    var selected := SelectPairs(online, visit);
    ListingShape(products, visit);
    out := NumberAll(SortByBase(selected));
  }

  function Listing(products: seq<Product>, visit: seq<string>): seq<OutputPair>
    requires forall i :: 0 <= i < |visit| ==> Choice(Online(products), visit[i]).Some?
  {
    NumberAll(SortByBase(Chosen(Online(products), visit)))
  }

  // Sorting the chosen products is choosing for the sorted bases.
  lemma SortedChosen(products: seq<Product>, visit: seq<string>)
    requires VisitsBases(products, visit)
    ensures Ascending(Sort(visit, LexLess), LexLess)
    ensures forall b :: b in Sort(visit, LexLess) <==> b in visit
    ensures forall i :: 0 <= i < |Sort(visit, LexLess)| ==> Choice(products, Sort(visit, LexLess)[i]).Some?
    ensures SortByBase(Chosen(products, visit)) == Chosen(products, Sort(visit, LexLess))
  {
    LexIsStrictOrder();
    SortSorts(visit, LexLess);
    var chosen := Chosen(products, visit);
    forall i | 0 <= i < |visit|
      ensures chosen[i].base == visit[i]
    {
      ChoiceBase(products, visit[i]);
    }
    assert BasesOf(chosen) == visit;
    SortByBaseBases(chosen);
    var sorted, bases := SortByBase(chosen), Sort(visit, LexLess);
    forall i | 0 <= i < |bases|
      ensures Choice(products, bases[i]).Some? && sorted[i] == Choice(products, bases[i]).value
    {
      assert bases[i] in bases && sorted[i] in sorted;
      var k :| 0 <= k < |chosen| && chosen[k] == sorted[i];
      assert BasesOf(sorted)[i] == bases[i];
    }
  }

  lemma ChoiceBase(products: seq<Product>, base: string)
    requires Choice(products, base).Some?
    ensures Choice(products, base).value.base == base
  {
    FirstWithFound(products, base, "USDC");
    FirstWithFound(products, base, "USDT");
  }

  lemma {:induction false} OnlineMembers(products: seq<Product>, p: Product)
    ensures p in Online(products) <==> p in products && p.status == "online"
  {
    if products != [] {
      var front, last := products[..|products| - 1], products[|products| - 1];
      OnlineMembers(front, p);
      assert products == front + [last];
    }
  }

  lemma OnlineFirst(products: seq<Product>, base: string, quote: string)
    ensures FirstWith(Online(products), base, quote).Some? <==> Listable(products, base, quote)
  {
    var online := Online(products);
    FirstWithFound(online, base, quote);
    if i :| 0 <= i < |online| && online[i].base == base && online[i].quote == quote {
      OnlineMembers(products, online[i]);
      var j :| 0 <= j < |products| && products[j] == online[i];
      assert products[j].status == "online";
    }
    if Listable(products, base, quote) {
      var i :| 0 <= i < |products| && products[i].status == "online"
        && products[i].base == base && products[i].quote == quote;
      OnlineMembers(products, products[i]);
      var j :| 0 <= j < |online| && online[j] == products[i];
      assert online[j].base == base;
    }
  }

  lemma ChoiceQuote(products: seq<Product>, base: string)
    ensures Choice(Online(products), base).Some? <==>
      Listable(products, base, "USDC") || Listable(products, base, "USDT")
    ensures Choice(Online(products), base).Some? ==>
      Choice(Online(products), base).value.quote == if Listable(products, base, "USDC") then "USDC" else "USDT"
  {
    OnlineFirst(products, base, "USDC");
    OnlineFirst(products, base, "USDT");
    FirstWithFound(Online(products), base, "USDC");
    FirstWithFound(Online(products), base, "USDT");
  }

  lemma ChoiceTerms(products: seq<Product>, base: string, position: nat)
    requires Choice(Online(products), base).Some?
    ensures TermsFrom(products, Numbered(Choice(Online(products), base).value, position))
  {
    var p := Choice(Online(products), base).value;
    FirstWithFound(Online(products), base, "USDC");
    FirstWithFound(Online(products), base, "USDT");
    var i := FirstWithOnline(products, p.base, p.quote);
    ScaleMeaning(p.pricePrecision, 2);
    ScaleMeaning(p.quantityPrecision, 4);
  }

  lemma ListingShape(products: seq<Product>, visit: seq<string>)
    requires VisitsBases(Online(products), visit)
    ensures IsListing(products, Listing(products, visit))
  {
    var online, bases := Online(products), Sort(visit, LexLess);
    var out := Listing(products, visit);
    SortedChosen(online, visit);
    forall i | 0 <= i < |out|
      ensures out[i].base == bases[i] && QuotedFrom(products, out[i]) && TermsFrom(products, out[i])
    {
      ChoiceBase(online, bases[i]);
      ChoiceQuote(products, bases[i]);
      ChoiceTerms(products, bases[i], i);
    }
    forall b
      ensures HasBase(out, b) <==> Listable(products, b, "USDC") || Listable(products, b, "USDT")
    {
      ChoiceQuote(products, b);
      HasBaseMeans(out, bases, b);
    }
  }

  lemma HasBaseMeans(out: seq<OutputPair>, bases: seq<string>, b: string)
    requires |out| == |bases| && forall i :: 0 <= i < |out| ==> out[i].base == bases[i]
    ensures HasBase(out, b) <==> b in bases
  {
    if b in bases {
      var i :| 0 <= i < |bases| && bases[i] == b;
      assert out[i].base == b;
    }
  }

  // The written list does not depend on the hash map's order.
  lemma ListingOrderIndependent(products: seq<Product>, v: seq<string>, w: seq<string>)
    requires VisitsBases(Online(products), v) && VisitsBases(Online(products), w)
    ensures Listing(products, v) == Listing(products, w)
  {
    LexIsStrictOrder();
    SortedChosen(Online(products), v);
    SortedChosen(Online(products), w);
    AscendingUnique(Sort(v, LexLess), Sort(w, LexLess), LexLess);
  }

  // Ids increase exactly while the list is shorter than 2^32.
  lemma IdsIncrease(out: seq<OutputPair>)
    requires Ordered(out)
    ensures (forall i, j :: 0 <= i < j < |out| ==> out[i].id < out[j].id) <==> |out| < TWO_32
  {
    if TWO_32 <= |out| {
      assert out[0].id == 1 && out[TWO_32 - 1].id == 0;
    }
  }

  // ---- Changes ----

  datatype Change = NewFile | Added(symbol: string, id: nat) | Removed(symbol: string, id: nat)
    | QuoteChanged(before: string, after: string, base: string)

  // Later entries with the same base replace earlier ones.
  function ByBase(pairs: seq<OutputPair>): map<string, OutputPair> {
    if pairs == [] then map[]
    else ByBase(pairs[..|pairs| - 1])[pairs[|pairs| - 1].base := pairs[|pairs| - 1]]
  }

  lemma {:induction false} ByBaseIsLast(pairs: seq<OutputPair>, b: string)
    ensures b in ByBase(pairs) <==> exists i :: 0 <= i < |pairs| && pairs[i].base == b
    ensures b in ByBase(pairs) ==>
      exists i :: 0 <= i < |pairs| && pairs[i].base == b && ByBase(pairs)[b] == pairs[i]
        && forall j :: i < j < |pairs| ==> pairs[j].base != b
  {
    if pairs != [] {
      var n := |pairs| - 1;
      ByBaseIsLast(pairs[..n], b);
      assert forall i :: 0 <= i < n ==> pairs[..n][i] == pairs[i];
      if pairs[n].base != b && b in ByBase(pairs) {
        var i :| 0 <= i < n && pairs[..n][i].base == b && ByBase(pairs[..n])[b] == pairs[..n][i]
          && forall j :: i < j < n ==> pairs[..n][j].base != b;
        assert pairs[i].base == b && forall j :: i < j < |pairs| ==> pairs[j].base != b;
      }
    }
  }

  method IndexByBase(pairs: seq<OutputPair>) returns (m: map<string, OutputPair>)
    ensures m == ByBase(pairs)
  {
    m := map[];
    for i := 0 to |pairs|
      invariant m == ByBase(pairs[..i])
    {
      assert pairs[..i + 1][..i] == pairs[..i];
      m := m[pairs[i].base := pairs[i]];
    }
    assert pairs[..|pairs|] == pairs;
  }

  ghost predicate NoDifference(existing: map<string, OutputPair>, current: map<string, OutputPair>) {
    && existing.Keys == current.Keys
    && forall b :: b in existing && b in current ==> existing[b].quote == current[b].quote
  }

  // The reports on a list of bases, in that order.
  function AddedReports(current: map<string, OutputPair>, bases: seq<string>): (c: seq<Change>)
    requires forall i :: 0 <= i < |bases| ==> bases[i] in current
    ensures |c| == |bases|
  {
    seq(|bases|, i requires 0 <= i < |bases| => Added(current[bases[i]].symbol, current[bases[i]].id))
  }

  function RemovedReports(existing: map<string, OutputPair>, bases: seq<string>): (c: seq<Change>)
    requires forall i :: 0 <= i < |bases| ==> bases[i] in existing
    ensures |c| == |bases|
  {
    seq(|bases|, i requires 0 <= i < |bases| => Removed(existing[bases[i]].symbol, existing[bases[i]].id))
  }

  function QuoteReports(existing: map<string, OutputPair>, current: map<string, OutputPair>, bases: seq<string>)
    : (c: seq<Change>)
    requires forall i :: 0 <= i < |bases| ==> bases[i] in existing && bases[i] in current
    ensures |c| == |bases|
  {
    seq(|bases|, i requires 0 <= i < |bases| =>
      QuoteChanged(existing[bases[i]].quote, current[bases[i]].quote, bases[i]))
  }

  // The bases are those only in `here`, among the ones done, each once.
  ghost predicate OnlyHere(
    here: map<string, OutputPair>, there: map<string, OutputPair>, done: set<string>, bases: seq<string>)
  {
    && NoDuplicates(bases)
    && (forall b :: b in bases <==> b in done && b in here && b !in there)
    && (forall i :: 0 <= i < |bases| ==> bases[i] in here)
  }

  ghost predicate Requoted(
    existing: map<string, OutputPair>, current: map<string, OutputPair>, done: set<string>, bases: seq<string>)
  {
    && NoDuplicates(bases)
    && (forall b :: b in bases <==> b in done && b in existing && b in current && existing[b].quote != current[b].quote)
    && (forall i :: 0 <= i < |bases| ==> bases[i] in existing && bases[i] in current)
  }

  // New bases, then vanished ones, then changed quotes, each reported once;
  // the maps are walked in no particular order.
  method CheckForChanges(existing: Option<seq<OutputPair>>, newPairs: seq<OutputPair>)
    returns (changes: seq<Change>, ghost added: seq<string>, ghost removed: seq<string>, ghost requoted: seq<string>)
    ensures existing.None? ==> changes == [NewFile]
    ensures existing.Some? ==>
      var before, after := ByBase(existing.value), ByBase(newPairs);
      && OnlyHere(after, before, after.Keys, added)
      && OnlyHere(before, after, before.Keys, removed)
      && Requoted(before, after, after.Keys, requoted)
      && changes == AddedReports(after, added) + RemovedReports(before, removed) + QuoteReports(before, after, requoted)
      && ReportsTell(before, after, changes)
  {
    added, removed, requoted := [], [], [];
    if existing.None? {
      changes := [NewFile];
      return;
    }
    var oldMap := IndexByBase(existing.value);
    var newMap := IndexByBase(newPairs);
    var additions, removals, quotes;
    additions, added := Additions(oldMap, newMap);
    removals, removed := Removals(oldMap, newMap);
    quotes, requoted := QuoteChanges(oldMap, newMap);
    changes := additions + removals + quotes;
    AllReportsTell(oldMap, newMap, added, removed, requoted);
  }

  method Additions(oldMap: map<string, OutputPair>, newMap: map<string, OutputPair>)
    returns (changes: seq<Change>, ghost bases: seq<string>)
    ensures OnlyHere(newMap, oldMap, newMap.Keys, bases)
    ensures changes == AddedReports(newMap, bases)
  {
    changes, bases := [], [];
    var left := newMap.Keys;
    while left != {}
      invariant left <= newMap.Keys
      invariant OnlyHere(newMap, oldMap, newMap.Keys - left, bases)
      invariant changes == AddedReports(newMap, bases)
      decreases left
    {
      var b :| b in left;
      if b !in oldMap {
        changes := changes + [Added(newMap[b].symbol, newMap[b].id)];
        bases := bases + [b];
      }
      left := left - {b};
    }
    assert newMap.Keys - left == newMap.Keys;
  }

  method Removals(oldMap: map<string, OutputPair>, newMap: map<string, OutputPair>)
    returns (changes: seq<Change>, ghost bases: seq<string>)
    ensures OnlyHere(oldMap, newMap, oldMap.Keys, bases)
    ensures changes == RemovedReports(oldMap, bases)
  {
    changes, bases := [], [];
    var left := oldMap.Keys;
    while left != {}
      invariant left <= oldMap.Keys
      invariant OnlyHere(oldMap, newMap, oldMap.Keys - left, bases)
      invariant changes == RemovedReports(oldMap, bases)
      decreases left
    {
      var b :| b in left;
      if b !in newMap {
        changes := changes + [Removed(oldMap[b].symbol, oldMap[b].id)];
        bases := bases + [b];
      }
      left := left - {b};
    }
    assert oldMap.Keys - left == oldMap.Keys;
  }

  method QuoteChanges(oldMap: map<string, OutputPair>, newMap: map<string, OutputPair>)
    returns (changes: seq<Change>, ghost bases: seq<string>)
    ensures Requoted(oldMap, newMap, newMap.Keys, bases)
    ensures changes == QuoteReports(oldMap, newMap, bases)
  {
    changes, bases := [], [];
    var left := newMap.Keys;
    while left != {}
      invariant left <= newMap.Keys
      invariant Requoted(oldMap, newMap, newMap.Keys - left, bases)
      invariant changes == QuoteReports(oldMap, newMap, bases)
      decreases left
    {
      var b :| b in left;
      if b in oldMap && oldMap[b].quote != newMap[b].quote {
        changes := changes + [QuoteChanged(oldMap[b].quote, newMap[b].quote, b)];
        bases := bases + [b];
      }
      left := left - {b};
    }
    assert newMap.Keys - left == newMap.Keys;
  }

  // What the reports say: a base coin that is new or gone with its symbol and
  // number, a quote that changed with the old one first.
  ghost predicate Tells(before: map<string, OutputPair>, after: map<string, OutputPair>, c: Change) {
    match c
    case NewFile => false
    case Added(symbol, id) => OnlyIn(after, before, symbol, id)
    case Removed(symbol, id) => OnlyIn(before, after, symbol, id)
    case QuoteChanged(earlier, later, base) =>
      && base in before && base in after
      && before[base].quote == earlier && after[base].quote == later && earlier != later
  }

  ghost predicate ReportsTell(
    before: map<string, OutputPair>, after: map<string, OutputPair>, changes: seq<Change>)
  {
    forall c :: c in changes <==> Tells(before, after, c)
  }

  ghost predicate OnlyIn(here: map<string, OutputPair>, there: map<string, OutputPair>, symbol: string, id: nat) {
    exists b :: b in here && b !in there && here[b].symbol == symbol && here[b].id == id
  }

  lemma AddedTell(before: map<string, OutputPair>, after: map<string, OutputPair>, bases: seq<string>, c: Change)
    requires OnlyHere(after, before, after.Keys, bases)
    ensures c in AddedReports(after, bases) <==> c.Added? && Tells(before, after, c)
  {
    if c.Added? && Tells(before, after, c) {
      var b :| b in after && b !in before && after[b].symbol == c.symbol && after[b].id == c.id;
      var i :| 0 <= i < |bases| && bases[i] == b;
      assert AddedReports(after, bases)[i] == c;
    }
  }

  lemma RemovedTell(before: map<string, OutputPair>, after: map<string, OutputPair>, bases: seq<string>, c: Change)
    requires OnlyHere(before, after, before.Keys, bases)
    ensures c in RemovedReports(before, bases) <==> c.Removed? && Tells(before, after, c)
  {
    if c.Removed? && Tells(before, after, c) {
      var b :| b in before && b !in after && before[b].symbol == c.symbol && before[b].id == c.id;
      var i :| 0 <= i < |bases| && bases[i] == b;
      assert RemovedReports(before, bases)[i] == c;
    }
  }

  lemma QuotesTell(before: map<string, OutputPair>, after: map<string, OutputPair>, bases: seq<string>, c: Change)
    requires Requoted(before, after, after.Keys, bases)
    ensures c in QuoteReports(before, after, bases) <==> c.QuoteChanged? && Tells(before, after, c)
  {
    if c.QuoteChanged? && Tells(before, after, c) {
      var i :| 0 <= i < |bases| && bases[i] == c.base;
      assert QuoteReports(before, after, bases)[i] == c;
    }
  }

  lemma AllReportsTell(
    before: map<string, OutputPair>, after: map<string, OutputPair>,
    added: seq<string>, removed: seq<string>, requoted: seq<string>)
    requires OnlyHere(after, before, after.Keys, added) && OnlyHere(before, after, before.Keys, removed)
    requires Requoted(before, after, after.Keys, requoted)
    ensures ReportsTell(before, after,
      AddedReports(after, added) + RemovedReports(before, removed) + QuoteReports(before, after, requoted))
  {
    var changes := AddedReports(after, added) + RemovedReports(before, removed) + QuoteReports(before, after, requoted);
    forall c: Change
      ensures c in changes <==> Tells(before, after, c)
    {
      AddedTell(before, after, added, c);
      RemovedTell(before, after, removed, c);
      QuotesTell(before, after, requoted, c);
    }
  }

  // Nothing is reported exactly when the lists agree on bases and quotes.
  lemma NothingReported(
    before: map<string, OutputPair>, after: map<string, OutputPair>,
    added: seq<string>, removed: seq<string>, requoted: seq<string>)
    requires OnlyHere(after, before, after.Keys, added) && OnlyHere(before, after, before.Keys, removed)
    requires Requoted(before, after, after.Keys, requoted)
    ensures NoDifference(before, after) <==> added == [] && removed == [] && requoted == []
  {
    assert added != [] ==> added[0] in added;
    assert removed != [] ==> removed[0] in removed;
    assert requoted != [] ==> requoted[0] in requoted;
  }

  // What a pair is known by on chain.
  function Identity(p: OutputPair): (nat, string, string, string) {
    (p.id, p.symbol, p.base, p.quote)
  }

  function Identities(pairs: seq<OutputPair>): (r: seq<(nat, string, string, string)>)
    ensures |r| == |pairs|
  {
    seq(|pairs|, i requires 0 <= i < |pairs| => Identity(pairs[i]))
  }

  lemma {:induction false} ByBaseOfListing(pairs: seq<OutputPair>)
    requires forall i, j :: 0 <= i < j < |pairs| ==> pairs[i].base != pairs[j].base
    ensures forall b :: b in ByBase(pairs) <==> HasBase(pairs, b)
    ensures forall i :: 0 <= i < |pairs| ==> pairs[i].base in ByBase(pairs) && ByBase(pairs)[pairs[i].base] == pairs[i]
  {
    if pairs != [] {
      var front, last := pairs[..|pairs| - 1], pairs[|pairs| - 1];
      ByBaseOfListing(front);
      forall b
        ensures HasBase(pairs, b) <==> HasBase(front, b) || b == last.base
      {
        if HasBase(front, b) {
          var i :| 0 <= i < |front| && front[i].base == b;
          assert pairs[i].base == b;
        }
      }
      forall i | 0 <= i < |pairs|
        ensures pairs[i].base in ByBase(pairs) && ByBase(pairs)[pairs[i].base] == pairs[i]
      {
        if i < |front| {
          assert front[i] == pairs[i];
        }
      }
    }
  }

  function OutputBases(pairs: seq<OutputPair>): (b: seq<string>)
    ensures |b| == |pairs| && forall i :: 0 <= i < |b| ==> b[i] == pairs[i].base
  {
    MapSeq((p: OutputPair) => p.base, pairs)
  }

  lemma OrderedBasesDistinct(out: seq<OutputPair>)
    requires Ordered(out)
    ensures forall i, j :: 0 <= i < j < |out| ==> out[i].base != out[j].base
  {
    LexIsStrictOrder();
  }

  // Between two lists this script wrote, no reported change means the same
  // ids, symbols and coins throughout, and the other way round.
  lemma NoChangesMeansSameIdentities(out1: seq<OutputPair>, out2: seq<OutputPair>)
    requires Ordered(out1) && Ordered(out2)
    ensures NoDifference(ByBase(out1), ByBase(out2)) <==> Identities(out1) == Identities(out2)
  {
    OrderedBasesDistinct(out1);
    OrderedBasesDistinct(out2);
    ByBaseOfListing(out1);
    ByBaseOfListing(out2);
    if NoDifference(ByBase(out1), ByBase(out2)) {
      assert forall b :: b in ByBase(out1) <==> b in ByBase(out2);
      SameBases(out1, out2);
      forall i | 0 <= i < |out1|
        ensures Identity(out1[i]) == Identity(out2[i])
      {
        assert OutputBases(out1)[i] == OutputBases(out2)[i];
      }
    }
    if Identities(out1) == Identities(out2) {
      SameIdentitiesNoDifference(out1, out2);
    }
  }

  lemma SameBases(out1: seq<OutputPair>, out2: seq<OutputPair>)
    requires Ordered(out1) && Ordered(out2)
    requires forall b :: HasBase(out1, b) <==> HasBase(out2, b)
    ensures OutputBases(out1) == OutputBases(out2)
  {
    LexIsStrictOrder();
    forall b
      ensures b in OutputBases(out1) <==> b in OutputBases(out2)
    {
      HasBaseMeans(out1, OutputBases(out1), b);
      HasBaseMeans(out2, OutputBases(out2), b);
    }
    AscendingUnique(OutputBases(out1), OutputBases(out2), LexLess);
  }

  lemma {:induction false} SameIdentitiesNoDifference(out1: seq<OutputPair>, out2: seq<OutputPair>)
    requires Identities(out1) == Identities(out2)
    ensures NoDifference(ByBase(out1), ByBase(out2))
    decreases |out1|
  {
    assert |out1| == |Identities(out1)| == |out2|;
    if out1 != [] {
      var n := |out1| - 1;
      assert Identities(out1)[n] == Identities(out2)[n];
      assert Identities(out1[..n]) == Identities(out1)[..n];
      assert Identities(out2[..n]) == Identities(out2)[..n];
      SameIdentitiesNoDifference(out1[..n], out2[..n]);
    }
  }

  // The rest of a pair is not compared: with nothing reported the file is up
  // to date, as the script then says, exactly when the minimum and both scales
  // agree throughout as well.
  predicate SameTerms(p: OutputPair, q: OutputPair) {
    p.minTrade == q.minTrade && p.priceScale == q.priceScale && p.quantityScale == q.quantityScale
  }

  lemma UpToDateIff(out1: seq<OutputPair>, out2: seq<OutputPair>)
    requires Ordered(out1) && Ordered(out2) && NoDifference(ByBase(out1), ByBase(out2))
    ensures |out1| == |out2|
    ensures out1 == out2 <==> forall i :: 0 <= i < |out1| ==> SameTerms(out1[i], out2[i])
  {
    NoChangesMeansSameIdentities(out1, out2);
    assert |out1| == |Identities(out1)| == |out2|;
    forall i | 0 <= i < |out1|
      ensures Identity(out1[i]) == Identity(out2[i])
    {
      assert Identities(out1)[i] == Identities(out2)[i];
    }
  }

  // A coin pair whose minimum is the given text.
  function BitcoinPair(minTrade: string): Product {
    Product("BTC", "USDC", minTrade, "2", "4", "online")
  }

  lemma BitcoinListing(minTrade: string)
    ensures VisitsBases(Online([BitcoinPair(minTrade)]), ["BTC"])
    ensures Listing([BitcoinPair(minTrade)], ["BTC"]) == [OutputPair(1, "BTC/USDC", "BTC", "USDC", minTrade, 2, 4)]
  {
    var p := BitcoinPair(minTrade);
    var products := [p];
    assert products[..0] == [] && Online(products) == [p];
    forall b
      ensures Choice(products, b).Some? <==> b == "BTC"
    {
      FirstWithFound(products, b, "USDC");
      FirstWithFound(products, b, "USDT");
      assert p in products && products[0] == p;
    }
    assert Chosen(products, ["BTC"]) == [p];
    assert [p][1..] == [] && SortByBase([p]) == [p];
    assert ParseU8("2") == Some(2) && ParseU8("4") == Some(4) by {
      assert "2"[..0] == "" && "4"[..0] == "";
    }
    assert Numbered(p, 0) == OutputPair(1, "BTC/USDC", "BTC", "USDC", minTrade, 2, 4);
  }

  // Two runs of the script between which only the minimum of a pair changed:
  // both list it, nothing is reported, and the file is not up to date.
  method ListChangedMinimum() returns (before: seq<OutputPair>, after: seq<OutputPair>, changes: seq<Change>)
    ensures IsListing([BitcoinPair("0.1")], before) && IsListing([BitcoinPair("0.2")], after)
    ensures changes == [] && before != after
  {
    BitcoinListing("0.1");
    BitcoinListing("0.2");
    before := ListPairs([BitcoinPair("0.1")], ["BTC"]);
    after := ListPairs([BitcoinPair("0.2")], ["BTC"]);
    ghost var added, removed, requoted;
    changes, added, removed, requoted := CheckForChanges(Some(before), after);
    assert before[0].minTrade != after[0].minTrade;
    SameIdentitiesNoDifference(before, after);
    NothingReported(ByBase(before), ByBase(after), added, removed, requoted);
  }
}
