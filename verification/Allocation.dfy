// Spreading an index's net collateral over its basket
// (bin/keeper/src/processor/processor.rs, types.rs).
module Allocation {
  import opened Prelude
  import opened Arithmetic
  import opened FixedPoint
  import opened IndexOrders

  // Weights are natural numbers; only their ratios matter.
  datatype AssetWeight = AssetWeight(assetId: U128, weight: nat)

  datatype AssetAllocation = AssetAllocation(assetId: U128, quantity: Amount, target: Amount)

  datatype BuyOrder = BuyOrder(
    indexId: U128, added: Amount, removed: Amount, maxOrderSize: Amount, allocations: seq<AssetAllocation>)

  // NoOrder is the quiet outcome; DivisionPanic is a zero price.
  datatype Outcome =
    | IndexNotFound
    | NoOrder
    | MissingMarketData(assetId: U128)
    | TargetOverflow
    | QuantityOverflow
    | DivisionPanic
    | SizeOverflow
    | Ordered(order: BuyOrder)

  function TotalWeight(weights: seq<AssetWeight>): nat {
    if weights == [] then 0 else TotalWeight(weights[..|weights| - 1]) + weights[|weights| - 1].weight
  }

  // The 18-decimal share of one weight, rounded down; with no weight at all
  // the quotient is not a number, which casts to zero.
  function Share(weight: nat, total: nat): nat {
    if total == 0 then 0 else weight * SCALE / total
  }

  lemma ShareAtMostOne(weight: nat, total: nat)
    requires weight <= total
    ensures Share(weight, total) <= SCALE
  {
    if total > 0 {
      MulMono(weight, total, SCALE);
      DivMonotone(weight * SCALE, total * SCALE, total);
      DivMulCancel(SCALE, total);
    }
  }

  function Target(net: Amount, weight: nat, total: nat): nat {
    net.raw * Share(weight, total) / SCALE
  }

  // One asset of the basket, or how it fails.
  function AllocateOne(net: Amount, w: AssetWeight, total: nat, prices: map<U128, Amount>)
    : Result<AssetAllocation, Outcome>
    requires w.weight <= total
  {
    ShareAtMostOne(w.weight, total);
    if w.assetId !in prices then Err(MissingMarketData(w.assetId))
    else
      match CheckedMul(net, Amount(Share(w.weight, total)))
      case None => Err(TargetOverflow)
      case Some(target) =>
        if prices[w.assetId].raw == 0 then Err(DivisionPanic)
        else
          match CheckedDiv(target, prices[w.assetId])
          case None => Err(QuantityOverflow)
          case Some(quantity) => Ok(AssetAllocation(w.assetId, quantity, target))
  }

  predicate WeightsWithin(weights: seq<AssetWeight>, total: nat) {
    forall i :: 0 <= i < |weights| ==> weights[i].weight <= total
  }

  // The basket, or the first failure.
  function AllocateAll(net: Amount, weights: seq<AssetWeight>, total: nat, prices: map<U128, Amount>)
    : Result<seq<AssetAllocation>, Outcome>
    requires WeightsWithin(weights, total)
  {
    if weights == [] then Ok([])
    else
      match AllocateAll(net, weights[..|weights| - 1], total, prices)
      case Err(e) => Err(e)
      case Ok(before) =>
        match AllocateOne(net, weights[|weights| - 1], total, prices)
        case Err(e) => Err(e)
        case Ok(a) => Ok(before + [a])
  }

  predicate HasAllAssets(prices: map<U128, Amount>, weights: seq<AssetWeight>) {
    forall i :: 0 <= i < |weights| ==> weights[i].assetId in prices
  }

  lemma {:induction false} WeightsWithinTotal(weights: seq<AssetWeight>)
    ensures WeightsWithin(weights, TotalWeight(weights))
  {
    if weights != [] {
      WeightsWithinTotal(weights[..|weights| - 1]);
    }
  }

  // Processing one index on values.
  function Processed(
    t: IndexTotals, config: Option<seq<AssetWeight>>, prices: map<U128, Amount>, multiplier: Amount): Outcome
  {
    if config.None? then IndexNotFound
    else if !HasAllAssets(prices, config.value) || t.net.raw == 0 then NoOrder
    else
      WeightsWithinTotal(config.value);
      match AllocateAll(t.net, config.value, TotalWeight(config.value), prices)
      case Err(e) => e
      case Ok(allocations) =>
        match CheckedMul(t.net, multiplier)
        case None => SizeOverflow
        case Some(size) => Ordered(BuyOrder(t.indexId, t.deposits, t.withdrawals, size, allocations))
  }

  method ProcessIndex(
    t: IndexTotals, config: Option<seq<AssetWeight>>, prices: map<U128, Amount>, multiplier: Amount)
    returns (outcome: Outcome)
    ensures outcome == Processed(t, config, prices, multiplier)
  {
    if config.None? {
      return IndexNotFound;
    }
    var weights := config.value;
    if !HasAllAssets(prices, weights) || t.net.raw == 0 {
      return NoOrder;
    }
    var total := SumWeights(weights);
    WeightsWithinTotal(weights);
    var allocations: seq<AssetAllocation> := [];
    for i := 0 to |weights|
      invariant AllocateAll(t.net, weights[..i], total, prices) == Ok(allocations)
    {
      assert weights[..i + 1][..i] == weights[..i];
      var a := AllocateOne(t.net, weights[i], total, prices);
      if a.Err? {
        FirstFailure(t.net, weights, i + 1, total, prices);
        return a.error;
      }
      allocations := allocations + [a.value];
    }
    assert weights[..|weights|] == weights;
    var size := CheckedMul(t.net, multiplier);
    if size.None? {
      return SizeOverflow;
    }
    return Ordered(BuyOrder(t.indexId, t.deposits, t.withdrawals, size.value, allocations));
  }

  lemma {:induction false} FirstFailure(
    net: Amount, weights: seq<AssetWeight>, k: nat, total: nat, prices: map<U128, Amount>)
    requires WeightsWithin(weights, total) && k <= |weights|
    requires AllocateAll(net, weights[..k], total, prices).Err?
    ensures AllocateAll(net, weights, total, prices) == AllocateAll(net, weights[..k], total, prices)
    decreases |weights|
  {
    if k == |weights| {
      assert weights[..k] == weights;
    } else {
      assert weights[..|weights| - 1][..k] == weights[..k];
      FirstFailure(net, weights[..|weights| - 1], k, total, prices);
    }
  }

  // A target is the exact share of the net, rounded down; it cannot overflow,
  // because a share is at most one.
  lemma TargetFits(net: Amount, weight: nat, total: nat)
    requires weight <= total
    ensures Share(weight, total) < TWO_128
    ensures var target := CheckedMul(net, Amount(Share(weight, total)));
      target.Some? && target.value.raw == Target(net, weight, total) <= net.raw
  {
    ShareAtMostOne(weight, total);
    var share := Share(weight, total);
    MulMono(share, SCALE, net.raw);
    DivMonotone(net.raw * share, net.raw * SCALE, SCALE);
    DivMulCancel(net.raw, SCALE);
    ProductFits(net.raw, share);
  }

  // Both roundings told outright: the largest share, in units of 10^-18, and the
  // largest target that do not exceed the exact ones.
  lemma TargetRounds(net: Amount, weight: nat, total: nat)
    requires 0 < total
    ensures Share(weight, total) * total <= weight * SCALE < (Share(weight, total) + 1) * total
    ensures Target(net, weight, total) * SCALE <= net.raw * Share(weight, total)
      < (Target(net, weight, total) + 1) * SCALE
    ensures Target(net, weight, total) * total <= net.raw * weight
  {
    var share, target := Share(weight, total), Target(net, weight, total);
    DivBounds(weight * SCALE, total);
    DivBounds(net.raw * share, SCALE);
    NeverMore(net.raw, weight, total, share, target);
  }

  lemma NeverMore(net: nat, weight: nat, total: nat, share: nat, target: nat)
    requires share * total <= weight * SCALE && target * SCALE <= net * share
    ensures target * total <= net * weight
  {
    MulMono(target * SCALE, net * share, total);
    MulMono(share * total, weight * SCALE, net);
    MulAssociates(net, share, total);
    MulAssociates(net, weight, SCALE);
    assert target * SCALE * total == target * total * SCALE;
    CancelFactor(target * total, net * weight, SCALE);
  }

  // An allocation as the loop computes it.
  ghost predicate AllocatedAs(net: Amount, w: AssetWeight, total: nat, prices: map<U128, Amount>, a: AssetAllocation) {
    && a.assetId == w.assetId && w.assetId in prices
    && a.target.raw == Target(net, w.weight, total)
    && prices[w.assetId].raw != 0 && CheckedDiv(a.target, prices[w.assetId]) == Some(a.quantity)
  }

  ghost predicate AllAllocated(
    net: Amount, weights: seq<AssetWeight>, total: nat, prices: map<U128, Amount>, allocations: seq<AssetAllocation>)
  {
    && |allocations| == |weights|
    && forall i :: 0 <= i < |allocations| ==> AllocatedAs(net, weights[i], total, prices, allocations[i])
  }

  lemma {:induction false} AllocateAllShape(
    net: Amount, weights: seq<AssetWeight>, total: nat, prices: map<U128, Amount>)
    requires WeightsWithin(weights, total) && AllocateAll(net, weights, total, prices).Ok?
    ensures AllAllocated(net, weights, total, prices, AllocateAll(net, weights, total, prices).value)
  {
    if weights != [] {
      var n := |weights| - 1;
      AllocateAllShape(net, weights[..n], total, prices);
      TargetFits(net, weights[n].weight, total);
    }
  }

  // What goes wrong with one asset: no price to divide by, or a quantity above
  // 128 bits.
  predicate Fails(net: Amount, w: AssetWeight, total: nat, prices: map<U128, Amount>) {
    w.assetId in prices && TWO_128 * prices[w.assetId].raw <= Target(net, w.weight, total) * SCALE
  }

  // The reason given for a failure is that of the first asset that fails.
  ghost predicate FailsFirst(
    net: Amount, weights: seq<AssetWeight>, total: nat, prices: map<U128, Amount>, reason: Outcome)
  {
    exists i ::
      && 0 <= i < |weights| && Fails(net, weights[i], total, prices)
      && (forall j :: 0 <= j < i ==> !Fails(net, weights[j], total, prices))
      && reason == if prices[weights[i].assetId].raw == 0 then DivisionPanic else QuantityOverflow
  }

  lemma OneFails(net: Amount, w: AssetWeight, total: nat, prices: map<U128, Amount>)
    requires w.weight <= total && w.assetId in prices
    ensures var r := AllocateOne(net, w, total, prices);
      && (r.Err? <==> Fails(net, w, total, prices))
      && (r.Err? ==> r.error == if prices[w.assetId].raw == 0 then DivisionPanic else QuantityOverflow)
  {
    TargetFits(net, w.weight, total);
    if prices[w.assetId].raw != 0 {
      DivExact(CheckedMul(net, Amount(Share(w.weight, total))).value, prices[w.assetId]);
    }
  }

  lemma {:induction false} FirstToFail(net: Amount, weights: seq<AssetWeight>, total: nat, prices: map<U128, Amount>)
    requires WeightsWithin(weights, total) && HasAllAssets(prices, weights)
    ensures var r := AllocateAll(net, weights, total, prices);
      && (r.Ok? <==> forall i :: 0 <= i < |weights| ==> !Fails(net, weights[i], total, prices))
      && (r.Err? ==> FailsFirst(net, weights, total, prices, r.error))
  {
    if weights != [] {
      var n := |weights| - 1;
      var front := weights[..n];
      FirstToFail(net, front, total, prices);
      OneFails(net, weights[n], total, prices);
      if AllocateAll(net, front, total, prices).Err? {
        var e := AllocateAll(net, front, total, prices).error;
        var i :| 0 <= i < |front| && Fails(net, front[i], total, prices)
          && (forall j :: 0 <= j < i ==> !Fails(net, front[j], total, prices))
          && e == if prices[front[i].assetId].raw == 0 then DivisionPanic else QuantityOverflow;
        assert weights[i] == front[i] && forall j :: 0 <= j < i ==> weights[j] == front[j];
      } else {
        assert forall j :: 0 <= j < n ==> weights[j] == front[j];
      }
    }
  }

  // Exactly when an index is processed into an order, and which outcome it has
  // otherwise: no known weights, no market data or nothing to spend, the first
  // asset that fails, or an order size above 128 bits.
  lemma OutcomeExact(t: IndexTotals, config: Option<seq<AssetWeight>>, prices: map<U128, Amount>, multiplier: Amount)
    ensures var outcome := Processed(t, config, prices, multiplier);
      if config.None? then outcome == IndexNotFound
      else
        var weights := config.value;
        var total := TotalWeight(weights);
        if t.net.raw == 0 || exists i :: 0 <= i < |weights| && weights[i].assetId !in prices then outcome == NoOrder
        else if exists i :: 0 <= i < |weights| && Fails(t.net, weights[i], total, prices) then
          FailsFirst(t.net, weights, total, prices, outcome)
        else if TWO_128 * SCALE <= t.net.raw * multiplier.raw then outcome == SizeOverflow
        else outcome.Ordered?
  {
    MulExact(t.net, multiplier);
    if config.Some? && HasAllAssets(prices, config.value) {
      WeightsWithinTotal(config.value);
      FirstToFail(t.net, config.value, TotalWeight(config.value), prices);
    }
  }

  // An order is for its own index, carries the gross totals and one allocation
  // per weight, and is sized by the net times the multiplier, rounded down; no
  // target overflow or missing price can be the reason for a failure.
  lemma ProcessedShape(t: IndexTotals, config: Option<seq<AssetWeight>>, prices: map<U128, Amount>, multiplier: Amount)
    ensures var outcome := Processed(t, config, prices, multiplier);
      && !outcome.MissingMarketData? && !outcome.TargetOverflow?
      && (outcome.Ordered? ==>
           && 0 < t.net.raw && config.Some? && outcome.order.indexId == t.indexId
           && outcome.order.added == t.deposits && outcome.order.removed == t.withdrawals
           && SizedBy(t.net, multiplier, outcome.order.maxOrderSize)
           && AllAllocated(t.net, config.value, TotalWeight(config.value), prices, outcome.order.allocations))
  {
    OutcomeExact(t, config, prices, multiplier);
    if Processed(t, config, prices, multiplier).Ordered? {
      WeightsWithinTotal(config.value);
      FirstToFail(t.net, config.value, TotalWeight(config.value), prices);
      OrderSize(t.net, multiplier);
      AllocateAllShape(t.net, config.value, TotalWeight(config.value), prices);
    }
  }

  predicate SizedBy(net: Amount, multiplier: Amount, size: Amount) {
    size.raw * SCALE <= net.raw * multiplier.raw < (size.raw + 1) * SCALE
  }

  lemma OrderSize(net: Amount, multiplier: Amount)
    ensures CheckedMul(net, multiplier).Some? ==> SizedBy(net, multiplier, CheckedMul(net, multiplier).value)
  {
    MulExact(net, multiplier);
  }

  method SumWeights(weights: seq<AssetWeight>) returns (total: nat)
    ensures total == TotalWeight(weights)
  {
    total := 0;
    for i := 0 to |weights|
      invariant total == TotalWeight(weights[..i])
    {
      assert weights[..i + 1][..i] == weights[..i];
      total := total + weights[i].weight;
    }
    assert weights[..|weights|] == weights;
  }

  // ---- The budget ----

  function ShareSum(weights: seq<AssetWeight>, total: nat): nat {
    if weights == [] then 0
    else ShareSum(weights[..|weights| - 1], total) + Share(weights[|weights| - 1].weight, total)
  }

  function TargetSum(net: Amount, weights: seq<AssetWeight>, total: nat): nat {
    if weights == [] then 0
    else TargetSum(net, weights[..|weights| - 1], total) + Target(net, weights[|weights| - 1].weight, total)
  }

  // The shares lose less than one unit each.
  lemma {:induction false} ShareSumBounds(weights: seq<AssetWeight>, total: nat)
    requires 0 < total
    ensures ShareSum(weights, total) * total <= TotalWeight(weights) * SCALE
    ensures TotalWeight(weights) * SCALE <= (ShareSum(weights, total) + |weights|) * total
    ensures weights != [] ==> TotalWeight(weights) * SCALE < (ShareSum(weights, total) + |weights|) * total
  {
    if weights != [] {
      var front, w := weights[..|weights| - 1], weights[|weights| - 1].weight;
      ShareSumBounds(front, total);
      var s, f := ShareSum(front, total), Share(w, total);
      DivBounds(w * SCALE, total);
      assert (s + f) * total == s * total + f * total;
      assert (s + f + |weights|) * total == (s + |front|) * total + (f + 1) * total;
      assert (TotalWeight(front) + w) * SCALE == TotalWeight(front) * SCALE + w * SCALE;
    }
  }

  // So do the targets.
  lemma {:induction false} TargetSumBounds(net: Amount, weights: seq<AssetWeight>, total: nat)
    ensures TargetSum(net, weights, total) * SCALE <= net.raw * ShareSum(weights, total)
    ensures net.raw * ShareSum(weights, total) <= (TargetSum(net, weights, total) + |weights|) * SCALE
    ensures weights != [] ==>
      net.raw * ShareSum(weights, total) < (TargetSum(net, weights, total) + |weights|) * SCALE
  {
    if weights != [] {
      var front, w := weights[..|weights| - 1], weights[|weights| - 1].weight;
      TargetSumBounds(net, front, total);
      OneMoreTarget(net.raw, ShareSum(front, total), TargetSum(net, front, total), |front|, Share(w, total));
    }
  }

  lemma OneMoreTarget(net: nat, shares: nat, sum: nat, n: nat, share: nat)
    requires sum * SCALE <= net * shares <= (sum + n) * SCALE
    ensures (sum + net * share / SCALE) * SCALE <= net * (shares + share) < (sum + net * share / SCALE + n + 1) * SCALE
  {
    var product := net * share;
    DivBounds(product, SCALE);
    assert net * (shares + share) == net * shares + product;
  }

  lemma SharesAtMostWhole(weights: seq<AssetWeight>)
    ensures var total := TotalWeight(weights);
      && ShareSum(weights, total) <= SCALE
      && (0 < total ==> SCALE < ShareSum(weights, total) + |weights|)
  {
    var total := TotalWeight(weights);
    if total == 0 {
      NoShares(weights);
    } else {
      ShareSumBounds(weights, total);
      assert weights != [];
      CancelFactor(ShareSum(weights, total), SCALE, total);
      CancelFactorStrict(SCALE, ShareSum(weights, total) + |weights|, total);
    }
  }

  lemma {:induction false} NoShares(weights: seq<AssetWeight>)
    ensures ShareSum(weights, 0) == 0
  {
    if weights != [] {
      NoShares(weights[..|weights| - 1]);
    }
  }

  lemma CancelFactor(a: nat, b: nat, c: nat)
    requires 0 < c && a * c <= c * b
    ensures a <= b
  {
    DivMulCancel(a, c);
    DivMulCancel(b, c);
    DivMonotone(a * c, b * c, c);
  }

  lemma CancelFactorStrict(a: nat, b: nat, c: nat)
    requires c * a < b * c
    ensures a < b
  {
    if b <= a {
      MulMono(b, a, c);
      assert false;
    }
  }

  lemma NoOvershoot(net: nat, shares: nat, sum: nat)
    requires sum * SCALE <= net * shares && shares <= SCALE
    ensures sum <= net
  {
    MulMono(shares, SCALE, net);
    CancelFactor(sum, net, SCALE);
  }

  lemma ShortfallBound(net: nat, shares: nat, sum: nat, n: nat)
    requires SCALE <= shares + n && net * shares < (sum + n) * SCALE
    ensures net * SCALE - sum * SCALE < n * (net + SCALE)
  {
    MulMono(SCALE, shares + n, net);
    assert net * (shares + n) == net * shares + n * net;
    assert n * (net + SCALE) == n * net + n * SCALE;
    assert (sum + n) * SCALE == sum * SCALE + n * SCALE;
  }

  // The targets never exceed the net collateral, and fall short of it by less
  // than n * (N / SCALE + 1) units.
  lemma TargetsWithinNet(net: Amount, weights: seq<AssetWeight>)
    ensures var sum := TargetSum(net, weights, TotalWeight(weights));
      && sum <= net.raw
      && (0 < TotalWeight(weights) ==> net.raw * SCALE - sum * SCALE < |weights| * (net.raw + SCALE))
  {
    var total := TotalWeight(weights);
    var shares, sum := ShareSum(weights, total), TargetSum(net, weights, total);
    SharesAtMostWhole(weights);
    TargetSumBounds(net, weights, total);
    NoOvershoot(net.raw, shares, sum);
    if 0 < total {
      assert weights != [];
      ShortfallBound(net.raw, shares, sum, |weights|);
    }
  }

  function CostSum(prices: map<U128, Amount>, allocations: seq<AssetAllocation>): nat {
    if allocations == [] then 0
    else
      var a := allocations[|allocations| - 1];
      var cost := if a.assetId in prices then CheckedMul(a.quantity, prices[a.assetId]) else None;
      CostSum(prices, allocations[..|allocations| - 1]) + (if cost.Some? then cost.value.raw else 0)
  }

  lemma {:induction false} CostWithinTargets(
    net: Amount, weights: seq<AssetWeight>, total: nat, prices: map<U128, Amount>, allocations: seq<AssetAllocation>)
    requires AllAllocated(net, weights, total, prices, allocations)
    ensures CostSum(prices, allocations) <= TargetSum(net, weights, total)
    ensures forall i :: 0 <= i < |allocations| ==>
      CheckedMul(allocations[i].quantity, prices[weights[i].assetId]).Some?
    decreases |allocations|
  {
    if allocations != [] {
      var n := |allocations| - 1;
      CostWithinTargets(net, weights[..n], total, prices, allocations[..n]);
      assert AllocatedAs(net, weights[n], total, prices, allocations[n]);
      MulAfterDiv(allocations[n].target, prices[weights[n].assetId]);
    }
  }

  // Buying the whole basket at the quoted prices costs at most the net
  // collateral.
  lemma BasketWithinNet(
    net: Amount, weights: seq<AssetWeight>, prices: map<U128, Amount>, allocations: seq<AssetAllocation>)
    requires AllAllocated(net, weights, TotalWeight(weights), prices, allocations)
    ensures CostSum(prices, allocations) <= TargetSum(net, weights, TotalWeight(weights)) <= net.raw
    ensures forall i :: 0 <= i < |allocations| ==>
      CheckedMul(allocations[i].quantity, prices[weights[i].assetId]).Some?
  {
    CostWithinTargets(net, weights, TotalWeight(weights), prices, allocations);
    TargetsWithinNet(net, weights);
  }

  // ---- The order's own net ----

  function OrderNet(order: BuyOrder): Amount {
    SubOrZero(order.added, order.removed)
  }

  // The basket is sized by the floored net, the order reports the gross one.
  // The two budgets agree exactly when no prefix of the orders went below both
  // zero and the final total.
  lemma BasketAgainstOrderNet(
    t: IndexTotals, weights: seq<AssetWeight>, prices: map<U128, Amount>, multiplier: Amount)
    requires Consistent(t)
    requires Processed(t, Some(weights), prices, multiplier).Ordered?
    ensures var order := Processed(t, Some(weights), prices, multiplier).order;
      && CostSum(prices, order.allocations) <= t.net.raw
      && OrderNet(order).raw <= t.net.raw
      && (t.net == OrderNet(order) <==>
           forall k :: 0 <= k <= |t.orders| ==>
             0 <= SignedTotal(t.orders[..k]) || SignedTotal(t.orders) <= SignedTotal(t.orders[..k]))
  {
    ProcessedShape(t, Some(weights), prices, multiplier);
    BasketWithinNet(t.net, weights, prices, Processed(t, Some(weights), prices, multiplier).order.allocations);
    NetAgainstGross(t);
  }

  // A withdrawal of one unit followed by a deposit of one unit.
  function WithdrawnThenDeposited(indexId: U128, now: int): IndexTotals {
    var t := NewTotals(indexId, now);
    t.(deposits := ONE, withdrawals := ONE, net := ONE, orderCount := 2, depositCount := 1, withdrawalCount := 1,
       orders := [OrderInfo(1, ONE, false), OrderInfo(1, ONE, true)])
  }

  lemma WithdrawnThenDepositedArises(indexId: U128, now: int)
    ensures var first := Order(indexId, Withdraw(ONE), now, None, Some(1));
      var second := Order(indexId, Deposit(ONE), now, None, Some(1));
      var t := AddAction(NewTotals(indexId, now), first, now);
      t.Some? && AddAction(t.value, second, now) == Some(WithdrawnThenDeposited(indexId, now))
  {
    var t := NewTotals(indexId, now);
    var first := Order(indexId, Withdraw(ONE), now, None, Some(1));
    AddExact(ZERO, ONE);
    SubExact(ZERO, ONE);
    var u := t.(withdrawals := ONE, orderCount := 1, withdrawalCount := 1, orders := [OrderInfo(1, ONE, false)]);
    assert t.orders + [Info(first)] == [OrderInfo(1, ONE, false)];
    assert AddAction(t, first, now) == Some(u);
    assert u.orders + [OrderInfo(1, ONE, true)] == [OrderInfo(1, ONE, false), OrderInfo(1, ONE, true)];
  }

  // The order built for it has a net of zero, and a basket for a whole unit.
  lemma OverspentOrder(indexId: U128, now: int)
    ensures var t := WithdrawnThenDeposited(indexId, now);
      var outcome := Processed(t, Some([AssetWeight(1, 1)]), map[1 := ONE], ONE);
      && outcome == Ordered(BuyOrder(indexId, ONE, ONE, ONE, [AssetAllocation(1, ONE, ONE)]))
      && OrderNet(outcome.order) == ZERO
      && CostSum(map[1 := ONE], outcome.order.allocations) == SCALE
  {
    var weights := [AssetWeight(1, 1)];
    var prices: map<U128, Amount> := map[1 := ONE];
    assert weights[..0] == [] && TotalWeight(weights) == 1;
    assert Share(1, 1) == SCALE;
    assert AllocateOne(ONE, weights[0], 1, prices) == Ok(AssetAllocation(1, ONE, ONE));
    WeightsWithinTotal(weights);
    assert AllocateAll(ONE, weights[..0], 1, prices) == Ok([]);
    assert AllocateAll(ONE, weights, 1, prices) == Ok([] + [AssetAllocation(1, ONE, ONE)]);
    var basket := [AssetAllocation(1, ONE, ONE)];
    assert basket[..0] == [] && CostSum(prices, basket) == SCALE;
  }

  // ---- The summary's fold ----

  function NetSum(orders: seq<BuyOrder>): nat {
    if orders == [] then 0 else NetSum(orders[..|orders| - 1]) + OrderNet(orders[|orders| - 1]).raw
  }

  lemma {:induction false} NetSumGrows(orders: seq<BuyOrder>, k: nat)
    requires k <= |orders|
    ensures NetSum(orders[..k]) <= NetSum(orders)
    decreases |orders|
  {
    if k == |orders| {
      assert orders[..k] == orders;
    } else {
      assert orders[..|orders| - 1][..k] == orders[..k];
      NetSumGrows(orders[..|orders| - 1], k);
    }
  }

  // None is the panic of the fold, which happens exactly when the whole sum
  // does not fit.
  method TotalCollateral(orders: seq<BuyOrder>) returns (total: Option<Amount>)
    ensures total == if NetSum(orders) < TWO_128 then Some(Amount(NetSum(orders))) else None
  {
    var acc := ZERO;
    for i := 0 to |orders|
      invariant acc.raw == NetSum(orders[..i])
    {
      assert orders[..i + 1][..i] == orders[..i];
      NetSumGrows(orders, i + 1);
      AddExact(acc, OrderNet(orders[i]));
      var next := CheckedAdd(acc, OrderNet(orders[i]));
      if next.None? {
        return None;
      }
      acc := next.value;
    }
    assert orders[..|orders|] == orders;
    total := Some(acc);
  }
}
