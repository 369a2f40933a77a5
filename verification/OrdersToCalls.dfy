// From the orders handed to a batch to its settlement orders, its vault
// addresses and the calls made for it, over every run
// (bin/keeper/src/accumulator/processable.rs, bin/keeper/src/keeper/keeper.rs).
module OrdersToCalls {
  import opened Prelude
  import opened IndexOrders
  import opened OrderBatching
  import opened AccumulatorRuns
  import opened BatchContents
  import opened Processable
  import opened Settlement
  import CollateralFlow

  // The orders of one side of an index that a batch took.
  ghost function TakenOnSide(given: seq<Given>, id: U128, buys: bool): set<nat> {
    set i | 0 <= i < |given| && given[i].taken && given[i].order.indexId == id
      && given[i].order.action.Deposit? == buys
  }

  // The order's own trader, or the zero address.
  function TraderOf(o: Order): Address {
    if o.trader.Some? then o.trader.value else 0
  }

  predicate SettlesFor(settlement: SettlementOrder, o: Order) {
    settlement.indexId == o.indexId && settlement.trader == TraderOf(o) && settlement.amount == o.action.amount
  }

  // Exactly the wanted positions are listed at the chosen places.
  ghost predicate Chosen(at: seq<nat>, chosen: set<nat>, wanted: set<nat>) {
    && (forall j :: j in chosen ==> j < |at|)
    && (forall i :: i in wanted <==> exists j :: j in chosen && at[j] == i)
  }

  // Positions within the listed positions are positions again.
  lemma ListsWithin(at: seq<nat>, wanted: set<nat>, within: seq<nat>, chosen: set<nat>, both: set<nat>)
    returns (composed: seq<nat>)
    requires Lists(at, wanted) && Lists(within, chosen) && Chosen(at, chosen, both)
    ensures Lists(composed, both) && |composed| == |within|
    ensures forall k :: 0 <= k < |within| ==> within[k] < |at| && composed[k] == at[within[k]]
  {
    composed := seq(|within|, k requires 0 <= k < |within| => at[within[k]]);
    forall i | i in both
      ensures i in composed
    {
      var j :| j in chosen && at[j] == i;
      var k :| 0 <= k < |within| && within[k] == j;
      assert composed[k] == i;
    }
  }

  // The settlement orders of an index and side are those of the orders the
  // batch took for them, one each and in their order, each with its order's own
  // trader and amount and with the vault named last for the index.
  lemma SideFromOrders(batch: Batch, given: seq<Given>, visit: seq<U128>, id: U128, buys: bool) returns (at: seq<nat>)
    requires ContentsOf(batch.indices, given) && ConsistentBatch(batch) && Visits(batch, visit)
    ensures var side := ForIndex(AllSettlements(batch.indices, visit, buys), id);
      && Lists(at, TakenOnSide(given, id, buys)) && |at| == |side|
      && forall k :: 0 <= k < |at| ==>
           at[k] < |given| && SettlesFor(side[k], given[at[k]].order) && VaultNamed(side[k].vault, given, id)
  {
    SplitPerIndex(batch, visit, buys, id);
    if id in batch.indices {
      at := RecordSide(batch.indices[id], given, id, buys);
    } else {
      assert forall i :: i in TakenOnSide(given, id, buys) ==> Concerns(given, i, id);
      at := [];
    }
  }

  lemma RecordSide(t: IndexTotals, given: seq<Given>, id: U128, buys: bool) returns (at: seq<nat>)
    requires RecordOf(t, given, id)
    ensures Lists(at, TakenOnSide(given, id, buys)) && |at| == |SideOf(t, buys)|
    ensures forall k :: 0 <= k < |at| ==>
      && at[k] < |given| && SettlesFor(SideOf(t, buys)[k], given[at[k]].order)
      && VaultNamed(SideOf(t, buys)[k].vault, given, id)
  {
    var listed :| ListedAt(t.orders, given, id, listed);
    var within := SettlementsPick(t, t.orders, buys);
    SidePositions(t.orders, given, id, buys, listed);
    at := ListsWithin(listed, TakenFor(given, id), within, OnSide(t.orders, buys), TakenOnSide(given, id, buys));
    forall k | 0 <= k < |at|
      ensures at[k] < |given| && SettlesFor(SideOf(t, buys)[k], given[at[k]].order)
      ensures SideOf(t, buys)[k].vault == t.vault
    {
      OneSettles(t, given, id, listed, within[k]);
    }
  }

  lemma SidePositions(orders: seq<OrderInfo>, given: seq<Given>, id: U128, buys: bool, listed: seq<nat>)
    requires ListedAt(orders, given, id, listed)
    ensures Chosen(listed, OnSide(orders, buys), TakenOnSide(given, id, buys))
  {
    forall i: nat
      ensures i in TakenOnSide(given, id, buys) <==> exists j :: j in OnSide(orders, buys) && listed[j] == i
    {
      SidePosition(orders, given, id, buys, listed, i);
    }
  }

  lemma OneSettles(t: IndexTotals, given: seq<Given>, id: U128, listed: seq<nat>, j: nat)
    requires t.indexId == id && ListedAt(t.orders, given, id, listed) && j < |listed|
    ensures listed[j] < |given|
    ensures SettlesFor(
      SettlementOrder(t.indexId, t.orders[j].trader, t.orders[j].amount, t.vault), given[listed[j]].order)
  {
    assert CarriedAs(t.orders[j], given[listed[j]].order);
    assert listed[j] in TakenFor(given, id);
  }

  lemma SidePosition(orders: seq<OrderInfo>, given: seq<Given>, id: U128, buys: bool, listed: seq<nat>, i: nat)
    requires ListedAt(orders, given, id, listed)
    ensures i in TakenOnSide(given, id, buys) <==> exists j :: j in OnSide(orders, buys) && listed[j] == i
  {
    if i in TakenOnSide(given, id, buys) {
      assert i in TakenFor(given, id);
      var j :| 0 <= j < |listed| && listed[j] == i;
      assert CarriedAs(orders[j], given[listed[j]].order) && j in OnSide(orders, buys);
    }
    if j :| j in OnSide(orders, buys) && listed[j] == i {
      assert CarriedAs(orders[j], given[listed[j]].order) && listed[j] in TakenFor(given, id);
    }
  }

  // The vault addresses passed on are those of the indices some order names one
  // for, each the last one named.
  lemma VaultsNamed(batch: Batch, given: seq<Given>, visit: seq<U128>, vaults: map<U128, Address>, id: U128)
    requires ContentsOf(batch.indices, given) && Visits(batch, visit) && VaultsOf(batch.indices, visit, vaults)
    ensures id in vaults <==> exists i :: Concerns(given, i, id) && given[i].order.vault.Some?
    ensures id in vaults ==> VaultNamed(Some(vaults[id]), given, id)
  {
    if id in batch.indices {
      assert RecordOf(batch.indices[id], given, id);
    } else {
      assert !Mentioned(given, id);
    }
  }

  // The main result, over every run: for each index and side the calls planned
  // for a flushed batch are exactly those for the orders it took, one each and
  // in their order, with the order's own trader, or the zero address, and the
  // default size.
  lemma OrdersReachTheirCalls(
    cfg: CollateralFlow.Config, windowMs: nat, now: int, steps: seq<Step>, s: State, i: nat, visit: seq<U128>,
    id: U128, buys: bool)
    returns (at: seq<nat>)
    requires Run(Initial(windowMs, now), steps, s) && i < |s.flushed| && Visits(s.flushed[i].batch, visit)
    ensures i < |FromStart(windowMs, now, steps, s).past|
    ensures var given := FromStart(windowMs, now, steps, s).past[i];
      var calls := CollateralFlow.CallsOn(CollateralFlow.PlanFor(cfg, s.flushed[i].batch, visit), id, buys);
      && Lists(at, TakenOnSide(given, id, buys)) && |at| == |calls|
      && forall k :: 0 <= k < |at| ==>
           && at[k] < |given|
           && var trader := TraderOf(given[at[k]].order);
              calls[k] == if buys then ProcessBuy(id, trader, cfg.fallback) else ProcessSell(id, trader, cfg.fallback)
  {
    InitialInvariant(windowMs, now);
    RunInvariant(Initial(windowMs, now), steps, s);
    BatchesHoldTheirOrders(windowMs, now, steps, s);
    var given := FromStart(windowMs, now, steps, s).past[i];
    at := SideFromOrders(s.flushed[i].batch, given, visit, id, buys);
    CollateralFlow.EachOrderHasItsCall(s.flushed[i].batch, visit, cfg.fallback, id, buys);
    assert forall k :: 0 <= k < |at| ==> at[k] in TakenOnSide(given, id, buys);
  }
}
