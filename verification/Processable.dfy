// Splitting a flushed batch into buys and sells
// (bin/keeper/src/accumulator/processable.rs).
module Processable {
  import opened Prelude
  import opened FixedPoint
  import opened IndexOrders
  import opened OrderBatching
  import opened Sorting

  datatype OrderEntry = OrderEntry(indexId: U128, total: Amount, count: nat, vault: Option<Address>)

  datatype SettlementOrder = SettlementOrder(indexId: U128, trader: Address, amount: Amount, vault: Option<Address>)

  datatype ProcessableBatch = ProcessableBatch(
    buyOrders: seq<OrderEntry>, sellOrders: seq<OrderEntry>, indexIds: seq<U128>,
    vaults: map<U128, Address>, trigger: FlushTrigger, totalOrders: nat,
    settlementBuys: seq<SettlementOrder>, settlementSells: seq<SettlementOrder>)

  predicate Before(a: U128, b: U128) { a < b }

  // The order in which the hash map hands out its keys: any at all.
  ghost predicate Visits(batch: Batch, visit: seq<U128>) {
    NoDuplicates(visit) && forall k :: k in visit <==> k in batch.indices
  }

  function SettlementFor(t: IndexTotals, info: OrderInfo): SettlementOrder {
    SettlementOrder(t.indexId, info.trader, info.amount, t.vault)
  }

  // The settlement orders of one index and side, in arrival order.
  function Settlements(t: IndexTotals, orders: seq<OrderInfo>, buys: bool): seq<SettlementOrder> {
    if orders == [] then []
    else
      var before := Settlements(t, orders[..|orders| - 1], buys);
      var last := orders[|orders| - 1];
      if last.isBuy == buys then before + [SettlementFor(t, last)] else before
  }

  function SideOf(t: IndexTotals, buys: bool): seq<SettlementOrder> {
    Settlements(t, t.orders, buys)
  }

  function EntryOf(t: IndexTotals, buys: bool): seq<OrderEntry> {
    if buys then
      if 0 < t.deposits.raw then [OrderEntry(t.indexId, t.deposits, t.depositCount, t.vault)] else []
    else
      if 0 < t.withdrawals.raw then [OrderEntry(t.indexId, t.withdrawals, t.withdrawalCount, t.vault)] else []
  }

  // Concatenation over the visited indices.
  function AllSettlements(indices: map<U128, IndexTotals>, visit: seq<U128>, buys: bool): seq<SettlementOrder>
    requires forall k :: k in visit ==> k in indices
  {
    if visit == [] then []
    else
      assert forall k :: k in visit[..|visit| - 1] ==> k in visit;
      AllSettlements(indices, visit[..|visit| - 1], buys) + SideOf(indices[visit[|visit| - 1]], buys)
  }

  function AllEntries(indices: map<U128, IndexTotals>, visit: seq<U128>, buys: bool): seq<OrderEntry>
    requires forall k :: k in visit ==> k in indices
  {
    if visit == [] then []
    else
      assert forall k :: k in visit[..|visit| - 1] ==> k in visit;
      AllEntries(indices, visit[..|visit| - 1], buys) + EntryOf(indices[visit[|visit| - 1]], buys)
  }

  function OrderCounts(indices: map<U128, IndexTotals>, visit: seq<U128>): nat
    requires forall k :: k in visit ==> k in indices
  {
    if visit == [] then 0
    else
      assert forall k :: k in visit[..|visit| - 1] ==> k in visit;
      OrderCounts(indices, visit[..|visit| - 1]) + indices[visit[|visit| - 1]].orderCount
  }

  method SplitIndex(t: IndexTotals, buys0: seq<SettlementOrder>, sells0: seq<SettlementOrder>)
    returns (buys: seq<SettlementOrder>, sells: seq<SettlementOrder>)
    ensures buys == buys0 + SideOf(t, true)
    ensures sells == sells0 + SideOf(t, false)
  {
    buys, sells := buys0, sells0;
    for i := 0 to |t.orders|
      invariant buys == buys0 + Settlements(t, t.orders[..i], true)
      invariant sells == sells0 + Settlements(t, t.orders[..i], false)
    {
      assert t.orders[..i + 1][..i] == t.orders[..i];
      var order := SettlementFor(t, t.orders[i]);
      if t.orders[i].isBuy {
        buys := buys + [order];
      } else {
        sells := sells + [order];
      }
    }
    assert t.orders[..|t.orders|] == t.orders;
  }

  method EnterTotals(t: IndexTotals, buys0: seq<OrderEntry>, sells0: seq<OrderEntry>)
    returns (buys: seq<OrderEntry>, sells: seq<OrderEntry>)
    ensures buys == buys0 + EntryOf(t, true)
    ensures sells == sells0 + EntryOf(t, false)
  {
    buys, sells := buys0, sells0;
    if 0 < t.deposits.raw {
      buys := buys + [OrderEntry(t.indexId, t.deposits, t.depositCount, t.vault)];
    }
    if 0 < t.withdrawals.raw {
      sells := sells + [OrderEntry(t.indexId, t.withdrawals, t.withdrawalCount, t.vault)];
    }
  }

  // The vault of each index among `ids` that has one.
  ghost predicate VaultsOf(indices: map<U128, IndexTotals>, ids: seq<U128>, vaults: map<U128, Address>) {
    && (forall k :: k in vaults <==> k in ids && k in indices && indices[k].vault.Some?)
    && (forall k :: k in vaults && k in indices ==> Some(vaults[k]) == indices[k].vault)
  }

  method FromOrderBatch(batch: Batch, visit: seq<U128>) returns (p: ProcessableBatch)
    requires Visits(batch, visit)
    requires forall k :: k in batch.indices ==> batch.indices[k].indexId == k
    ensures p.settlementBuys == AllSettlements(batch.indices, visit, true)
    ensures p.settlementSells == AllSettlements(batch.indices, visit, false)
    ensures p.buyOrders == AllEntries(batch.indices, visit, true)
    ensures p.sellOrders == AllEntries(batch.indices, visit, false)
    ensures p.totalOrders == OrderCounts(batch.indices, visit)
    ensures p.indexIds == Sort(visit, Before)
    ensures forall i, j :: 0 <= i < j < |p.indexIds| ==> p.indexIds[i] < p.indexIds[j]
    ensures forall k :: k in p.indexIds <==> k in batch.indices
    ensures VaultsOf(batch.indices, visit, p.vaults)
    ensures p.trigger == if batch.trigger.Some? then batch.trigger.value else Manual
  {
    var buyOrders, sellOrders: seq<OrderEntry> := [], [];
    var ids: seq<U128> := [];
    var vaults: map<U128, Address> := map[];
    var total := 0;
    var buys, sells: seq<SettlementOrder> := [], [];
    for i := 0 to |visit|
      invariant ids == visit[..i]
      invariant buys == AllSettlements(batch.indices, visit[..i], true)
      invariant sells == AllSettlements(batch.indices, visit[..i], false)
      invariant buyOrders == AllEntries(batch.indices, visit[..i], true)
      invariant sellOrders == AllEntries(batch.indices, visit[..i], false)
      invariant total == OrderCounts(batch.indices, visit[..i])
      invariant VaultsOf(batch.indices, ids, vaults)
    {
      assert visit[..i + 1][..i] == visit[..i];
      assert visit[..i + 1] == visit[..i] + [visit[i]];
      var id := visit[i];
      var t := batch.indices[id];
      ids := ids + [id];
      total := total + t.orderCount;
      if t.vault.Some? {
        vaults := vaults[id := t.vault.value];
      }
      buyOrders, sellOrders := EnterTotals(t, buyOrders, sellOrders);
      buys, sells := SplitIndex(t, buys, sells);
    }
    assert visit[..|visit|] == visit;
    SortSorts(ids, Before);
    p := ProcessableBatch(buyOrders, sellOrders, Sort(ids, Before), vaults,
      if batch.trigger.Some? then batch.trigger.value else Manual, total, buys, sells);
  }

  // ---- What the split means, whatever the visiting order ----

  function ForIndex(orders: seq<SettlementOrder>, id: U128): seq<SettlementOrder> {
    if orders == [] then []
    else
      var before := ForIndex(orders[..|orders| - 1], id);
      var last := orders[|orders| - 1];
      if last.indexId == id then before + [last] else before
  }

  function AmountSum(orders: seq<SettlementOrder>): nat {
    if orders == [] then 0 else AmountSum(orders[..|orders| - 1]) + orders[|orders| - 1].amount.raw
  }

  lemma {:induction false} ForIndexConcat(a: seq<SettlementOrder>, b: seq<SettlementOrder>, id: U128)
    ensures ForIndex(a + b, id) == ForIndex(a, id) + ForIndex(b, id)
  {
    if b == [] {
      assert a + b == a;
    } else {
      var front := b[..|b| - 1];
      assert (a + b)[..|a + b| - 1] == a + front;
      ForIndexConcat(a, front, id);
    }
  }

  lemma {:induction false} SettlementsForIndex(t: IndexTotals, orders: seq<OrderInfo>, buys: bool, id: U128)
    ensures ForIndex(Settlements(t, orders, buys), id) == if id == t.indexId then Settlements(t, orders, buys) else []
  {
    if orders != [] {
      var front, last := orders[..|orders| - 1], orders[|orders| - 1];
      SettlementsForIndex(t, front, buys, id);
      var all := Settlements(t, orders, buys);
      if last.isBuy == buys {
        assert all[..|all| - 1] == Settlements(t, front, buys);
      }
    }
  }

  lemma {:induction false} SettlementsSum(t: IndexTotals, orders: seq<OrderInfo>)
    ensures AmountSum(Settlements(t, orders, true)) == BuyTotal(orders)
    ensures AmountSum(Settlements(t, orders, false)) == SellTotal(orders)
    ensures |Settlements(t, orders, true)| == BuyCount(orders)
    ensures |Settlements(t, orders, true)| + |Settlements(t, orders, false)| == |orders|
  {
    if orders != [] {
      var front, last := orders[..|orders| - 1], orders[|orders| - 1];
      SettlementsSum(t, front);
      var grown := Settlements(t, orders, last.isBuy);
      assert grown[..|grown| - 1] == Settlements(t, front, last.isBuy);
    }
  }

  lemma {:induction false} AllSettlementsForIndex(
    indices: map<U128, IndexTotals>, visit: seq<U128>, buys: bool, id: U128)
    requires NoDuplicates(visit) && forall k :: k in visit ==> k in indices && indices[k].indexId == k
    ensures ForIndex(AllSettlements(indices, visit, buys), id) == if id in visit then SideOf(indices[id], buys) else []
  {
    if visit != [] {
      var front, last := visit[..|visit| - 1], visit[|visit| - 1];
      assert visit == front + [last];
      AllSettlementsForIndex(indices, front, buys, id);
      ForIndexConcat(AllSettlements(indices, front, buys), SideOf(indices[last], buys), id);
      SettlementsForIndex(indices[last], indices[last].orders, buys, id);
    }
  }

  // The orders of one side.
  ghost function OnSide(orders: seq<OrderInfo>, buys: bool): set<nat> {
    set i | 0 <= i < |orders| && orders[i].isBuy == buys
  }

  lemma OnSideSnoc(orders: seq<OrderInfo>, buys: bool)
    requires orders != []
    ensures var n := |orders| - 1;
      OnSide(orders, buys) == OnSide(orders[..n], buys) + if orders[n].isBuy == buys then {n} else {}
  {
    var n := |orders| - 1;
    assert forall i :: 0 <= i < n ==> orders[..n][i] == orders[i];
  }

  // Each order of the side has one settlement order, in arrival order, with its
  // own trader and amount and the vault of the index.
  lemma {:induction false} SettlementsPick(t: IndexTotals, orders: seq<OrderInfo>, buys: bool) returns (at: seq<nat>)
    ensures Lists(at, OnSide(orders, buys)) && |at| == |Settlements(t, orders, buys)|
    ensures forall k :: 0 <= k < |at| ==>
      at[k] < |orders| && Settlements(t, orders, buys)[k]
        == SettlementOrder(t.indexId, orders[at[k]].trader, orders[at[k]].amount, t.vault)
  {
    if orders == [] {
      at := [];
    } else {
      var n := |orders| - 1;
      at := SettlementsPick(t, orders[..n], buys);
      OnSideSnoc(orders, buys);
      if orders[n].isBuy == buys {
        ListsSnoc(at, OnSide(orders[..n], buys), n);
        at := at + [n];
      }
    }
  }

  // Per index, the settlement orders of each side are that side's orders in
  // arrival order, and their amounts add up to the side's total; this does not
  // mention the visiting order at all.
  lemma SplitPerIndex(batch: Batch, visit: seq<U128>, buys: bool, id: U128)
    requires Visits(batch, visit) && ConsistentBatch(batch)
    ensures var side := ForIndex(AllSettlements(batch.indices, visit, buys), id);
      if id in batch.indices then
        var t := batch.indices[id];
        && side == SideOf(t, buys)
        && AmountSum(side) == (if buys then t.deposits else t.withdrawals).raw
        && |side| == (if buys then t.depositCount else t.withdrawalCount)
      else side == []
  {
    AllSettlementsForIndex(batch.indices, visit, buys, id);
    if id in batch.indices {
      SettlementsSum(batch.indices[id], batch.indices[id].orders);
    }
  }

  function EntriesFor(entries: seq<OrderEntry>, id: U128): seq<OrderEntry> {
    if entries == [] then []
    else
      var before := EntriesFor(entries[..|entries| - 1], id);
      var last := entries[|entries| - 1];
      if last.indexId == id then before + [last] else before
  }

  lemma OneEntry(t: IndexTotals, buys: bool)
    ensures |EntryOf(t, buys)| <= 1 && (EntryOf(t, buys) != [] ==> EntryOf(t, buys)[0].indexId == t.indexId)
  {
  }

  lemma {:induction false} AllEntriesFor(indices: map<U128, IndexTotals>, visit: seq<U128>, buys: bool, id: U128)
    requires NoDuplicates(visit) && forall k :: k in visit ==> k in indices && indices[k].indexId == k
    ensures EntriesFor(AllEntries(indices, visit, buys), id) == if id in visit then EntryOf(indices[id], buys) else []
  {
    if visit != [] {
      var front, last := visit[..|visit| - 1], visit[|visit| - 1];
      assert visit == front + [last];
      AllEntriesFor(indices, front, buys, id);
      OneEntry(indices[last], buys);
      EntriesAppend(AllEntries(indices, front, buys), EntryOf(indices[last], buys), id);
      assert id in visit <==> id in front || id == last;
      assert last !in front;
    }
  }

  lemma EntriesAppend(all: seq<OrderEntry>, e: seq<OrderEntry>, id: U128)
    requires |e| <= 1
    ensures EntriesFor(all + e, id) == EntriesFor(all, id) + (if e != [] && e[0].indexId == id then e else [])
  {
    if e == [] {
      assert all + e == all;
    } else {
      assert (all + e)[..|all|] == all;
    }
  }

  // An index has an aggregated entry exactly when its settlement amounts add
  // up to something; an index with only zero-amount orders has settlement
  // orders but no entry.
  lemma EntryTotalsSettlements(batch: Batch, visit: seq<U128>, buys: bool, id: U128)
    requires Visits(batch, visit) && ConsistentBatch(batch) && id in batch.indices
    ensures var side := ForIndex(AllSettlements(batch.indices, visit, buys), id);
      var entries := EntriesFor(AllEntries(batch.indices, visit, buys), id);
      && (entries == [] <==> AmountSum(side) == 0)
      && (entries != [] ==>
           && |entries| == 1 && entries[0].total.raw == AmountSum(side) && entries[0].count == |side|
           && entries[0].indexId == id && entries[0].vault == batch.indices[id].vault)
  {
    SplitPerIndex(batch, visit, buys, id);
    AllEntriesFor(batch.indices, visit, buys, id);
  }

  lemma {:induction false} TotalOrdersSplit(indices: map<U128, IndexTotals>, visit: seq<U128>)
    requires forall k :: k in visit ==> k in indices && Consistent(indices[k])
    ensures OrderCounts(indices, visit)
         == |AllSettlements(indices, visit, true)| + |AllSettlements(indices, visit, false)|
  {
    if visit != [] {
      var front, last := visit[..|visit| - 1], visit[|visit| - 1];
      assert last in visit && forall k :: k in front ==> k in visit;
      TotalOrdersSplit(indices, front);
      SettlementsSum(indices[last], indices[last].orders);
    }
  }

  // Two visiting orders of the same batch give the same ids in the same order
  // and the same settlement orders per index and side.
  lemma SplitOrderIndependent(batch: Batch, v: seq<U128>, w: seq<U128>, id: U128, buys: bool)
    requires Visits(batch, v) && Visits(batch, w) && ConsistentBatch(batch)
    ensures Sort(v, Before) == Sort(w, Before)
    ensures ForIndex(AllSettlements(batch.indices, v, buys), id) == ForIndex(AllSettlements(batch.indices, w, buys), id)
    ensures OrderCounts(batch.indices, v) == OrderCounts(batch.indices, w)
  {
    SortSorts(v, Before);
    SortSorts(w, Before);
    AscendingUnique(Sort(v, Before), Sort(w, Before), Before);
    AllSettlementsForIndex(batch.indices, v, buys, id);
    AllSettlementsForIndex(batch.indices, w, buys, id);
    CountsPermute(batch.indices, v, w);
  }

  lemma {:induction false} CountsPermute(indices: map<U128, IndexTotals>, v: seq<U128>, w: seq<U128>)
    requires NoDuplicates(v) && NoDuplicates(w)
    requires forall k :: k in v <==> k in w
    requires forall k :: k in v ==> k in indices
    ensures OrderCounts(indices, v) == OrderCounts(indices, w)
    decreases |v|
  {
    assert w != [] ==> w[0] in w;
    if v != [] {
      var n := |v| - 1;
      assert v[n] in v;
      var i :| 0 <= i < |w| && w[i] == v[n];
      SameRest(v, w, i);
      CountsWithout(indices, w, i);
      CountsPermute(indices, v[..n], w[..i] + w[i + 1..]);
    }
  }

  lemma SameRest(v: seq<U128>, w: seq<U128>, i: nat)
    requires NoDuplicates(v) && NoDuplicates(w) && v != [] && i < |w| && w[i] == v[|v| - 1]
    requires forall k :: k in v <==> k in w
    ensures var front, rest := v[..|v| - 1], w[..i] + w[i + 1..];
      && NoDuplicates(front) && NoDuplicates(rest)
      && (forall k :: k in front <==> k in rest) && (forall k :: k in front ==> k in v)
  {
    var n := |v| - 1;
    WithoutMembers(v, n);
    WithoutMembers(w, i);
    assert v[..n] + v[n + 1..] == v[..n];
    assert forall k :: k in v[..n] <==> k in v && k != v[n];
    assert forall k :: k in w[..i] + w[i + 1..] <==> k in w && k != w[i];
  }

  lemma {:induction false} CountsWithout(indices: map<U128, IndexTotals>, w: seq<U128>, i: nat)
    requires i < |w| && forall k :: k in w ==> k in indices
    ensures forall k :: k in w[..i] + w[i + 1..] ==> k in w
    ensures OrderCounts(indices, w) == OrderCounts(indices, w[..i] + w[i + 1..]) + indices[w[i]].orderCount
    decreases |w|
  {
    var n := |w| - 1;
    var without := w[..i] + w[i + 1..];
    if i == n {
      assert without == w[..n];
    } else {
      CountsWithout(indices, w[..n], i);
      assert without[..|without| - 1] == w[..n][..i] + w[..n][i + 1..];
      assert without[|without| - 1] == w[n];
    }
  }
}
