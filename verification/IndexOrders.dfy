// Orders for an index and the totals kept per index, as values
// (bin/keeper/src/accumulator/types.rs, bin/keeper/src/processor/types.rs).
module IndexOrders {
  import opened Prelude
  import opened FixedPoint

  type Address = nat
  const ZERO_ADDRESS: Address := 0

  datatype Action = Deposit(amount: Amount) | Withdraw(amount: Amount)

  // Times are milliseconds.
  datatype Order = Order(
    indexId: U128, action: Action, timestamp: int, vault: Option<Address>, trader: Option<Address>)

  datatype OrderInfo = OrderInfo(trader: Address, amount: Amount, isBuy: bool)

  function Info(o: Order): OrderInfo {
    OrderInfo(if o.trader.Some? then o.trader.value else ZERO_ADDRESS, o.action.amount, o.action.Deposit?)
  }

  datatype IndexTotals = IndexTotals(
    indexId: U128, net: Amount, deposits: Amount, withdrawals: Amount,
    orderCount: nat, depositCount: nat, withdrawalCount: nat,
    firstTime: int, lastTime: int, vault: Option<Address>, orders: seq<OrderInfo>)

  function NewTotals(indexId: U128, now: int): IndexTotals {
    IndexTotals(indexId, ZERO, ZERO, ZERO, 0, 0, 0, now, now, None, [])
  }

  function SubOrZero(a: Amount, b: Amount): Amount {
    match CheckedSub(a, b)
    case Some(d) => d
    case None => ZERO
  }

  // None is the panic of an unwrapped overflow.
  function AddDeposit(t: IndexTotals, amount: Amount, now: int): Option<IndexTotals> {
    match CheckedAdd(t.deposits, amount)
    case None => None
    case Some(deposits) =>
      match CheckedAdd(t.net, amount)
      case None => None
      case Some(net) =>
        Some(t.(deposits := deposits, net := net, orderCount := t.orderCount + 1, depositCount := t.depositCount + 1,
                lastTime := now))
  }

  function AddWithdrawal(t: IndexTotals, amount: Amount, now: int): Option<IndexTotals> {
    match CheckedAdd(t.withdrawals, amount)
    case None => None
    case Some(withdrawals) =>
      Some(t.(withdrawals := withdrawals, net := SubOrZero(t.net, amount),
              orderCount := t.orderCount + 1, withdrawalCount := t.withdrawalCount + 1, lastTime := now))
  }

  // The individual order is recorded after the totals.
  function AddAction(t: IndexTotals, o: Order, now: int): Option<IndexTotals> {
    var added :=
      if o.action.Deposit? then AddDeposit(t, o.action.amount, now) else AddWithdrawal(t, o.action.amount, now);
    match added
    case None => None
    case Some(u) => Some(u.(orders := u.orders + [Info(o)]))
  }

  // ---- What the totals mean ----

  function BuyTotal(orders: seq<OrderInfo>): nat {
    if orders == [] then 0
    else
      var last := orders[|orders| - 1];
      BuyTotal(orders[..|orders| - 1]) + if last.isBuy then last.amount.raw else 0
  }

  function SellTotal(orders: seq<OrderInfo>): nat {
    if orders == [] then 0
    else
      var last := orders[|orders| - 1];
      SellTotal(orders[..|orders| - 1]) + if last.isBuy then 0 else last.amount.raw
  }

  function BuyCount(orders: seq<OrderInfo>): nat {
    if orders == [] then 0
    else BuyCount(orders[..|orders| - 1]) + if orders[|orders| - 1].isBuy then 1 else 0
  }

  // The running net that never goes below zero.
  function FlooredNet(orders: seq<OrderInfo>): nat {
    if orders == [] then 0
    else
      var last := orders[|orders| - 1];
      var before := FlooredNet(orders[..|orders| - 1]);
      if last.isBuy then before + last.amount.raw
      else if last.amount.raw <= before then before - last.amount.raw
      else 0
  }

  function SignedTotal(orders: seq<OrderInfo>): int {
    BuyTotal(orders) - SellTotal(orders)
  }

  // The least signed total of any prefix; the empty prefix counts as 0.
  function LowestPrefix(orders: seq<OrderInfo>): int {
    if orders == [] then 0
    else
      var low := LowestPrefix(orders[..|orders| - 1]);
      if SignedTotal(orders) < low then SignedTotal(orders) else low
  }

  lemma {:induction false} LowestPrefixIsMinimum(orders: seq<OrderInfo>)
    ensures forall k :: 0 <= k <= |orders| ==> LowestPrefix(orders) <= SignedTotal(orders[..k])
    ensures exists k :: 0 <= k <= |orders| && LowestPrefix(orders) == SignedTotal(orders[..k])
  {
    assert orders[..|orders|] == orders;
    if orders == [] {
      assert LowestPrefix(orders) == SignedTotal(orders[..0]);
    } else {
      var front := orders[..|orders| - 1];
      LowestPrefixIsMinimum(front);
      assert forall k :: 0 <= k <= |front| ==> front[..k] == orders[..k];
      var m :| 0 <= m <= |front| && LowestPrefix(front) == SignedTotal(front[..m]);
      assert LowestPrefix(orders) == SignedTotal(orders[..m])
        || LowestPrefix(orders) == SignedTotal(orders[..|orders|]);
    }
  }

  // Closed form of the floored net: the signed total measured from the lowest
  // point any prefix reached.
  lemma {:induction false} NetClosedForm(orders: seq<OrderInfo>)
    ensures FlooredNet(orders) == SignedTotal(orders) - LowestPrefix(orders)
  {
    if orders != [] {
      NetClosedForm(orders[..|orders| - 1]);
    }
  }

  lemma {:induction false} LowestPrefixBounds(orders: seq<OrderInfo>)
    ensures LowestPrefix(orders) <= 0 && LowestPrefix(orders) <= SignedTotal(orders)
    ensures 0 <= SellTotal(orders) + LowestPrefix(orders)
  {
    if orders != [] {
      LowestPrefixBounds(orders[..|orders| - 1]);
    }
  }

  // The per-index record agrees with the orders it lists.
  ghost predicate Consistent(t: IndexTotals) {
    && t.net.raw == FlooredNet(t.orders)
    && t.deposits.raw == BuyTotal(t.orders)
    && t.withdrawals.raw == SellTotal(t.orders)
    && t.orderCount == |t.orders|
    && t.depositCount == BuyCount(t.orders)
    && t.withdrawalCount == |t.orders| - BuyCount(t.orders)
  }

  // Every order keeps the record consistent, and adding fails exactly when a
  // gross total leaves 128 bits: the net never overflows on its own.
  lemma AddActionConsistent(t: IndexTotals, o: Order, now: int)
    requires Consistent(t)
    ensures AddAction(t, o, now).None? <==>
      TWO_128 <= (if o.action.Deposit? then t.deposits else t.withdrawals).raw + o.action.amount.raw
    ensures AddAction(t, o, now).Some? ==> Consistent(AddAction(t, o, now).value)
    ensures AddAction(t, o, now).Some? ==> AddAction(t, o, now).value.orders == t.orders + [Info(o)]
  {
    var amount := o.action.amount;
    NetClosedForm(t.orders);
    LowestPrefixBounds(t.orders);
    AddExact(t.deposits, amount);
    AddExact(t.net, amount);
    AddExact(t.withdrawals, amount);
    SubExact(t.net, amount);
    var longer := t.orders + [Info(o)];
    assert longer[..|longer| - 1] == t.orders;
  }

  // net_collateral_change of a buy order built from the gross totals.
  function GrossNet(t: IndexTotals): Amount {
    SubOrZero(t.deposits, t.withdrawals)
  }

  // The floored net never understates the gross one, never exceeds the
  // deposits, and equals the gross one exactly when no proper prefix went
  // below both zero and the final total.
  lemma NetAgainstGross(t: IndexTotals)
    requires Consistent(t)
    ensures GrossNet(t).raw <= t.net.raw <= t.deposits.raw
    ensures t.net == GrossNet(t) <==>
      forall k :: 0 <= k <= |t.orders| ==>
        0 <= SignedTotal(t.orders[..k]) || SignedTotal(t.orders) <= SignedTotal(t.orders[..k])
  {
    NetClosedForm(t.orders);
    LowestPrefixBounds(t.orders);
    LowestPrefixIsMinimum(t.orders);
    SubExact(t.deposits, t.withdrawals);
    assert t.orders[..|t.orders|] == t.orders;
    var m :| 0 <= m <= |t.orders| && LowestPrefix(t.orders) == SignedTotal(t.orders[..m]);
  }
}
