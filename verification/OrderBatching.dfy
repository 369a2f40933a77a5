// The shared batch and the accumulator that fills and flushes it
// (bin/keeper/src/accumulator/types.rs, accumulator.rs).
module OrderBatching {
  import opened Prelude
  import opened FixedPoint
  import opened IndexOrders

  datatype FlushTrigger =
    | TimeWindow(ageMs: int)
    | BlockChange(startBlock: nat, currentBlock: nat)
    | Manual

  // A batch as a value; windowMs is a u64.
  datatype Batch = Batch(
    indices: map<U128, IndexTotals>, windowMs: nat, createdAt: int, startBlock: nat, currentBlock: nat,
    trigger: Option<FlushTrigger>)

  function NewBatch(windowMs: nat, block: nat, now: int): Batch {
    Batch(map[], windowMs, now, block, block, None)
  }

  // The cast of a u64 to i64.
  function AsI64(n: nat): int {
    if n < 0x8000_0000_0000_0000 then n else n - 0x1_0000_0000_0000_0000
  }

  lemma AsI64Wraps(n: nat)
    requires n < 0x1_0000_0000_0000_0000
    ensures -0x8000_0000_0000_0000 <= AsI64(n) < 0x8000_0000_0000_0000
    ensures (n - AsI64(n)) % 0x1_0000_0000_0000_0000 == 0
  {
  }

  function AgeMs(t: IndexTotals, now: int): int { now - t.firstTime }

  predicate BlockDue(b: Batch) { b.startBlock < b.currentBlock && 0 < b.startBlock }

  predicate TimeDue(b: Batch, now: int) {
    exists k :: k in b.indices && AsI64(b.windowMs) <= AgeMs(b.indices[k], now)
  }

  predicate Due(b: Batch, now: int) { BlockDue(b) || TimeDue(b, now) }

  // The block trigger is reported first; the age is that of some index due.
  ghost predicate TriggerOf(b: Batch, now: int, trigger: Option<FlushTrigger>) {
    match trigger
    case Some(BlockChange(s, c)) => BlockDue(b) && s == b.startBlock && c == b.currentBlock
    case Some(TimeWindow(age)) => !BlockDue(b) && AsI64(b.windowMs) <= age &&
      exists k :: k in b.indices && age == AgeMs(b.indices[k], now)
    case Some(Manual) => false
    case None => !Due(b, now)
  }

  // A window of 2^63 milliseconds or more wraps to a negative one: any order
  // that is not from the future makes the batch due at once.
  lemma HugeWindowAlwaysDue(b: Batch, id: U128, now: int)
    requires 0x8000_0000_0000_0000 <= b.windowMs < 0x1_0000_0000_0000_0000
    requires id in b.indices && b.indices[id].firstTime <= now
    ensures Due(b, now)
  {
    assert AsI64(b.windowMs) <= AgeMs(b.indices[id], now);
  }

  function Entry(b: Batch, id: U128, now: int): IndexTotals {
    if id in b.indices then b.indices[id] else NewTotals(id, now)
  }

  // First-order time and vault address, set before the totals.
  function Touch(t: IndexTotals, o: Order): IndexTotals {
    var timed := if t.orderCount == 0 then t.(firstTime := o.timestamp) else t;
    if o.vault.Some? then timed.(vault := o.vault) else timed
  }

  // The record after an order, and whether the call returned rather than panic.
  function TakeOrder(t: IndexTotals, o: Order, now: int): (IndexTotals, bool) {
    var touched := Touch(t, o);
    match AddAction(touched, o, now)
    case Some(u) => (u, true)
    case None => (touched, false)
  }

  function AddOrder(b: Batch, o: Order, now: int): (Batch, bool) {
    var (t, ok) := TakeOrder(Entry(b, o.indexId, now), o, now);
    (b.(indices := b.indices[o.indexId := t]), ok)
  }

  function OrdersOf(b: Batch, id: U128): seq<OrderInfo> {
    if id in b.indices then b.indices[id].orders else []
  }

  ghost predicate ConsistentBatch(b: Batch) {
    forall k :: k in b.indices ==> b.indices[k].indexId == k && Consistent(b.indices[k])
  }

  // All the batch itself relies on: the deposits bound the net.
  predicate Bounded(indices: map<U128, IndexTotals>) {
    forall k :: k in indices ==> indices[k].net.raw <= indices[k].deposits.raw
  }

  lemma TakeOrderBound(t: IndexTotals, o: Order, now: int)
    requires t.net.raw <= t.deposits.raw
    ensures var after := TakeOrder(t, o, now).0; after.indexId == t.indexId && after.net.raw <= after.deposits.raw
  {
    AddExact(t.deposits, o.action.amount);
    AddExact(t.net, o.action.amount);
    SubExact(t.net, o.action.amount);
  }

  // Only an index that already has orders can overflow, so a record always
  // lists an order once it has been touched.
  lemma RefusedHasOrders(t: IndexTotals, o: Order, now: int)
    requires Consistent(t) && AddAction(t, o, now).None?
    ensures 0 < t.orderCount
  {
    AddActionConsistent(t, o, now);
  }

  lemma TakeOrderAppends(t: IndexTotals, o: Order, now: int)
    ensures var (after, ok) := TakeOrder(t, o, now);
      && after.indexId == t.indexId
      && after.orders == t.orders + (if ok then [Info(o)] else [])
      && (0 < t.orderCount ==> after.firstTime == t.firstTime)
  {
  }

  // The vault is replaced by each order that names one, even one refused.
  lemma TakeOrderTouches(t: IndexTotals, o: Order, now: int)
    ensures var (after, ok) := TakeOrder(t, o, now);
      && (o.vault.Some? ==> after.vault == o.vault) && (o.vault.None? ==> after.vault == t.vault)
      && (t.orderCount == 0 ==> after.firstTime == o.timestamp)
      && (ok ==> after.lastTime == now) && (!ok ==> after.lastTime == t.lastTime)
  {
  }

  lemma TakeOrderConsistent(t: IndexTotals, o: Order, now: int)
    requires Consistent(t)
    ensures Consistent(TakeOrder(t, o, now).0)
    ensures 0 < TakeOrder(t, o, now).0.orderCount
  {
    var touched := Touch(t, o);
    AddActionConsistent(touched, o, now);
    if AddAction(touched, o, now).None? {
      RefusedHasOrders(touched, o, now);
    }
  }

  lemma NewTotalsConsistent(id: U128, now: int)
    ensures Consistent(NewTotals(id, now))
  {
  }

  lemma EntryConsistent(b: Batch, id: U128, now: int)
    requires ConsistentBatch(b)
    ensures Consistent(Entry(b, id, now)) && Entry(b, id, now).indexId == id
    ensures Entry(b, id, now).orders == OrdersOf(b, id)
  {
    NewTotalsConsistent(id, now);
  }

  // An accepted order is appended to its own index and to no other; a refused
  // one appends nothing anywhere.
  lemma AddOrderAppends(b: Batch, o: Order, now: int, id: U128)
    ensures var (after, ok) := AddOrder(b, o, now);
      && OrdersOf(after, id) == OrdersOf(b, id) + (if ok && id == o.indexId then [Info(o)] else [])
      && after.indices.Keys == b.indices.Keys + {o.indexId}
      && after.(indices := b.indices) == b
  {
    TakeOrderAppends(Entry(b, o.indexId, now), o, now);
  }

  // Every record in a batch lists at least one order.
  predicate Populated(b: Batch) {
    forall k :: k in b.indices ==> 0 < b.indices[k].orderCount
  }

  lemma PutConsistent(b: Batch, t: IndexTotals)
    requires ConsistentBatch(b) && Populated(b) && Consistent(t) && 0 < t.orderCount
    ensures var after := b.(indices := b.indices[t.indexId := t]); ConsistentBatch(after) && Populated(after)
  {
  }

  lemma AddOrderConsistent(b: Batch, o: Order, now: int)
    requires ConsistentBatch(b) && Populated(b)
    ensures ConsistentBatch(AddOrder(b, o, now).0) && Populated(AddOrder(b, o, now).0)
  {
    var entry := Entry(b, o.indexId, now);
    EntryConsistent(b, o.indexId, now);
    TakeOrderConsistent(entry, o, now);
    TakeOrderAppends(entry, o, now);
    PutConsistent(b, TakeOrder(entry, o, now).0);
  }

  // Filling a batch never makes a due batch undue.
  lemma AddOrderKeepsDue(b: Batch, o: Order, now: int)
    requires Populated(b) && Due(b, now)
    ensures Due(AddOrder(b, o, now).0, now)
  {
    if !BlockDue(b) {
      var k :| k in b.indices && AsI64(b.windowMs) <= AgeMs(b.indices[k], now);
      var after := AddOrder(b, o, now).0;
      TakeOrderAppends(b.indices[k], o, now);
      assert k in after.indices && after.indices[k].firstTime == b.indices[k].firstTime;
    }
  }

  class IndexState {
    var indexId: U128
    var net: Amount
    var deposits: Amount
    var withdrawals: Amount
    var orderCount: nat
    var depositCount: nat
    var withdrawalCount: nat
    var firstTime: int
    var lastTime: int
    var vault: Option<Address>
    var orders: seq<OrderInfo>

    function Totals(): IndexTotals
      reads this
    {
      IndexTotals(indexId, net, deposits, withdrawals, orderCount, depositCount, withdrawalCount,
        firstTime, lastTime, vault, orders)
    }

    constructor (id: U128, now: int)
      ensures Totals() == NewTotals(id, now)
    {
      indexId, net, deposits, withdrawals := id, ZERO, ZERO, ZERO;
      orderCount, depositCount, withdrawalCount := 0, 0, 0;
      firstTime, lastTime, vault, orders := now, now, None, [];
    }

    // A refused deposit leaves the state alone, because the net never exceeds
    // the deposits: the second addition cannot be the one to fail.
    method Deposit(amount: Amount, now: int) returns (ok: bool)
      requires net.raw <= deposits.raw
      modifies this
      ensures ok <==> AddDeposit(old(Totals()), amount, now).Some?
      ensures Totals() == if ok then AddDeposit(old(Totals()), amount, now).value else old(Totals())
    {
      AddExact(deposits, amount);
      AddExact(net, amount);
      var total := CheckedAdd(deposits, amount);
      if total.None? {
        return false;
      }
      deposits := total.value;
      var newNet := CheckedAdd(net, amount);
      if newNet.None? {
        return false;
      }
      net := newNet.value;
      orderCount, depositCount, lastTime := orderCount + 1, depositCount + 1, now;
      return true;
    }

    method Withdraw(amount: Amount, now: int) returns (ok: bool)
      modifies this
      ensures ok <==> AddWithdrawal(old(Totals()), amount, now).Some?
      ensures Totals() == if ok then AddWithdrawal(old(Totals()), amount, now).value else old(Totals())
    {
      var total := CheckedAdd(withdrawals, amount);
      if total.None? {
        return false;
      }
      withdrawals := total.value;
      net := SubOrZero(net, amount);
      orderCount, withdrawalCount, lastTime := orderCount + 1, withdrawalCount + 1, now;
      return true;
    }

    method Take(o: Order, now: int) returns (ok: bool)
      requires net.raw <= deposits.raw
      modifies this
      ensures (Totals(), ok) == TakeOrder(old(Totals()), o, now)
    {
      if orderCount == 0 {
        firstTime := o.timestamp;
      }
      if o.vault.Some? {
        vault := o.vault;
      }
      ghost var touched := Totals();
      assert touched == Touch(old(Totals()), o);
      if o.action.Deposit? {
        ok := Deposit(o.action.amount, now);
        assert ok <==> AddDeposit(touched, o.action.amount, now).Some?;
      } else {
        ok := Withdraw(o.action.amount, now);
        assert ok <==> AddWithdrawal(touched, o.action.amount, now).Some?;
      }
      assert ok <==> AddAction(touched, o, now).Some?;
      if ok {
        orders := orders + [Info(o)];
        assert Totals() == AddAction(touched, o, now).value;
      }
    }
  }

  class OrderBatch {
    var indices: map<U128, IndexState>
    var windowMs: nat
    var createdAt: int
    var startBlock: nat
    var currentBlock: nat
    var trigger: Option<FlushTrigger>
    ghost var contents: map<U128, IndexTotals>

    function States(): set<IndexState>
      reads this
    {
      set k | k in indices :: indices[k]
    }

    // Each index has a state object of its own, which knows its index.
    ghost predicate Valid()
      reads this, States()
    {
      && indices.Keys == contents.Keys
      && (forall k :: k in indices ==> indices[k].indexId == k && indices[k].Totals() == contents[k])
      && Bounded(contents)
    }

    ghost function Value(): Batch
      reads this
    {
      Batch(contents, windowMs, createdAt, startBlock, currentBlock, trigger)
    }

    constructor (window: nat, block: nat, now: int)
      ensures Valid() && States() == {}
      ensures Value() == NewBatch(window, block, now)
    {
      indices, windowMs, createdAt, startBlock, currentBlock, trigger := map[], window, now, block, block, None;
      contents := map[];
    }

    // A deep copy.
    method Clone() returns (b: Batch)
      requires Valid()
      ensures b == Value()
    {
      b := Batch(map k | k in indices :: indices[k].Totals(), windowMs, createdAt, startBlock, currentBlock, trigger);
      assert b.indices == contents;
    }

    method UpdateBlock(block: nat)
      requires Valid()
      modifies this
      ensures Valid() && States() == old(States())
      ensures Value() == old(Value()).(currentBlock := block)
    {
      currentBlock := block;
    }

    // entry(id).or_insert_with(new).
    method Enter(id: U128, now: int) returns (state: IndexState)
      requires Valid()
      modifies this
      ensures Valid() && fresh(States() - old(States()))
      ensures id in indices && state == indices[id]
      ensures state.Totals() == Entry(old(Value()), id, now)
      ensures Value() == old(Value()).(indices := old(Value()).indices[id := state.Totals()])
    {
      if id !in indices {
        var created := new IndexState(id, now);
        indices := indices[id := created];
        contents := contents[id := created.Totals()];
      }
      state := indices[id];
    }

    method Add(o: Order, now: int) returns (ok: bool)
      requires Valid()
      modifies this, States()
      ensures Valid() && fresh(States() - old(States()))
      ensures (Value(), ok) == AddOrder(old(Value()), o, now)
    {
      var state := Enter(o.indexId, now);
      ok := TakeInto(o.indexId, o, now);
      assert contents == old(contents)[o.indexId := contents[o.indexId]];
    }

    // Only the one index's state object changes.
    method TakeInto(id: U128, o: Order, now: int) returns (ok: bool)
      requires Valid() && id in indices
      modifies this`contents, indices[id]
      ensures Valid()
      ensures var taken := TakeOrder(old(contents)[id], o, now);
        contents == old(contents)[id := taken.0] && ok == taken.1
    {
      var state := indices[id];
      TakeOrderBound(state.Totals(), o, now);
      ok := state.Take(o, now);
      contents := contents[id := state.Totals()];
    }

    // The indices are visited in no particular order.
    method GetFlushTrigger(now: int) returns (found: Option<FlushTrigger>)
      requires Valid()
      ensures TriggerOf(Value(), now, found)
    {
      if startBlock < currentBlock && 0 < startBlock {
        return Some(BlockChange(startBlock, currentBlock));
      }
      var left := indices.Keys;
      while left != {}
        invariant left <= indices.Keys
        invariant forall k :: k in indices && k !in left ==> AgeMs(Value().indices[k], now) < AsI64(windowMs)
        decreases left
      {
        var k :| k in left;
        var age := now - indices[k].firstTime;
        assert age == AgeMs(Value().indices[k], now);
        if AsI64(windowMs) <= age {
          return Some(TimeWindow(age));
        }
        left := left - {k};
      }
      return None;
    }

    method ShouldFlush(now: int) returns (due: bool)
      requires Valid()
      ensures due <==> Due(Value(), now)
    {
      var found := GetFlushTrigger(now);
      if found.Some? && found.value.TimeWindow? {
        assert TimeDue(Value(), now);
      }
      due := found.Some?;
    }
  }

  // What a flush takes away and what it leaves: nothing from an empty batch,
  // otherwise everything, stamped with its trigger.
  function TakenBatch(b: Batch, trigger: Option<FlushTrigger>): Option<Batch> {
    if b.indices == map[] then None
    else Some(b.(trigger := Some(if trigger.Some? then trigger.value else Manual)))
  }

  function LeftBatch(b: Batch, windowMs: nat, block: nat, now: int): Batch {
    if b.indices == map[] then b else NewBatch(windowMs, block, now)
  }

  class OrderAccumulator {
    const windowMs: nat
    var currentBatch: OrderBatch
    var currentBlock: nat
    var channel: seq<Order>
    var receiving: bool

    ghost predicate Valid()
      reads this, currentBatch, currentBatch.States()
    {
      currentBatch.Valid()
    }

    constructor (window: nat, now: int)
      ensures Valid() && fresh(currentBatch) && fresh(currentBatch.States())
      ensures currentBatch.Value() == NewBatch(window, 0, now) && windowMs == window
      ensures channel == [] && receiving && currentBlock == 0
    {
      windowMs := window;
      currentBatch := new OrderBatch(window, 0, now);
      currentBlock, channel, receiving := 0, [], true;
    }

    // Sending fails once the receiver is gone.
    method SubmitOrder(o: Order) returns (ok: bool)
      modifies this`channel
      ensures ok == receiving
      ensures channel == if ok then old(channel) + [o] else old(channel)
    {
      if receiving {
        channel := channel + [o];
      }
      ok := receiving;
    }

    method UpdateBlock(block: nat)
      requires Valid()
      modifies this`currentBlock, currentBatch
      ensures Valid() && currentBatch == old(currentBatch)
      ensures currentBlock == block
      ensures currentBatch.Value() == old(currentBatch.Value()).(currentBlock := block)
    {
      currentBlock := block;
      currentBatch.UpdateBlock(block);
    }

    method FlushBatch(now: int) returns (flushed: Option<Batch>, ghost trigger: Option<FlushTrigger>)
      requires Valid()
      modifies this`currentBatch
      ensures Valid()
      ensures TriggerOf(old(currentBatch.Value()), now, trigger)
      ensures flushed == TakenBatch(old(currentBatch.Value()), trigger)
      ensures currentBatch.Value() == LeftBatch(old(currentBatch.Value()), windowMs, currentBlock, now)
      ensures flushed.None? ==> currentBatch == old(currentBatch)
      ensures flushed.Some? ==> currentBatch.Value() == Batch(map[], windowMs, now, currentBlock, currentBlock, None)
      ensures flushed.Some? ==> fresh(currentBatch) && fresh(currentBatch.States())
    {
      var block := currentBlock;
      var found := currentBatch.GetFlushTrigger(now);
      trigger := found;
      var snapshot := currentBatch.Clone();
      if snapshot.indices == map[] {
        return None, trigger;
      }
      flushed := Some(snapshot.(trigger := Some(if found.Some? then found.value else Manual)));
      currentBatch := new OrderBatch(windowMs, block, now);
    }

    // The receive task takes an order from the channel and adds it. A panic
    // while adding ends that loop and drops the receiver with whatever is still
    // in the channel.
    method ReceiveOne(now: int)
      requires Valid() && receiving && channel != []
      modifies this`channel, this`receiving, currentBatch, currentBatch.States()
      ensures Valid() && currentBatch == old(currentBatch)
      ensures fresh(currentBatch.States() - old(currentBatch.States()))
      ensures (currentBatch.Value(), receiving) == AddOrder(old(currentBatch.Value()), old(channel[0]), now)
      ensures channel == if receiving then old(channel[1..]) else []
    {
      var o := channel[0];
      channel := channel[1..];
      receiving := currentBatch.Add(o, now);
      if !receiving {
        channel := [];
      }
    }

    // What both flushers do: flush when due.
    method FlushIfDue(now: int) returns (flushed: Option<Batch>, ghost trigger: Option<FlushTrigger>)
      requires Valid()
      modifies this`currentBatch
      ensures Valid()
      ensures TriggerOf(old(currentBatch.Value()), now, trigger)
      ensures var before := old(currentBatch.Value());
        if Due(before, now) then
          && flushed == TakenBatch(before, trigger)
          && currentBatch.Value() == LeftBatch(before, windowMs, currentBlock, now)
        else
          flushed == None && currentBatch == old(currentBatch) && currentBatch.Value() == before
    {
      var due := currentBatch.ShouldFlush(now);
      flushed, trigger := None, None;
      if due {
        flushed, trigger := FlushBatch(now);
      }
    }
  }
}
