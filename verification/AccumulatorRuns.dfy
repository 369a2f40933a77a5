// Every interleaving of order senders, the receive task, the keeper loop and
// the block updater over one accumulator
// (bin/keeper/src/accumulator/accumulator.rs, bin/keeper/src/keeper/keeper.rs).
module AccumulatorRuns {
  import opened Prelude
  import opened FixedPoint
  import opened IndexOrders
  import opened OrderBatching

  // Where each task stands between two critical sections. A flush reads the
  // block number first and swaps the batch later.
  datatype Receiver = Waiting | Holding(order: Order) | Checking | Loading | Swapping(block: nat) | Stopped
  datatype Keeper = Resting | KeeperLoading | KeeperSwapping(block: nat)
  datatype Updater = Quiet | Writing(block: nat)

  datatype Flusher = ByReceiver | ByKeeper
  datatype Flush = Flush(flusher: Flusher, batch: Batch)

  // `accepted` records every order whose submission succeeded; `lost` holds
  // what a panic of the receive task dropped.
  datatype State = State(
    clock: int, block: nat, batch: Batch, channel: seq<Order>,
    receiver: Receiver, keeper: Keeper, updater: Updater,
    flushed: seq<Flush>, accepted: seq<Order>, lost: seq<Order>)

  datatype Step =
    | Tick(ms: nat)
    | Submit(order: Order)
    | Receive
    | AddToBatch
    | CheckDue
    | LoadBlock
    | SwapBatch(trigger: Option<FlushTrigger>)
    | KeeperCheckDue
    | KeeperLoadBlock
    | KeeperSwapBatch(trigger: Option<FlushTrigger>)
    | StoreBlock(block: nat)
    | WriteBlock

  function Initial(windowMs: nat, now: int): State {
    State(now, 0, NewBatch(windowMs, 0, now), [], Waiting, Resting, Quiet, [], [], [])
  }

  function Swapped(s: State, flusher: Flusher, block: nat, trigger: Option<FlushTrigger>): State {
    var taken := TakenBatch(s.batch, trigger);
    s.(batch := LeftBatch(s.batch, s.batch.windowMs, block, s.clock),
       flushed := if taken.Some? then s.flushed + [Flush(flusher, taken.value)] else s.flushed)
  }

  // When a step can happen. The one updater stores blocks that do not decrease.
  ghost predicate Enabled(s: State, step: Step) {
    match step
    case Tick(_) => true
    case Submit(_) => true
    case Receive => s.receiver.Waiting? && s.channel != []
    case AddToBatch => s.receiver.Holding?
    case CheckDue => s.receiver.Checking?
    case LoadBlock => s.receiver.Loading?
    case SwapBatch(trigger) => s.receiver.Swapping? && TriggerOf(s.batch, s.clock, trigger)
    case KeeperCheckDue => s.keeper.Resting?
    case KeeperLoadBlock => s.keeper.KeeperLoading?
    case KeeperSwapBatch(trigger) => s.keeper.KeeperSwapping? && TriggerOf(s.batch, s.clock, trigger)
    case StoreBlock(b) => s.updater.Quiet? && s.block <= b
    case WriteBlock => s.updater.Writing?
  }

  function AddHeld(s: State): State
    requires s.receiver.Holding?
  {
    var o := s.receiver.order;
    var (after, ok) := AddOrder(s.batch, o, s.clock);
    if ok then s.(batch := after, receiver := Checking)
    else s.(batch := after, receiver := Stopped, lost := [o] + s.channel, channel := [])
  }

  ghost function Apply(s: State, step: Step): State
    requires Enabled(s, step)
  {
    match step
    case Tick(ms) => s.(clock := s.clock + ms)
    case Submit(o) =>
      if s.receiver.Stopped? then s
      else s.(channel := s.channel + [o], accepted := s.accepted + [o])
    case Receive => s.(receiver := Holding(s.channel[0]), channel := s.channel[1..])
    case AddToBatch => AddHeld(s)
    case CheckDue => s.(receiver := if Due(s.batch, s.clock) then Loading else Waiting)
    case LoadBlock => s.(receiver := Swapping(s.block))
    case SwapBatch(trigger) => Swapped(s, ByReceiver, s.receiver.block, trigger).(receiver := Waiting)
    case KeeperCheckDue => s.(keeper := if Due(s.batch, s.clock) then KeeperLoading else Resting)
    case KeeperLoadBlock => s.(keeper := KeeperSwapping(s.block))
    case KeeperSwapBatch(trigger) => Swapped(s, ByKeeper, s.keeper.block, trigger).(keeper := Resting)
    case StoreBlock(b) => s.(block := b, updater := Writing(b))
    case WriteBlock => s.(batch := s.batch.(currentBlock := s.updater.block), updater := Quiet)
  }

  // s leads to t through the given steps.
  ghost predicate Run(s: State, steps: seq<Step>, t: State)
    decreases |steps|
  {
    if steps == [] then s == t
    else Enabled(s, steps[0]) && Run(Apply(s, steps[0]), steps[1..], t)
  }

  // ---- Conservation of orders ----

  function InfosOf(orders: seq<Order>, id: U128): seq<OrderInfo> {
    if orders == [] then []
    else
      var last := orders[|orders| - 1];
      InfosOf(orders[..|orders| - 1], id) + (if last.indexId == id then [Info(last)] else [])
  }

  lemma {:induction false} InfosOfConcat(a: seq<Order>, b: seq<Order>, id: U128)
    ensures InfosOf(a + b, id) == InfosOf(a, id) + InfosOf(b, id)
  {
    if b == [] {
      assert a + b == a;
    } else {
      var front := b[..|b| - 1];
      assert (a + b)[..|a + b| - 1] == a + front;
      InfosOfConcat(a, front, id);
    }
  }

  function FlushedOrders(flushed: seq<Flush>, id: U128): seq<OrderInfo> {
    if flushed == [] then []
    else FlushedOrders(flushed[..|flushed| - 1], id) + OrdersOf(flushed[|flushed| - 1].batch, id)
  }

  function Held(s: State): seq<Order> {
    if s.receiver.Holding? then [s.receiver.order] else []
  }

  // Orders already in a batch, in the order they were flushed or will be.
  function Batched(s: State, id: U128): seq<OrderInfo> {
    FlushedOrders(s.flushed, id) + OrdersOf(s.batch, id)
  }

  // Accepted orders not yet in a batch.
  function Pending(s: State): seq<Order> {
    Held(s) + s.channel + s.lost
  }

  ghost predicate Conserved(s: State) {
    && (forall id: U128 :: Batched(s, id) + InfosOf(Pending(s), id) == InfosOf(s.accepted, id))
    && (s.lost != [] <==> s.receiver.Stopped?)
    && (s.lost != [] ==> s.channel == [])
  }

  ghost predicate AllConsistent(s: State) {
    && ConsistentBatch(s.batch)
    && (forall i :: 0 <= i < |s.flushed| ==> ConsistentBatch(s.flushed[i].batch) && s.flushed[i].batch.indices != map[])
    && Populated(s.batch)
  }

  ghost predicate BlocksOrdered(s: State) {
    && s.batch.startBlock <= s.batch.currentBlock <= s.block
    && (s.receiver.Swapping? ==> s.receiver.block <= s.block)
    && (s.keeper.KeeperSwapping? ==> s.keeper.block <= s.block)
    && (s.updater.Writing? ==> s.updater.block == s.block)
    && (s.flushed == [] ==> s.batch.startBlock == 0)
  }

  ghost predicate Invariant(s: State) {
    Conserved(s) && AllConsistent(s) && BlocksOrdered(s)
  }

  lemma InfosOfOne(o: Order, id: U128)
    ensures InfosOf([o], id) == if o.indexId == id then [Info(o)] else []
  {
    assert [o][..0] == [];
  }

  lemma Reassociate<T>(a: seq<T>, b: seq<T>, c: seq<T>, d: seq<T>)
    ensures a + (b + c) + d == a + b + (c + d)
  {
  }

  // The order in hand moves to the end of its index, or to what is lost.
  lemma AddHeldMoves(s: State, id: U128)
    requires s.receiver.Holding? && s.lost == []
    ensures Batched(AddHeld(s), id) + InfosOf(Pending(AddHeld(s)), id) == Batched(s, id) + InfosOf(Pending(s), id)
  {
    var o := s.receiver.order;
    var t := AddHeld(s);
    var (after, ok) := AddOrder(s.batch, o, s.clock);
    AddOrderAppends(s.batch, o, s.clock, id);
    assert Pending(s) == [o] + s.channel;
    assert t.flushed == s.flushed && t.batch == after;
    if ok {
      assert Pending(t) == s.channel;
      InfosOfConcat([o], s.channel, id);
      InfosOfOne(o, id);
      Reassociate(FlushedOrders(s.flushed, id), OrdersOf(s.batch, id), InfosOf([o], id), InfosOf(s.channel, id));
    } else {
      assert Pending(t) == [o] + s.channel;
      assert OrdersOf(after, id) == OrdersOf(s.batch, id);
    }
  }

  lemma AddHeldConserves(s: State)
    requires s.receiver.Holding? && Conserved(s) && AllConsistent(s)
    ensures Conserved(AddHeld(s)) && AllConsistent(AddHeld(s))
  {
    forall id: U128
      ensures Batched(AddHeld(s), id) + InfosOf(Pending(AddHeld(s)), id) == InfosOf(s.accepted, id)
    {
      AddHeldMoves(s, id);
    }
    AddOrderConsistent(s.batch, s.receiver.order, s.clock);
  }

  lemma SubmitConserves(s: State, o: Order)
    requires Conserved(s) && !s.receiver.Stopped?
    ensures Conserved(Apply(s, Submit(o)))
  {
    var t := Apply(s, Submit(o));
    assert Pending(t) == Pending(s) + [o];
    forall id: U128
      ensures Batched(t, id) + InfosOf(Pending(t), id) == InfosOf(t.accepted, id)
    {
      InfosOfConcat(Pending(s), [o], id);
      InfosOfConcat(s.accepted, [o], id);
    }
  }

  // A step that moves no order between the parts.
  lemma SamePartsConserved(s: State, t: State)
    requires Conserved(s) && Pending(t) == Pending(s) && t.accepted == s.accepted
    requires t.lost == s.lost && t.receiver.Stopped? == s.receiver.Stopped? && (s.channel == [] ==> t.channel == [])
    requires forall id: U128 :: Batched(t, id) == Batched(s, id)
    ensures Conserved(t)
  {
  }

  lemma SwapConserves(s: State, flusher: Flusher, block: nat, trigger: Option<FlushTrigger>)
    requires Conserved(s) && AllConsistent(s)
    ensures var t := Swapped(s, flusher, block, trigger);
      && (forall id: U128 :: Batched(t, id) == Batched(s, id))
      && AllConsistent(t)
  {
    var t := Swapped(s, flusher, block, trigger);
    forall id: U128
      ensures Batched(t, id) == Batched(s, id)
    {
      SwapKeepsBatched(s, flusher, block, trigger, id);
    }
  }

  lemma SwapKeepsBatched(s: State, flusher: Flusher, block: nat, trigger: Option<FlushTrigger>, id: U128)
    ensures Batched(Swapped(s, flusher, block, trigger), id) == Batched(s, id)
  {
    var t := Swapped(s, flusher, block, trigger);
    if t.flushed != s.flushed {
      assert t.flushed[..|t.flushed| - 1] == s.flushed;
    }
  }

  lemma StepConserves(s: State, step: Step)
    requires Conserved(s) && AllConsistent(s) && Enabled(s, step)
    ensures Conserved(Apply(s, step)) && AllConsistent(Apply(s, step))
  {
    var t := Apply(s, step);
    match step
    case Submit(o) =>
      if !s.receiver.Stopped? {
        SubmitConserves(s, o);
      }
    case AddToBatch =>
      AddHeldConserves(s);
    case SwapBatch(trigger) =>
      SwapConserves(s, ByReceiver, s.receiver.block, trigger);
      SamePartsConserved(s, t);
    case KeeperSwapBatch(trigger) =>
      SwapConserves(s, ByKeeper, s.keeper.block, trigger);
      SamePartsConserved(s, t);
    case _ =>
      assert Pending(t) == Pending(s);
      SamePartsConserved(s, t);
  }

  lemma StepKeepsBlocks(s: State, step: Step)
    requires BlocksOrdered(s) && Enabled(s, step)
    ensures BlocksOrdered(Apply(s, step))
  {
  }

  lemma {:induction false} RunInvariant(s: State, steps: seq<Step>, t: State)
    requires Invariant(s) && Run(s, steps, t)
    ensures Invariant(t)
    decreases |steps|
  {
    if steps != [] {
      StepConserves(s, steps[0]);
      StepKeepsBlocks(s, steps[0]);
      RunInvariant(Apply(s, steps[0]), steps[1..], t);
    }
  }

  lemma InitialInvariant(windowMs: nat, now: int)
    ensures Invariant(Initial(windowMs, now))
  {
    assert forall i: U128 :: InfosOf([], i) == [];
  }

  // The main results, for every run from the start.

  // Per index, what was flushed, then the current batch, then the order in
  // hand, the channel and anything a panic dropped is exactly what was
  // accepted; something is dropped only when the receive task has stopped.
  lemma OrdersConserved(windowMs: nat, now: int, steps: seq<Step>, s: State, id: U128)
    requires Run(Initial(windowMs, now), steps, s)
    ensures FlushedOrders(s.flushed, id) + OrdersOf(s.batch, id) + InfosOf(Held(s) + s.channel + s.lost, id)
         == InfosOf(s.accepted, id)
    ensures s.lost == [] <==> !s.receiver.Stopped?
  {
    InitialInvariant(windowMs, now);
    RunInvariant(Initial(windowMs, now), steps, s);
  }

  lemma BatchBlocksOrdered(windowMs: nat, now: int, steps: seq<Step>, s: State)
    requires Run(Initial(windowMs, now), steps, s)
    ensures s.batch.startBlock <= s.batch.currentBlock <= s.block
  {
    InitialInvariant(windowMs, now);
    RunInvariant(Initial(windowMs, now), steps, s);
  }

  // Until the first flush the block trigger never fires, however many blocks
  // pass: the batch made at start-up has start block 0.
  lemma FirstBatchIgnoresBlocks(windowMs: nat, now: int, steps: seq<Step>, s: State)
    requires Run(Initial(windowMs, now), steps, s)
    requires s.flushed == []
    ensures Due(s.batch, s.clock) <==> TimeDue(s.batch, s.clock)
  {
    InitialInvariant(windowMs, now);
    RunInvariant(Initial(windowMs, now), steps, s);
  }

  ghost predicate NonEmptyAndDue(s: State) {
    s.batch.indices != map[] && Due(s.batch, s.clock)
  }

  // Only a flush that takes something makes a due batch undue.
  lemma DueStays(s: State, step: Step)
    requires Invariant(s) && Enabled(s, step) && Due(s.batch, s.clock)
    ensures Due(Apply(s, step).batch, Apply(s, step).clock) || |s.flushed| < |Apply(s, step).flushed|
  {
    match step
    case AddToBatch =>
      AddOrderKeepsDue(s.batch, s.receiver.order, s.clock);
    case Tick(ms) =>
      LaterStaysDue(s.batch, s.clock, ms);
    case WriteBlock =>
      if !BlockDue(s.batch) {
        var k :| k in s.batch.indices && AsI64(s.batch.windowMs) <= AgeMs(s.batch.indices[k], s.clock);
        assert k in Apply(s, step).batch.indices;
      }
    case _ =>
  }

  lemma StepKeepsDue(s: State, step: Step)
    requires Invariant(s) && Enabled(s, step) && NonEmptyAndDue(s)
    ensures NonEmptyAndDue(Apply(s, step)) || |s.flushed| < |Apply(s, step).flushed|
  {
    DueStays(s, step);
    if step.AddToBatch? {
      AddOrderAppends(s.batch, s.receiver.order, s.clock, s.receiver.order.indexId);
    }
  }

  lemma LaterStaysDue(b: Batch, now: int, ms: nat)
    requires Due(b, now)
    ensures Due(b, now + ms)
  {
    if !BlockDue(b) {
      var k :| k in b.indices && AsI64(b.windowMs) <= AgeMs(b.indices[k], now);
      assert AsI64(b.windowMs) <= AgeMs(b.indices[k], now + ms);
    }
  }

  lemma {:induction false} FlushesOnlyGrow(s: State, steps: seq<Step>, t: State)
    requires Run(s, steps, t)
    ensures s.flushed <= t.flushed
    decreases |steps|
  {
    if steps != [] {
      assert s.flushed <= Apply(s, steps[0]).flushed;
      FlushesOnlyGrow(Apply(s, steps[0]), steps[1..], t);
    }
  }

  // A non-empty batch that is due stays due until somebody flushes it.
  lemma {:induction false} DueUntilFlushed(s: State, steps: seq<Step>, t: State)
    requires Invariant(s) && NonEmptyAndDue(s) && Run(s, steps, t)
    requires t.flushed == s.flushed
    ensures NonEmptyAndDue(t)
    decreases |steps|
  {
    if steps != [] {
      var next := Apply(s, steps[0]);
      StepKeepsDue(s, steps[0]);
      StepConserves(s, steps[0]);
      StepKeepsBlocks(s, steps[0]);
      FlushesOnlyGrow(next, steps[1..], t);
      DueUntilFlushed(next, steps[1..], t);
    }
  }

  // ---- Building runs ----

  lemma {:induction false} RunSnoc(s: State, steps: seq<Step>, t: State, step: Step)
    requires Run(s, steps, t) && Enabled(t, step)
    ensures Run(s, steps + [step], Apply(t, step))
    decreases |steps|
  {
    if steps == [] {
      assert [step][1..] == [];
    } else {
      RunSnoc(Apply(s, steps[0]), steps[1..], t, step);
      assert (steps + [step])[1..] == steps[1..] + [step];
    }
  }

  // The state once an order has gone through the channel into an empty batch.
  function WithOrder(s: State, o: Order): State {
    s.(batch := AddOrder(s.batch, o, s.clock).0, accepted := s.accepted + [o], receiver := Checking)
  }

  ghost predicate HoldsOnly(b: Batch, o: Order) {
    && b.indices.Keys == {o.indexId}
    && b.indices[o.indexId].orders == [Info(o)] && b.indices[o.indexId].firstTime == o.timestamp
  }

  lemma OrderArrives(from: State, steps: seq<Step>, s: State, o: Order)
    requires Run(from, steps, s)
    requires s.receiver.Waiting? && s.channel == [] && s.batch.indices == map[]
    ensures Run(from, steps + [Submit(o)] + [Receive] + [AddToBatch], WithOrder(s, o))
    ensures HoldsOnly(WithOrder(s, o).batch, o)
  {
    var s1 := Apply(s, Submit(o));
    RunSnoc(from, steps, s, Submit(o));
    assert s1.channel == [o];
    var s2 := Apply(s1, Receive);
    RunSnoc(from, steps + [Submit(o)], s1, Receive);
    assert s2 == s1.(receiver := Holding(o), channel := []);
    FirstOrderTaken(s.batch, o, s.clock);
    RunSnoc(from, steps + [Submit(o)] + [Receive], s2, AddToBatch);
  }

  // The first order of an index is never refused.
  lemma FirstOrderTaken(b: Batch, o: Order, now: int)
    requires b.indices == map[]
    ensures AddOrder(b, o, now).1 && HoldsOnly(AddOrder(b, o, now).0, o)
  {
    var t := Touch(NewTotals(o.indexId, now), o);
    assert t.deposits == ZERO && t.withdrawals == ZERO;
    NewTotalsConsistent(o.indexId, now);
    AddActionConsistent(t, o, now);
    AddOrderAppends(b, o, now, o.indexId);
  }

  // The receive loop flushes an order that is already older than the window.
  lemma ReceiverFlushes(from: State, steps: seq<Step>, s: State, o: Order)
    returns (more: seq<Step>, t: State, batch: Batch)
    requires Run(from, steps, s)
    requires s.receiver.Waiting? && s.channel == [] && s.batch.indices == map[]
    requires !BlockDue(s.batch) && AsI64(s.batch.windowMs) <= s.clock - o.timestamp
    ensures Run(from, more, t)
    ensures t == s.(batch := NewBatch(s.batch.windowMs, s.block, s.clock), accepted := s.accepted + [o],
      flushed := s.flushed + [Flush(ByReceiver, batch)])
    ensures HoldsOnly(batch, o)
  {
    OrderArrives(from, steps, s, o);
    more := steps + [Submit(o)] + [Receive] + [AddToBatch];
    var u := WithOrder(s, o);
    assert o.indexId in u.batch.indices && AsI64(u.batch.windowMs) <= AgeMs(u.batch.indices[o.indexId], u.clock);
    RunSnoc(from, more, u, CheckDue);
    more, u := more + [CheckDue], Apply(u, CheckDue);
    RunSnoc(from, more, u, LoadBlock);
    more, u := more + [LoadBlock], Apply(u, LoadBlock);
    var trigger := Some(TimeWindow(AgeMs(u.batch.indices[o.indexId], u.clock)));
    RunSnoc(from, more, u, SwapBatch(trigger));
    more, t := more + [SwapBatch(trigger)], Apply(u, SwapBatch(trigger));
    batch := TakenBatch(u.batch, trigger).value;
  }

  // The keeper loop flushes it if it comes first.
  lemma KeeperFlushes(from: State, steps: seq<Step>, s: State, o: Order)
    returns (more: seq<Step>, t: State, batch: Batch)
    requires Run(from, steps, s)
    requires s.receiver.Waiting? && s.keeper.Resting? && s.channel == [] && s.batch.indices == map[]
    requires !BlockDue(s.batch) && AsI64(s.batch.windowMs) <= s.clock - o.timestamp
    ensures Run(from, more, t)
    ensures t == s.(batch := NewBatch(s.batch.windowMs, s.block, s.clock), accepted := s.accepted + [o],
      receiver := Checking, flushed := s.flushed + [Flush(ByKeeper, batch)])
    ensures HoldsOnly(batch, o)
  {
    OrderArrives(from, steps, s, o);
    more := steps + [Submit(o)] + [Receive] + [AddToBatch];
    var u := WithOrder(s, o);
    assert o.indexId in u.batch.indices && AsI64(u.batch.windowMs) <= AgeMs(u.batch.indices[o.indexId], u.clock);
    RunSnoc(from, more, u, KeeperCheckDue);
    more, u := more + [KeeperCheckDue], Apply(u, KeeperCheckDue);
    RunSnoc(from, more, u, KeeperLoadBlock);
    more, u := more + [KeeperLoadBlock], Apply(u, KeeperLoadBlock);
    var trigger := Some(TimeWindow(AgeMs(u.batch.indices[o.indexId], u.clock)));
    RunSnoc(from, more, u, KeeperSwapBatch(trigger));
    more, t := more + [KeeperSwapBatch(trigger)], Apply(u, KeeperSwapBatch(trigger));
    batch := TakenBatch(u.batch, trigger).value;
  }
}
