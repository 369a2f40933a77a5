// What is in a batch, told from the orders that were handed to it, over every
// run of the accumulator
// (bin/keeper/src/accumulator/types.rs, accumulator.rs).
module BatchContents {
  import opened Prelude
  import opened IndexOrders
  import opened OrderBatching
  import opened AccumulatorRuns

  // An order handed to a batch, when, and whether it was taken or ended the
  // receive task.
  datatype Given = Given(order: Order, time: int, taken: bool)

  // The orders handed to each flushed batch and to the current one.
  datatype History = History(past: seq<seq<Given>>, current: seq<Given>)

  const NO_HISTORY: History := History([], [])

  ghost function NextHistory(s: State, h: History, step: Step): History
    requires Enabled(s, step)
  {
    match step
    case AddToBatch =>
      h.(current := h.current + [Given(s.receiver.order, s.clock, !Apply(s, step).receiver.Stopped?)])
    case SwapBatch(_) => if s.batch.indices == map[] then h else History(h.past + [h.current], [])
    case KeeperSwapBatch(_) => if s.batch.indices == map[] then h else History(h.past + [h.current], [])
    case _ => h
  }

  ghost function HistoryOf(s: State, h: History, steps: seq<Step>, t: State): History
    requires Run(s, steps, t)
    decreases |steps|
  {
    if steps == [] then h
    else HistoryOf(Apply(s, steps[0]), NextHistory(s, h, steps[0]), steps[1..], t)
  }

  // ---- What the record of an index says ----

  predicate Concerns(given: seq<Given>, i: int, id: U128) {
    0 <= i < |given| && given[i].order.indexId == id
  }

  ghost predicate Mentioned(given: seq<Given>, id: U128) {
    exists i :: Concerns(given, i, id)
  }

  ghost function TakenFor(given: seq<Given>, id: U128): set<nat> {
    set i | 0 <= i < |given| && given[i].taken && given[i].order.indexId == id
  }

  // An order's own trader, or the zero address, its amount and its side.
  predicate CarriedAs(info: OrderInfo, o: Order) {
    && info.trader == (if o.trader.Some? then o.trader.value else 0)
    && info.amount == o.action.amount
    && (info.isBuy <==> o.action.Deposit?)
  }

  ghost predicate ListedAt(orders: seq<OrderInfo>, given: seq<Given>, id: U128, at: seq<nat>) {
    && Lists(at, TakenFor(given, id)) && |at| == |orders|
    && forall k :: 0 <= k < |at| ==> at[k] < |given| && CarriedAs(orders[k], given[at[k]].order)
  }

  // The orders listed are those taken, in their order.
  ghost predicate ListsOrders(orders: seq<OrderInfo>, given: seq<Given>, id: U128) {
    exists at :: ListedAt(orders, given, id, at)
  }

  // The vault is the last one an order named.
  ghost predicate VaultNamed(vault: Option<Address>, given: seq<Given>, id: U128) {
    if vault.None? then forall i :: Concerns(given, i, id) ==> given[i].order.vault == None
    else
      exists i :: Concerns(given, i, id) && given[i].order.vault == vault
        && forall j :: i < j && Concerns(given, j, id) ==> given[j].order.vault == None
  }

  // The first time is the time stamp of the first order, the last one the time
  // the last order was taken.
  ghost predicate FirstTimeOf(time: int, given: seq<Given>, id: U128) {
    exists i :: Concerns(given, i, id) && given[i].order.timestamp == time
      && forall j :: 0 <= j < i ==> !Concerns(given, j, id)
  }

  ghost predicate LastTimeOf(time: int, given: seq<Given>, id: U128) {
    exists i :: Concerns(given, i, id) && given[i].taken && given[i].time == time
      && forall j :: i < j && Concerns(given, j, id) ==> !given[j].taken
  }

  ghost predicate RecordOf(t: IndexTotals, given: seq<Given>, id: U128) {
    && t.indexId == id && ListsOrders(t.orders, given, id) && VaultNamed(t.vault, given, id)
    && FirstTimeOf(t.firstTime, given, id) && LastTimeOf(t.lastTime, given, id)
  }

  ghost predicate ContentsOf(indices: map<U128, IndexTotals>, given: seq<Given>) {
    forall id: U128 ::
      && (id in indices <==> Mentioned(given, id))
      && (id in indices ==> RecordOf(indices[id], given, id))
  }

  // ---- One more order ----

  lemma ConcernsSnoc(given: seq<Given>, g: Given, id: U128)
    ensures forall i :: Concerns(given + [g], i, id) <==>
      Concerns(given, i, id) || (i == |given| && g.order.indexId == id)
    ensures forall i :: Concerns(given, i, id) ==> (given + [g])[i] == given[i]
    ensures Mentioned(given + [g], id) <==> Mentioned(given, id) || g.order.indexId == id
  {
    var all := given + [g];
    assert forall i :: Concerns(given, i, id) ==> Concerns(all, i, id);
    assert g.order.indexId == id ==> Concerns(all, |given|, id);
  }

  lemma TakenForSnoc(given: seq<Given>, g: Given, id: U128)
    ensures TakenFor(given + [g], id)
      == TakenFor(given, id) + if g.taken && g.order.indexId == id then {|given|} else {}
  {
    assert forall i :: 0 <= i < |given| ==> (given + [g])[i] == given[i];
  }

  lemma ListedMore(orders: seq<OrderInfo>, given: seq<Given>, id: U128, at: seq<nat>, g: Given)
    requires ListedAt(orders, given, id, at) && g.taken && g.order.indexId == id
    ensures ListedAt(orders + [Info(g.order)], given + [g], id, at + [|given|])
  {
    TakenForSnoc(given, g, id);
    ListsSnoc(at, TakenFor(given, id), |given|);
    forall k | 0 <= k < |at|
      ensures at[k] < |given| && (given + [g])[at[k]] == given[at[k]]
    {
    }
  }

  lemma OrdersSnoc(orders: seq<OrderInfo>, given: seq<Given>, id: U128, g: Given)
    requires ListsOrders(orders, given, id)
    ensures ListsOrders(if g.taken && g.order.indexId == id then orders + [Info(g.order)] else orders, given + [g], id)
  {
    var at :| ListedAt(orders, given, id, at);
    if g.taken && g.order.indexId == id {
      ListedMore(orders, given, id, at, g);
    } else {
      TakenForSnoc(given, g, id);
      assert ListedAt(orders, given + [g], id, at);
    }
  }

  lemma VaultSnoc(vault: Option<Address>, given: seq<Given>, id: U128, g: Given)
    requires VaultNamed(vault, given, id)
    ensures VaultNamed(if g.order.indexId == id && g.order.vault.Some? then g.order.vault else vault, given + [g], id)
  {
    ConcernsSnoc(given, g, id);
    if g.order.indexId == id && g.order.vault.Some? {
      assert Concerns(given + [g], |given|, id);
    } else if vault.Some? {
      var i :| Concerns(given, i, id) && given[i].order.vault == vault
        && forall j :: i < j && Concerns(given, j, id) ==> given[j].order.vault == None;
      assert Concerns(given + [g], i, id);
    }
  }

  lemma FirstTimeSnoc(time: int, given: seq<Given>, id: U128, g: Given)
    requires if Mentioned(given, id) then FirstTimeOf(time, given, id)
      else g.order.indexId == id && time == g.order.timestamp
    ensures FirstTimeOf(time, given + [g], id)
  {
    ConcernsSnoc(given, g, id);
    if Mentioned(given, id) {
      var i :| Concerns(given, i, id) && given[i].order.timestamp == time
        && forall j :: 0 <= j < i ==> !Concerns(given, j, id);
      assert Concerns(given + [g], i, id);
    } else {
      assert Concerns(given + [g], |given|, id);
    }
  }

  lemma LastTimeSnoc(time: int, given: seq<Given>, id: U128, g: Given)
    requires if g.taken && g.order.indexId == id then time == g.time else LastTimeOf(time, given, id)
    ensures LastTimeOf(time, given + [g], id)
  {
    ConcernsSnoc(given, g, id);
    if g.taken && g.order.indexId == id {
      assert Concerns(given + [g], |given|, id);
    } else {
      var i :| Concerns(given, i, id) && given[i].taken && given[i].time == time
        && forall j :: i < j && Concerns(given, j, id) ==> !given[j].taken;
      assert Concerns(given + [g], i, id);
    }
  }

  // A record that does not change for an order that does not concern it.
  lemma OtherRecord(t: IndexTotals, given: seq<Given>, id: U128, g: Given)
    requires RecordOf(t, given, id) && Mentioned(given, id) && g.order.indexId != id
    ensures RecordOf(t, given + [g], id)
  {
    OrdersSnoc(t.orders, given, id, g);
    VaultSnoc(t.vault, given, id, g);
    FirstTimeSnoc(t.firstTime, given, id, g);
    LastTimeSnoc(t.lastTime, given, id, g);
  }

  // The first order of an index, which is never refused, and every further one.
  lemma OwnRecord(t: IndexTotals, given: seq<Given>, o: Order, now: int)
    requires t.indexId == o.indexId && Consistent(t)
    requires ListsOrders(t.orders, given, o.indexId) && VaultNamed(t.vault, given, o.indexId)
    requires if Mentioned(given, o.indexId) then
        0 < t.orderCount && FirstTimeOf(t.firstTime, given, o.indexId) && LastTimeOf(t.lastTime, given, o.indexId)
      else t.orderCount == 0
    ensures var (after, ok) := TakeOrder(t, o, now);
      RecordOf(after, given + [Given(o, now, ok)], o.indexId)
  {
    var (after, ok) := TakeOrder(t, o, now);
    var g := Given(o, now, ok);
    TakeOrderAppends(t, o, now);
    TakeOrderTouches(t, o, now);
    if !ok {
      RefusedHasOrders(Touch(t, o), o, now);
    }
    assert t.orders + [] == t.orders;
    OrdersSnoc(t.orders, given, o.indexId, g);
    VaultSnoc(t.vault, given, o.indexId, g);
    FirstTimeSnoc(after.firstTime, given, o.indexId, g);
    LastTimeSnoc(after.lastTime, given, o.indexId, g);
  }

  lemma NothingGiven(given: seq<Given>, id: U128)
    requires !Mentioned(given, id)
    ensures ListsOrders([], given, id) && VaultNamed(None, given, id)
  {
    assert forall i :: i in TakenFor(given, id) ==> Concerns(given, i, id);
    assert ListedAt([], given, id, []);
  }

  lemma AddOrderContents(b: Batch, given: seq<Given>, o: Order, now: int)
    requires ConsistentBatch(b) && Populated(b) && ContentsOf(b.indices, given)
    ensures var (after, ok) := AddOrder(b, o, now);
      ContentsOf(after.indices, given + [Given(o, now, ok)])
  {
    var (after, ok) := AddOrder(b, o, now);
    var g := Given(o, now, ok);
    EntryConsistent(b, o.indexId, now);
    if !Mentioned(given, o.indexId) {
      NothingGiven(given, o.indexId);
    }
    OwnRecord(Entry(b, o.indexId, now), given, o, now);
    forall id: U128
      ensures id in after.indices <==> Mentioned(given + [g], id)
      ensures id in after.indices ==> RecordOf(after.indices[id], given + [g], id)
    {
      ConcernsSnoc(given, g, id);
      if id != o.indexId && id in b.indices {
        OtherRecord(b.indices[id], given, id, g);
      }
    }
  }

  // ---- Over a run ----

  // The orders taken, in their order.
  function TakenOrders(given: seq<Given>): seq<Order> {
    if given == [] then []
    else
      var last := given[|given| - 1];
      TakenOrders(given[..|given| - 1]) + if last.taken then [last.order] else []
  }

  function Flatten(past: seq<seq<Given>>): seq<Given> {
    if past == [] then [] else Flatten(past[..|past| - 1]) + past[|past| - 1]
  }

  function AllGiven(h: History): seq<Given> {
    Flatten(h.past) + h.current
  }

  // Each batch holds what it was given.
  ghost predicate Filled(windowMs: nat, flushed: seq<Flush>, batch: Batch, h: History) {
    && |h.past| == |flushed| && ContentsOf(batch.indices, h.current) && batch.windowMs == windowMs
    && (forall i :: 0 <= i < |h.past| ==> FilledFrom(windowMs, flushed[i].batch, h.past[i]))
  }

  ghost predicate FilledFrom(windowMs: nat, batch: Batch, given: seq<Given>) {
    ContentsOf(batch.indices, given) && batch.windowMs == windowMs
  }

  // What was given and taken, then what is pending, is what was accepted, one
  // long queue.
  ghost predicate Queued(s: State, h: History) {
    TakenOrders(AllGiven(h)) + Pending(s) == s.accepted
  }

  ghost predicate Told(windowMs: nat, s: State, h: History) {
    Filled(windowMs, s.flushed, s.batch, h) && Queued(s, h)
  }

  lemma TakenSnoc(given: seq<Given>, g: Given)
    ensures TakenOrders(given + [g]) == TakenOrders(given) + if g.taken then [g.order] else []
  {
    assert (given + [g])[..|given|] == given;
  }

  lemma MoreGiven(h: History, g: Given)
    ensures AllGiven(h.(current := h.current + [g])) == AllGiven(h) + [g]
  {
  }

  // The order in hand leaves the queue's pending part only if it is taken.
  lemma AddHeldParts(s: State)
    requires s.receiver.Holding? && s.lost == []
    ensures Pending(s) == [s.receiver.order] + s.channel && AddHeld(s).accepted == s.accepted
    ensures Pending(AddHeld(s))
      == if AddHeld(s).receiver.Stopped? then [s.receiver.order] + s.channel else s.channel
  {
  }

  lemma AddQueued(s: State, h: History, g: Given)
    requires Queued(s, h) && s.receiver.Holding? && s.lost == []
    requires g.order == s.receiver.order && (g.taken <==> !AddHeld(s).receiver.Stopped?)
    ensures Queued(AddHeld(s), h.(current := h.current + [g]))
  {
    var taken := TakenOrders(AllGiven(h));
    TakenSnoc(AllGiven(h), g);
    MoreGiven(h, g);
    AddHeldParts(s);
    MovesOver(taken, g.order, s.channel, g.taken);
  }

  lemma MovesOver<T>(taken: seq<T>, x: T, rest: seq<T>, ok: bool)
    ensures taken + (if ok then [x] else []) + (if ok then rest else [x] + rest) == taken + ([x] + rest)
  {
    assert taken + [] == taken;
    assert taken + [x] + rest == taken + ([x] + rest);
  }

  lemma AddTold(windowMs: nat, s: State, h: History)
    requires Invariant(s) && Told(windowMs, s, h) && s.receiver.Holding?
    ensures Told(windowMs, AddHeld(s), NextHistory(s, h, AddToBatch))
  {
    AddOrderContents(s.batch, h.current, s.receiver.order, s.clock);
    AddQueued(s, h, Given(s.receiver.order, s.clock, !AddHeld(s).receiver.Stopped?));
  }

  // A flush moves what the current batch was given to the past.
  lemma SwapFilled(windowMs: nat, flushed: seq<Flush>, batch: Batch, h: History, f: Flush, left: Batch)
    requires Filled(windowMs, flushed, batch, h)
    requires f.batch.indices == batch.indices && f.batch.windowMs == windowMs
    requires left.indices == map[] && left.windowMs == windowMs
    ensures Filled(windowMs, flushed + [f], left, History(h.past + [h.current], []))
    ensures AllGiven(History(h.past + [h.current], [])) == AllGiven(h)
  {
    var next := History(h.past + [h.current], []);
    assert next.past[..|h.past|] == h.past;
    assert forall id: U128 :: !Mentioned([], id);
  }

  lemma SwapTold(windowMs: nat, s: State, h: History, step: Step)
    requires Told(windowMs, s, h) && Enabled(s, step) && (step.SwapBatch? || step.KeeperSwapBatch?)
    ensures Told(windowMs, Apply(s, step), NextHistory(s, h, step))
  {
    var t := Apply(s, step);
    assert Pending(t) == Pending(s);
    if s.batch.indices != map[] {
      SwapFilled(windowMs, s.flushed, s.batch, h, t.flushed[|s.flushed|], t.batch);
    }
  }

  lemma SubmitTold(windowMs: nat, s: State, h: History, o: Order)
    requires Invariant(s) && Told(windowMs, s, h)
    ensures Told(windowMs, Apply(s, Submit(o)), h)
  {
    if !s.receiver.Stopped? {
      SubmitPending(s, o);
      assert TakenOrders(AllGiven(h)) + (Pending(s) + [o]) == TakenOrders(AllGiven(h)) + Pending(s) + [o];
    }
  }

  lemma SubmitPending(s: State, o: Order)
    requires !s.receiver.Stopped? && s.lost == []
    ensures Pending(Apply(s, Submit(o))) == Pending(s) + [o]
    ensures Apply(s, Submit(o)) == s.(channel := s.channel + [o], accepted := s.accepted + [o])
  {
  }

  // No other step touches the orders, the batches or what is pending.
  lemma OtherTold(windowMs: nat, s: State, h: History, t: State)
    requires Told(windowMs, s, h) && t.flushed == s.flushed && t.accepted == s.accepted && Pending(t) == Pending(s)
    requires t.batch.indices == s.batch.indices && t.batch.windowMs == s.batch.windowMs
    ensures Told(windowMs, t, h)
  {
  }

  lemma StepTold(windowMs: nat, s: State, h: History, step: Step)
    requires Invariant(s) && Told(windowMs, s, h) && Enabled(s, step)
    ensures Told(windowMs, Apply(s, step), NextHistory(s, h, step))
  {
    match step
    case AddToBatch => AddTold(windowMs, s, h);
    case SwapBatch(_) => SwapTold(windowMs, s, h, step);
    case KeeperSwapBatch(_) => SwapTold(windowMs, s, h, step);
    case Submit(o) => SubmitTold(windowMs, s, h, o);
    case _ => OtherTold(windowMs, s, h, Apply(s, step));
  }

  lemma {:induction false} RunTold(windowMs: nat, s: State, h: History, steps: seq<Step>, t: State)
    requires Invariant(s) && Told(windowMs, s, h) && Run(s, steps, t)
    ensures Told(windowMs, t, HistoryOf(s, h, steps, t))
    decreases |steps|
  {
    if steps != [] {
      StepTold(windowMs, s, h, steps[0]);
      StepConserves(s, steps[0]);
      StepKeepsBlocks(s, steps[0]);
      RunTold(windowMs, Apply(s, steps[0]), NextHistory(s, h, steps[0]), steps[1..], t);
    }
  }

  ghost function FromStart(windowMs: nat, now: int, steps: seq<Step>, s: State): History
    requires Run(Initial(windowMs, now), steps, s)
  {
    HistoryOf(Initial(windowMs, now), NO_HISTORY, steps, s)
  }

  lemma StartTold(windowMs: nat, now: int)
    ensures Told(windowMs, Initial(windowMs, now), NO_HISTORY)
  {
    assert forall id: U128 :: !Mentioned([], id);
    assert TakenOrders(AllGiven(NO_HISTORY)) == [];
  }

  lemma AlwaysTold(windowMs: nat, now: int, steps: seq<Step>, s: State)
    requires Run(Initial(windowMs, now), steps, s)
    ensures Told(windowMs, s, FromStart(windowMs, now, steps, s))
  {
    InitialInvariant(windowMs, now);
    StartTold(windowMs, now);
    RunTold(windowMs, Initial(windowMs, now), NO_HISTORY, steps, s);
  }

  lemma QueueParts(s: State, h: History)
    requires Queued(s, h)
    ensures TakenOrders(AllGiven(h)) + Held(s) + s.channel + s.lost == s.accepted
  {
    var taken := TakenOrders(AllGiven(h));
    assert taken + Held(s) + s.channel + s.lost == taken + (Held(s) + s.channel + s.lost);
  }

  // The main result, over every run: each batch, flushed or not, has exactly the
  // indices of the orders it was given; per index it lists those taken with
  // their own traders and amounts, in order, the vault named last, and the first
  // and the last time; and the orders taken by all batches, one batch after the
  // other, followed by those pending are the accepted ones in the order of
  // submission.
  lemma BatchesHoldTheirOrders(windowMs: nat, now: int, steps: seq<Step>, s: State)
    requires Run(Initial(windowMs, now), steps, s)
    ensures var h := FromStart(windowMs, now, steps, s);
      && |h.past| == |s.flushed| && ContentsOf(s.batch.indices, h.current)
      && (forall i :: 0 <= i < |h.past| ==> ContentsOf(s.flushed[i].batch.indices, h.past[i]))
      && TakenOrders(AllGiven(h)) + Held(s) + s.channel + s.lost == s.accepted
    ensures s.batch.windowMs == windowMs && forall i :: 0 <= i < |s.flushed| ==> s.flushed[i].batch.windowMs == windowMs
  {
    var h := FromStart(windowMs, now, steps, s);
    AlwaysTold(windowMs, now, steps, s);
    QueueParts(s, h);
    forall i | 0 <= i < |h.past|
      ensures ContentsOf(s.flushed[i].batch.indices, h.past[i]) && s.flushed[i].batch.windowMs == windowMs
    {
      assert FilledFrom(windowMs, s.flushed[i].batch, h.past[i]);
    }
  }
}
