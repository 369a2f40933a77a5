// When a new block really makes the batch due, over every run of the
// accumulator (bin/keeper/src/accumulator/accumulator.rs, types.rs).
module BlockTrigger {
  import opened Prelude
  import opened FixedPoint
  import opened IndexOrders
  import opened OrderBatching
  import opened AccumulatorRuns

  // Positions in a run, counted from one; zero means at start-up. `made` is
  // the flush that made the current batch, `loaded` its earlier reading of the
  // block number and `loadedBlock` what it read; `raised` is the last store of
  // a higher block, `wrote` the last write of a block into a batch and
  // `written` that block.
  datatype Stamps = Stamps(
    time: nat, raised: nat, wrote: nat, written: nat, made: nat, loaded: nat, loadedBlock: nat,
    receiverLoaded: nat, keeperLoaded: nat)

  const NONE_YET: Stamps := Stamps(0, 0, 0, 0, 0, 0, 0, 0, 0)

  ghost function NextStamps(s: State, st: Stamps, step: Step): Stamps
    requires Enabled(s, step)
  {
    var now := st.time + 1;
    var u := st.(time := now);
    match step
    case StoreBlock(b) => if s.block < b then u.(raised := now) else u
    case WriteBlock => u.(wrote := now, written := s.updater.block)
    case LoadBlock => u.(receiverLoaded := now)
    case KeeperLoadBlock => u.(keeperLoaded := now)
    case SwapBatch(_) =>
      if s.batch.indices == map[] then u
      else u.(made := now, loaded := st.receiverLoaded, loadedBlock := s.receiver.block)
    case KeeperSwapBatch(_) =>
      if s.batch.indices == map[] then u
      else u.(made := now, loaded := st.keeperLoaded, loadedBlock := s.keeper.block)
    case _ => u
  }

  ghost function StampsOf(s: State, st: Stamps, steps: seq<Step>, t: State): Stamps
    requires Run(s, steps, t)
    decreases |steps|
  {
    if steps == [] then st
    else StampsOf(Apply(s, steps[0]), NextStamps(s, st, steps[0]), steps[1..], t)
  }

  // A number read at position `at` is still the block exactly when no higher
  // one was stored since.
  predicate Read(s: State, st: Stamps, at: nat, block: nat) {
    at <= st.time && block <= s.block && (block == s.block <==> st.raised <= at)
  }

  ghost predicate Dated(s: State, st: Stamps) {
    && st.raised <= st.time && st.wrote <= st.time && st.made <= st.time
    && (st.made == st.wrote ==> st.made == 0)
    && s.batch.startBlock == st.loadedBlock
    && s.batch.currentBlock == (if st.made < st.wrote then st.written else st.loadedBlock)
    && Read(s, st, st.loaded, st.loadedBlock)
    && (s.receiver.Swapping? ==> Read(s, st, st.receiverLoaded, s.receiver.block))
    && (s.keeper.KeeperSwapping? ==> Read(s, st, st.keeperLoaded, s.keeper.block))
    && (s.updater.Quiet? ==> st.written == s.block && st.raised <= st.wrote)
    && (s.updater.Writing? ==> s.updater.block == s.block)
  }

  lemma LoadKeepsDated(s: State, st: Stamps, step: Step)
    requires Dated(s, st) && Enabled(s, step) && (step.LoadBlock? || step.KeeperLoadBlock?)
    ensures Dated(Apply(s, step), NextStamps(s, st, step))
  {
  }

  lemma SwapKeepsDated(s: State, st: Stamps, step: Step)
    requires Dated(s, st) && Enabled(s, step) && (step.SwapBatch? || step.KeeperSwapBatch?)
    ensures Dated(Apply(s, step), NextStamps(s, st, step))
  {
  }

  lemma UpdateKeepsDated(s: State, st: Stamps, step: Step)
    requires Dated(s, st) && Enabled(s, step) && (step.StoreBlock? || step.WriteBlock?)
    ensures Dated(Apply(s, step), NextStamps(s, st, step))
  {
  }

  // No other step touches a block number or a flush under way.
  lemma OtherKeepsDated(s: State, st: Stamps, t: State)
    requires Dated(s, st) && t.block == s.block && t.updater == s.updater
    requires t.batch.startBlock == s.batch.startBlock && t.batch.currentBlock == s.batch.currentBlock
    requires t.receiver == s.receiver || !t.receiver.Swapping?
    requires t.keeper == s.keeper || !t.keeper.KeeperSwapping?
    ensures Dated(t, st.(time := st.time + 1))
  {
  }

  lemma StepKeepsDated(s: State, st: Stamps, step: Step)
    requires Dated(s, st) && Enabled(s, step)
    ensures Dated(Apply(s, step), NextStamps(s, st, step))
  {
    match step
    case LoadBlock => LoadKeepsDated(s, st, step);
    case KeeperLoadBlock => LoadKeepsDated(s, st, step);
    case SwapBatch(_) => SwapKeepsDated(s, st, step);
    case KeeperSwapBatch(_) => SwapKeepsDated(s, st, step);
    case StoreBlock(_) => UpdateKeepsDated(s, st, step);
    case WriteBlock => UpdateKeepsDated(s, st, step);
    case _ => OtherKeepsDated(s, st, Apply(s, step));
  }

  lemma {:induction false} RunKeepsDated(s: State, st: Stamps, steps: seq<Step>, t: State)
    requires Dated(s, st) && Run(s, steps, t)
    ensures Dated(t, StampsOf(s, st, steps, t))
    decreases |steps|
  {
    if steps != [] {
      StepKeepsDated(s, st, steps[0]);
      RunKeepsDated(Apply(s, steps[0]), NextStamps(s, st, steps[0]), steps[1..], t);
    }
  }

  // Once a block has been written into a batch, the batch is due by block
  // exactly when the flush that made it had read a number that is neither zero
  // nor that block.
  lemma WrittenBlockDue(windowMs: nat, now: int, steps: seq<Step>, s: State)
    requires Run(Initial(windowMs, now), steps, s)
    ensures var st := StampsOf(Initial(windowMs, now), NONE_YET, steps, s);
      st.made < st.wrote ==> (BlockDue(s.batch) <==> 0 < st.loadedBlock < st.written)
  {
    RunKeepsDated(Initial(windowMs, now), NONE_YET, steps, s);
  }

  // With no write pending, the batch has missed the current block exactly when
  // the flush that made it read the number before the last higher one was
  // stored and swapped the batch after the last write.
  lemma MissedBlock(windowMs: nat, now: int, steps: seq<Step>, s: State)
    requires Run(Initial(windowMs, now), steps, s) && s.updater.Quiet?
    ensures var st := StampsOf(Initial(windowMs, now), NONE_YET, steps, s);
      s.batch.currentBlock < s.block <==> st.loaded < st.raised && st.wrote < st.made
  {
    RunKeepsDated(Initial(windowMs, now), NONE_YET, steps, s);
  }

  // A block newer than the one a batch was made under makes it due exactly
  // when that one was not zero and some block was written after the swap.
  lemma NewBlockDue(windowMs: nat, now: int, steps: seq<Step>, s: State)
    requires Run(Initial(windowMs, now), steps, s) && s.updater.Quiet?
    ensures var st := StampsOf(Initial(windowMs, now), NONE_YET, steps, s);
      && (BlockDue(s.batch) ==> st.loadedBlock < s.block)
      && (st.loadedBlock < s.block ==> (BlockDue(s.batch) <==> 0 < st.loadedBlock && st.made < st.wrote))
  {
    RunKeepsDated(Initial(windowMs, now), NONE_YET, steps, s);
  }

  // ---- Two runs in which a new block goes unnoticed ----

  const WINDOW: int := 100

  function DepositAt(time: int): Order {
    Order(1, Deposit(ONE), time, None, Some(7))
  }

  // A fresh deposit leaves the batch non-empty and not due by time.
  lemma FreshDeposit(from: State, steps: seq<Step>, s: State) returns (more: seq<Step>, t: State)
    requires Run(from, steps, s)
    requires s.receiver.Waiting? && s.channel == [] && s.batch.indices == map[]
    requires !BlockDue(s.batch) && s.batch.windowMs == WINDOW
    ensures Run(from, more, t)
    ensures t == WithOrder(s, DepositAt(s.clock)).(receiver := Waiting)
    ensures t.batch.indices != map[] && !TimeDue(t.batch, t.clock)
  {
    var o := DepositAt(s.clock);
    OrderArrives(from, steps, s, o);
    more := steps + [Submit(o)] + [Receive] + [AddToBatch];
    var u := WithOrder(s, o);
    RunSnoc(from, more, u, CheckDue);
    more, t := more + [CheckDue], Apply(u, CheckDue);
  }

  lemma BlockArrives(from: State, steps: seq<Step>, s: State, block: nat) returns (more: seq<Step>, t: State)
    requires Run(from, steps, s) && s.updater.Quiet? && s.block <= block
    ensures Run(from, more, t)
    ensures t == s.(block := block, batch := s.batch.(currentBlock := block))
    ensures TimeDue(t.batch, t.clock) == TimeDue(s.batch, s.clock)
  {
    RunSnoc(from, steps, s, StoreBlock(block));
    var u := Apply(s, StoreBlock(block));
    RunSnoc(from, steps + [StoreBlock(block)], u, WriteBlock);
    more, t := steps + [StoreBlock(block)] + [WriteBlock], Apply(u, WriteBlock);
    SameTimeDue(s.batch, block, s.clock);
  }

  lemma SameTimeDue(b: Batch, block: nat, now: int)
    ensures TimeDue(b.(currentBlock := block), now) == TimeDue(b, now)
  {
    var c := b.(currentBlock := block);
    assert forall k :: k in b.indices ==> AgeMs(b.indices[k], now) == AgeMs(c.indices[k], now);
  }

  lemma FlushedAtBlockZero() returns (steps: seq<Step>, s: State)
    ensures Run(Initial(WINDOW, 0), steps, s)
    ensures s.receiver.Waiting? && s.channel == [] && s.updater.Quiet? && s.block == 0
    ensures s.batch == NewBatch(WINDOW, 0, 0) && |s.flushed| == 1
  {
    var from := Initial(WINDOW, 0);
    var batch;
    assert Run(from, [], from);
    steps, s, batch := ReceiverFlushes(from, [], from, DepositAt(-WINDOW));
  }

  // A batch made while the block number was still zero ignores block 5.
  lemma BatchMadeAtBlockZero() returns (steps: seq<Step>, s: State)
    ensures Run(Initial(WINDOW, 0), steps, s)
    ensures |s.flushed| == 1 && s.batch.indices != map[] && s.batch.currentBlock == 5 && !Due(s.batch, s.clock)
  {
    steps, s := FlushedAtBlockZero();
    steps, s := FreshDeposit(Initial(WINDOW, 0), steps, s);
    steps, s := BlockArrives(Initial(WINDOW, 0), steps, s, 5);
  }

  // A flush that read block 5 swaps the batch after block 9 was written into
  // the old one: the new batch holds orders, and block 9 went by unnoticed.
  lemma SwapAfterWrite() returns (steps: seq<Step>, s: State)
    ensures Run(Initial(WINDOW, 0), steps, s)
    ensures s.receiver.Waiting? && s.keeper.Resting? && s.updater.Quiet?
    ensures s.batch.indices != map[] && !Due(s.batch, s.clock)
    ensures s.batch.startBlock == s.batch.currentBlock == 5 && s.block == 9
  {
    var from := Initial(WINDOW, 0);
    steps, s := BlockArrives(from, [], from, 5);
    var o := DepositAt(-WINDOW);
    OrderArrives(from, steps, s, o);
    steps, s := steps + [Submit(o)] + [Receive] + [AddToBatch], WithOrder(s, o);
    assert o.indexId in s.batch.indices && AsI64(s.batch.windowMs) <= AgeMs(s.batch.indices[o.indexId], s.clock);
    RunSnoc(from, steps, s, CheckDue);
    steps, s := steps + [CheckDue], Apply(s, CheckDue);
    RunSnoc(from, steps, s, LoadBlock);
    steps, s := steps + [LoadBlock], Apply(s, LoadBlock);
    var indices := s.batch.indices;
    steps, s := BlockArrives(from, steps, s, 9);
    assert s.batch.indices == indices;
    var trigger := Some(TimeWindow(AgeMs(s.batch.indices[o.indexId], s.clock)));
    RunSnoc(from, steps, s, SwapBatch(trigger));
    steps, s := steps + [SwapBatch(trigger)], Apply(s, SwapBatch(trigger));
    steps, s := FreshDeposit(from, steps, s);
  }
}
