// What the trigger stamped on a flushed batch says, over every run of the
// accumulator (bin/keeper/src/accumulator/accumulator.rs, types.rs).
module FlushStamps {
  import opened Prelude
  import opened IndexOrders
  import opened OrderBatching
  import opened AccumulatorRuns
  import opened BlockTrigger

  // When each batch was flushed, and how many had been when each flusher last
  // found the batch due.
  datatype Log = Log(times: seq<int>, receiverChecked: nat, keeperChecked: nat)

  const NO_LOG: Log := Log([], 0, 0)

  ghost function NextLog(s: State, log: Log, step: Step): Log
    requires Enabled(s, step)
  {
    match step
    case CheckDue => log.(receiverChecked := |s.flushed|)
    case KeeperCheckDue => log.(keeperChecked := |s.flushed|)
    case SwapBatch(_) => if s.batch.indices == map[] then log else log.(times := log.times + [s.clock])
    case KeeperSwapBatch(_) => if s.batch.indices == map[] then log else log.(times := log.times + [s.clock])
    case _ => log
  }

  ghost function LogOf(s: State, log: Log, steps: seq<Step>, t: State): Log
    requires Run(s, steps, t)
    decreases |steps|
  {
    if steps == [] then log
    else LogOf(Apply(s, steps[0]), NextLog(s, log, steps[0]), steps[1..], t)
  }

  // A batch flushed at a time carries the trigger that held then: the block
  // change, told first, or the age of an index past the window; none held if it
  // is stamped as flushed by hand.
  ghost predicate StampTells(b: Batch, time: int) {
    match b.trigger
    case Some(BlockChange(before, after)) => 0 < before < after && before == b.startBlock && after == b.currentBlock
    case Some(TimeWindow(age)) =>
      && !(0 < b.startBlock < b.currentBlock) && AsI64(b.windowMs) <= age
      && exists k :: k in b.indices && age == time - b.indices[k].firstTime
    case Some(Manual) =>
      && !(0 < b.startBlock < b.currentBlock)
      && forall k :: k in b.indices ==> time - b.indices[k].firstTime < AsI64(b.windowMs)
    case None => false
  }

  // A batch stamped as flushed by hand was flushed by the keeper loop, right
  // behind one of the receive loop.
  ghost predicate StampAt(flushed: seq<Flush>, times: seq<int>, i: nat)
    requires i < |flushed| == |times|
  {
    && StampTells(flushed[i].batch, times[i])
    && (flushed[i].batch.trigger == Some(Manual) ==>
         flushed[i].flusher == ByKeeper && 0 < i && flushed[i - 1].flusher == ByReceiver)
  }

  ghost predicate AllStamped(flushed: seq<Flush>, log: Log) {
    |log.times| == |flushed| && forall i :: 0 <= i < |flushed| ==> StampAt(flushed, log.times, i)
  }

  // A flush under way found the batch due; since then either it is still due, or
  // the other flusher has been there. After a flush of the keeper loop nothing
  // is added before the receive loop is done with its own.
  ghost predicate ReceiverUnderWay(s: State, checked: nat) {
    s.receiver.Loading? || s.receiver.Swapping? ==>
      && checked <= |s.flushed|
      && (if checked == |s.flushed| then Due(s.batch, s.clock) else s.batch.indices == map[])
  }

  ghost predicate KeeperUnderWay(s: State, checked: nat) {
    s.keeper.KeeperLoading? || s.keeper.KeeperSwapping? ==>
      && checked <= |s.flushed|
      && (if checked == |s.flushed| then Due(s.batch, s.clock)
          else s.flushed[|s.flushed| - 1].flusher == ByReceiver)
  }

  ghost predicate Stamped(s: State, log: Log) {
    && AllStamped(s.flushed, log)
    && ReceiverUnderWay(s, log.receiverChecked) && KeeperUnderWay(s, log.keeperChecked)
  }

  lemma TriggerTells(b: Batch, now: int, trigger: Option<FlushTrigger>)
    requires TriggerOf(b, now, trigger) && b.indices != map[]
    ensures StampTells(TakenBatch(b, trigger).value, now)
    ensures TakenBatch(b, trigger).value.trigger == Some(Manual) ==> !Due(b, now)
  {
    var taken := TakenBatch(b, trigger).value;
    if trigger.Some? && trigger.value.TimeWindow? {
      var k :| k in b.indices && trigger.value.ageMs == AgeMs(b.indices[k], now);
      assert k in taken.indices;
    }
  }

  lemma StampedSnoc(flushed: seq<Flush>, log: Log, f: Flush, now: int)
    requires AllStamped(flushed, log) && StampTells(f.batch, now)
    requires f.batch.trigger == Some(Manual) ==>
      f.flusher == ByKeeper && flushed != [] && flushed[|flushed| - 1].flusher == ByReceiver
    ensures AllStamped(flushed + [f], log.(times := log.times + [now]))
  {
    var all, times := flushed + [f], log.times + [now];
    forall i | 0 <= i < |all|
      ensures StampAt(all, times, i)
    {
      if i < |flushed| {
        assert StampAt(flushed, log.times, i);
      }
    }
  }

  lemma SwapStamped(s: State, log: Log, step: Step)
    requires Stamped(s, log) && Enabled(s, step) && (step.SwapBatch? || step.KeeperSwapBatch?)
    ensures AllStamped(Apply(s, step).flushed, NextLog(s, log, step))
  {
    if s.batch.indices != map[] {
      TriggerTells(s.batch, s.clock, step.trigger);
      StampedSnoc(s.flushed, log, Apply(s, step).flushed[|s.flushed|], s.clock);
    }
  }

  lemma ReceiverStays(s: State, log: Log, step: Step)
    requires Invariant(s) && Stamped(s, log) && Enabled(s, step)
    ensures ReceiverUnderWay(Apply(s, step), NextLog(s, log, step).receiverChecked)
  {
    if Due(s.batch, s.clock) {
      DueStays(s, step);
    }
  }

  lemma KeeperStays(s: State, log: Log, step: Step)
    requires Invariant(s) && Stamped(s, log) && Enabled(s, step)
    ensures KeeperUnderWay(Apply(s, step), NextLog(s, log, step).keeperChecked)
  {
    if Due(s.batch, s.clock) {
      DueStays(s, step);
    }
  }

  lemma StepStamped(s: State, log: Log, step: Step)
    requires Invariant(s) && Stamped(s, log) && Enabled(s, step)
    ensures Stamped(Apply(s, step), NextLog(s, log, step))
  {
    ReceiverStays(s, log, step);
    KeeperStays(s, log, step);
    if step.SwapBatch? || step.KeeperSwapBatch? {
      SwapStamped(s, log, step);
    } else {
      assert Apply(s, step).flushed == s.flushed && NextLog(s, log, step).times == log.times;
    }
  }

  lemma {:induction false} RunStamped(s: State, log: Log, steps: seq<Step>, t: State)
    requires Invariant(s) && Stamped(s, log) && Run(s, steps, t)
    ensures Stamped(t, LogOf(s, log, steps, t))
    decreases |steps|
  {
    if steps != [] {
      StepStamped(s, log, steps[0]);
      StepConserves(s, steps[0]);
      StepKeepsBlocks(s, steps[0]);
      RunStamped(Apply(s, steps[0]), NextLog(s, log, steps[0]), steps[1..], t);
    }
  }

  // Over every run each flushed batch tells truly why it was flushed, and only
  // the keeper loop ever flushes one for no reason left: the batch it found due
  // had been flushed by the receive loop in the meantime.
  lemma StampsTell(windowMs: nat, now: int, steps: seq<Step>, s: State, i: nat)
    requires Run(Initial(windowMs, now), steps, s) && i < |s.flushed|
    ensures var times := LogOf(Initial(windowMs, now), NO_LOG, steps, s).times;
      |times| == |s.flushed| && StampTells(s.flushed[i].batch, times[i])
    ensures s.flushed[i].batch.trigger == Some(Manual) ==>
      s.flushed[i].flusher == ByKeeper && 0 < i && s.flushed[i - 1].flusher == ByReceiver
  {
    InitialInvariant(windowMs, now);
    RunStamped(Initial(windowMs, now), NO_LOG, steps, s);
    assert StampAt(s.flushed, LogOf(Initial(windowMs, now), NO_LOG, steps, s).times, i);
  }

  // Both flushers find an old deposit due, and the receive loop flushes it.
  lemma FoundDueTwice() returns (steps: seq<Step>, s: State)
    ensures Run(Initial(WINDOW, 0), steps, s)
    ensures s.receiver.Waiting? && s.keeper.KeeperLoading? && s.channel == [] && s.clock == 0
    ensures s.batch == NewBatch(WINDOW, 0, 0) && |s.flushed| == 1
  {
    var from := Initial(WINDOW, 0);
    var o := DepositAt(-WINDOW);
    OrderArrives(from, [], from, o);
    steps, s := [] + [Submit(o)] + [Receive] + [AddToBatch], WithOrder(from, o);
    assert o.indexId in s.batch.indices && AsI64(s.batch.windowMs) <= AgeMs(s.batch.indices[o.indexId], s.clock);
    RunSnoc(from, steps, s, KeeperCheckDue);
    steps, s := steps + [KeeperCheckDue], Apply(s, KeeperCheckDue);
    RunSnoc(from, steps, s, CheckDue);
    steps, s := steps + [CheckDue], Apply(s, CheckDue);
    RunSnoc(from, steps, s, LoadBlock);
    steps, s := steps + [LoadBlock], Apply(s, LoadBlock);
    var trigger := Some(TimeWindow(AgeMs(s.batch.indices[o.indexId], s.clock)));
    RunSnoc(from, steps, s, SwapBatch(trigger));
    steps, s := steps + [SwapBatch(trigger)], Apply(s, SwapBatch(trigger));
  }

  // The keeper loop, on its way to flush, flushes whatever it finds.
  lemma FlushedByHand(from: State, steps: seq<Step>, s: State) returns (more: seq<Step>, t: State)
    requires Run(from, steps, s) && s.keeper.KeeperLoading? && s.batch.indices != map[] && !Due(s.batch, s.clock)
    ensures Run(from, more, t) && t.clock == s.clock
    ensures t.flushed == s.flushed + [Flush(ByKeeper, s.batch.(trigger := Some(Manual)))]
  {
    RunSnoc(from, steps, s, KeeperLoadBlock);
    more, t := steps + [KeeperLoadBlock], Apply(s, KeeperLoadBlock);
    RunSnoc(from, more, t, KeeperSwapBatch(None));
    more, t := more + [KeeperSwapBatch(None)], Apply(t, KeeperSwapBatch(None));
  }

  lemma WithOrderKeeps(s: State, o: Order)
    ensures var t := WithOrder(s, o);
      && t.flushed == s.flushed && t.clock == s.clock && t.keeper == s.keeper
      && t.batch.startBlock == s.batch.startBlock && t.batch.currentBlock == s.batch.currentBlock
  {
    AddOrderAppends(s.batch, o, s.clock, o.indexId);
  }

  lemma YoungDeposit(from: State, steps: seq<Step>, s: State) returns (more: seq<Step>, t: State)
    requires Run(from, steps, s)
    requires s.receiver.Waiting? && s.channel == [] && s.batch.indices == map[]
    requires !BlockDue(s.batch) && s.batch.windowMs == WINDOW
    ensures Run(from, more, t)
    ensures t.flushed == s.flushed && t.clock == s.clock && t.keeper == s.keeper
    ensures HoldsOnly(t.batch, DepositAt(s.clock)) && t.batch.indices != map[] && !Due(t.batch, t.clock)
  {
    var o := DepositAt(s.clock);
    FirstOrderTaken(s.batch, o, s.clock);
    WithOrderKeeps(s, o);
    more, t := FreshDeposit(from, steps, s);
  }

  // It does happen: a deposit not a millisecond old is flushed for no reason.
  lemma FlushedForNoReason() returns (steps: seq<Step>, s: State)
    ensures Run(Initial(WINDOW, 0), steps, s)
    ensures |s.flushed| == 2 && s.flushed[1].flusher == ByKeeper
    ensures s.flushed[1].batch.trigger == Some(Manual)
    ensures HoldsOnly(s.flushed[1].batch, DepositAt(0)) && s.clock == 0
  {
    var from := Initial(WINDOW, 0);
    steps, s := FoundDueTwice();
    steps, s := YoungDeposit(from, steps, s);
    steps, s := FlushedByHand(from, steps, s);
  }
}
