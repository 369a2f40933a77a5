// From accepted orders to confirmed settlement calls, over every run of the
// accumulator: the keeper loop's batches go through the split, the vendor gate
// and the chain, those of the receive loop go to the older submission path and
// never get there
// (bin/keeper/src/accumulator/accumulator.rs, processable.rs,
// bin/keeper/src/keeper/keeper.rs, bin/keeper/src/main.rs).
module CollateralFlow {
  import opened Prelude
  import opened IndexOrders
  import opened OrderBatching
  import opened AccumulatorRuns
  import opened Sorting
  import opened Processable
  import opened Settlement
  import SettlementRuns

  type Config = SettlementRuns.Config

  // Orders are counted, or their amounts added up.
  datatype Measure = Orders | Units

  function Weight(o: OrderInfo, m: Measure): nat {
    if m.Orders? then 1 else o.amount.raw
  }

  // One side of a list of orders.
  function Side(orders: seq<OrderInfo>, buys: bool, m: Measure): nat {
    if orders == [] then 0
    else
      var last := orders[|orders| - 1];
      Side(orders[..|orders| - 1], buys, m) + if last.isBuy == buys then Weight(last, m) else 0
  }

  function Settled(orders: seq<SettlementOrder>, m: Measure): nat {
    if m.Orders? then |orders| else AmountSum(orders)
  }

  lemma {:induction false} SideConcat(a: seq<OrderInfo>, b: seq<OrderInfo>, buys: bool, m: Measure)
    ensures Side(a + b, buys, m) == Side(a, buys, m) + Side(b, buys, m)
  {
    if b == [] {
      assert a + b == a;
    } else {
      var front := b[..|b| - 1];
      assert (a + b)[..|a + b| - 1] == a + front;
      SideConcat(a, front, buys, m);
    }
  }

  // Counting finds an order of the side exactly when there is one.
  lemma {:induction false} SideEmpty(orders: seq<OrderInfo>, buys: bool)
    ensures Side(orders, buys, Orders) == 0 <==> NoneOf(orders, buys)
  {
    if orders != [] {
      var front, last := orders[..|orders| - 1], orders[|orders| - 1];
      SideEmpty(front, buys);
      assert orders == front + [last];
    }
  }

  predicate NoneOf(orders: seq<OrderInfo>, buys: bool) {
    forall k :: 0 <= k < |orders| ==> orders[k].isBuy != buys
  }

  lemma {:induction false} SettlementsMeasure(t: IndexTotals, orders: seq<OrderInfo>, buys: bool, m: Measure)
    ensures Settled(Settlements(t, orders, buys), m) == Side(orders, buys, m)
  {
    if orders != [] {
      SettlementsMeasure(t, orders[..|orders| - 1], buys, m);
      var all := Settlements(t, orders, buys);
      assert orders[|orders| - 1].isBuy == buys ==> all[..|all| - 1] == Settlements(t, orders[..|orders| - 1], buys);
    }
  }

  // ---- What becomes of a flushed batch ----

  // The assets extracted for a batch, and what becomes of its pipeline's own
  // requests: the vendor's answer first, then the sends.
  datatype Gate = Gate(assets: Option<seq<U128>>, oracle: Oracle)

  predicate Opens(gate: Gate) {
    gate.assets.Some? && gate.assets.value != [] && gate.oracle(0) == Receipt(true)
  }

  // Only the keeper loop's batches are split, and planned if the gate opens;
  // the callback of the receive loop takes the others elsewhere.
  datatype Fate = Submitted | Barred | Planned

  function FateOf(f: Flush, gate: Gate): Fate {
    if f.flusher.ByReceiver? then Submitted else if Opens(gate) then Planned else Barred
  }

  // A run's flushed batches, how each hash map is walked and how each gate
  // decides.
  ghost predicate Handled(flushed: seq<Flush>, visits: seq<seq<U128>>, gates: seq<Gate>) {
    && |visits| == |gates| == |flushed|
    && forall i :: 0 <= i < |flushed| ==> Visits(flushed[i].batch, visits[i])
  }

  // One side of an index in the settlement orders planned for a batch.
  ghost function PlannedSide(batch: Batch, visit: seq<U128>, id: U128, buys: bool, m: Measure): nat
    requires Visits(batch, visit)
  {
    Settled(ForIndex(AllSettlements(batch.indices, visit, buys), id), m)
  }

  // Over all batches that are planned.
  ghost function PlannedTotal(
    flushed: seq<Flush>, visits: seq<seq<U128>>, gates: seq<Gate>, id: U128, buys: bool, m: Measure): nat
    requires Handled(flushed, visits, gates)
  {
    if flushed == [] then 0
    else
      var n := |flushed| - 1;
      assert Visits(flushed[n].batch, visits[n]);
      PlannedTotal(flushed[..n], visits[..n], gates[..n], id, buys, m)
        + if FateOf(flushed[n], gates[n]).Planned? then PlannedSide(flushed[n].batch, visits[n], id, buys, m) else 0
  }

  // What the batches of another fate carried off.
  function CarriedOff(flushed: seq<Flush>, gates: seq<Gate>, fate: Fate, id: U128, buys: bool, m: Measure): nat
    requires |gates| == |flushed|
  {
    if flushed == [] then 0
    else
      var n := |flushed| - 1;
      CarriedOff(flushed[..n], gates[..n], fate, id, buys, m)
        + if FateOf(flushed[n], gates[n]) == fate then Side(OrdersOf(flushed[n].batch, id), buys, m) else 0
  }

  lemma PlannedIsCarried(batch: Batch, visit: seq<U128>, id: U128, buys: bool, m: Measure)
    requires Visits(batch, visit) && ConsistentBatch(batch)
    ensures PlannedSide(batch, visit, id, buys, m) == Side(OrdersOf(batch, id), buys, m)
  {
    SplitPerIndex(batch, visit, buys, id);
    if id in batch.indices {
      SettlementsMeasure(batch.indices[id], batch.indices[id].orders, buys, m);
    }
  }

  lemma {:induction false} FlushedByFate(
    flushed: seq<Flush>, visits: seq<seq<U128>>, gates: seq<Gate>, id: U128, buys: bool, m: Measure)
    requires Handled(flushed, visits, gates)
    requires forall i :: 0 <= i < |flushed| ==> ConsistentBatch(flushed[i].batch)
    ensures PlannedTotal(flushed, visits, gates, id, buys, m)
        + CarriedOff(flushed, gates, Barred, id, buys, m) + CarriedOff(flushed, gates, Submitted, id, buys, m)
      == Side(FlushedOrders(flushed, id), buys, m)
  {
    if flushed != [] {
      var n := |flushed| - 1;
      assert Visits(flushed[n].batch, visits[n]) && ConsistentBatch(flushed[n].batch);
      FlushedByFate(flushed[..n], visits[..n], gates[..n], id, buys, m);
      PlannedIsCarried(flushed[n].batch, visits[n], id, buys, m);
      SideConcat(FlushedOrders(flushed[..n], id), OrdersOf(flushed[n].batch, id), buys, m);
    }
  }

  // ---- From settlement orders to verdicts ----

  // The payload the keeper builds for a batch.
  function BatchPayload(batch: Batch, visit: seq<U128>): Payload
    requires forall k :: k in visit ==> k in batch.indices
  {
    Payload(Sort(visit, Before), PendingAll(AllSettlements(batch.indices, visit, true)),
      PendingAll(AllSettlements(batch.indices, visit, false)))
  }

  lemma SplitGivesPayload(batch: Batch, visit: seq<U128>, p: ProcessableBatch)
    requires Visits(batch, visit) && p.indexIds == Sort(visit, Before)
    requires p.settlementBuys == AllSettlements(batch.indices, visit, true)
    requires p.settlementSells == AllSettlements(batch.indices, visit, false)
    ensures PayloadOf(p) == BatchPayload(batch, visit)
  {
  }

  // What one order's call comes to: a receipt without or with a revert, no
  // receipt in any attempt, or nothing but a rehearsal.
  datatype Verdict = Confirmed | Reverted | GivenUp | Rehearsed

  function VerdictOf(cfg: Config, plan: seq<Call>, c: nat, oracle: Oracle, n: nat): Verdict
    requires c < |plan|
  {
    if cfg.dryRun then Rehearsed
    else
      match ResultIn(plan, c, oracle, n, cfg.attempts)
      case Ok(receipt) => if receipt.status then Confirmed else Reverted
      case Err(_) => GivenUp
  }

  // No allowed send of call c gets a receipt.
  predicate RunsOut(plan: seq<Call>, c: nat, oracle: Oracle, n: nat, attempts: nat)
    requires c < |plan|
  {
    var first := n + |PlanTrace(plan, c, oracle, n, attempts)|;
    forall j :: first <= j < first + attempts ==> oracle(j).NoReceipt?
  }

  // The verdicts told from the chain alone.
  lemma VerdictCauses(cfg: Config, plan: seq<Call>, c: nat, oracle: Oracle, n: nat)
    requires c < |plan| && !cfg.dryRun
    ensures VerdictOf(cfg, plan, c, oracle, n) == Reverted <==> RevertDecides(plan, c, oracle, n, cfg.attempts)
    ensures VerdictOf(cfg, plan, c, oracle, n) == GivenUp <==> RunsOut(plan, c, oracle, n, cfg.attempts)
  {
    RevertedResult(plan, c, oracle, n, cfg.attempts);
    RetryResult(plan[c], oracle, n + |PlanTrace(plan, c, oracle, n, cfg.attempts)|, cfg.attempts);
  }

  function OneWeight(o: SettlementOrder, m: Measure): nat {
    if m.Orders? then 1 else o.amount.raw
  }

  // An index in a list of orders whose calls stand in the plan from `first` on,
  // by verdict.
  function Judged(
    cfg: Config, plan: seq<Call>, first: nat, orders: seq<SettlementOrder>, id: U128, oracle: Oracle, n: nat,
    v: Verdict, m: Measure): nat
    requires first + |orders| <= |plan|
  {
    if orders == [] then 0
    else
      var k := |orders| - 1;
      Judged(cfg, plan, first, orders[..k], id, oracle, n, v, m)
        + if orders[k].indexId == id && VerdictOf(cfg, plan, first + k, oracle, n) == v
          then OneWeight(orders[k], m) else 0
  }

  lemma SettledSnoc(orders: seq<SettlementOrder>, o: SettlementOrder, m: Measure)
    ensures Settled(orders + [o], m) == Settled(orders, m) + OneWeight(o, m)
  {
    assert (orders + [o])[..|orders|] == orders;
  }

  // Every order gets one verdict.
  lemma {:induction false} JudgedAddUp(
    cfg: Config, plan: seq<Call>, first: nat, orders: seq<SettlementOrder>, id: U128, oracle: Oracle, n: nat,
    m: Measure)
    requires first + |orders| <= |plan|
    ensures Judged(cfg, plan, first, orders, id, oracle, n, Confirmed, m)
        + Judged(cfg, plan, first, orders, id, oracle, n, Reverted, m)
        + Judged(cfg, plan, first, orders, id, oracle, n, GivenUp, m)
        + Judged(cfg, plan, first, orders, id, oracle, n, Rehearsed, m)
      == Settled(ForIndex(orders, id), m)
    decreases |orders|
  {
    if orders != [] {
      var k := |orders| - 1;
      JudgedAddUp(cfg, plan, first, orders[..k], id, oracle, n, m);
      SettledSnoc(ForIndex(orders[..k], id), orders[k], m);
    }
  }

  // No order of the index is decided by a revert, runs out of attempts or is
  // only rehearsed.
  predicate NoneFails(
    cfg: Config, plan: seq<Call>, first: nat, orders: seq<SettlementOrder>, id: U128, oracle: Oracle, n: nat)
    requires first + |orders| <= |plan|
  {
    forall j :: 0 <= j < |orders| && orders[j].indexId == id ==>
      !cfg.dryRun && !RevertDecides(plan, first + j, oracle, n, cfg.attempts)
      && !RunsOut(plan, first + j, oracle, n, cfg.attempts)
  }

  lemma NoneFailsSnoc(
    cfg: Config, plan: seq<Call>, first: nat, orders: seq<SettlementOrder>, id: U128, oracle: Oracle, n: nat)
    requires orders != [] && first + |orders| <= |plan|
    ensures var k := |orders| - 1;
      NoneFails(cfg, plan, first, orders, id, oracle, n) <==>
        NoneFails(cfg, plan, first, orders[..k], id, oracle, n)
        && (orders[k].indexId == id ==> VerdictOf(cfg, plan, first + k, oracle, n) == Confirmed)
  {
    var k := |orders| - 1;
    if !cfg.dryRun {
      VerdictCauses(cfg, plan, first + k, oracle, n);
    }
    assert forall j :: 0 <= j < k ==> orders[..k][j] == orders[j];
  }

  lemma {:induction false} AllConfirmed(
    cfg: Config, plan: seq<Call>, first: nat, orders: seq<SettlementOrder>, id: U128, oracle: Oracle, n: nat)
    requires first + |orders| <= |plan|
    ensures var confirmed := Judged(cfg, plan, first, orders, id, oracle, n, Confirmed, Orders);
      && confirmed <= |ForIndex(orders, id)|
      && (confirmed == |ForIndex(orders, id)| <==> NoneFails(cfg, plan, first, orders, id, oracle, n))
    decreases |orders|
  {
    if orders != [] {
      AllConfirmed(cfg, plan, first, orders[..|orders| - 1], id, oracle, n);
      NoneFailsSnoc(cfg, plan, first, orders, id, oracle, n);
    }
  }

  // ---- Over a planned batch, and over all ----

  function PlanFor(cfg: Config, batch: Batch, visit: seq<U128>): seq<Call>
    requires forall k :: k in visit ==> k in batch.indices
  {
    Plan(BatchPayload(batch, visit), cfg.fallback)
  }

  // Where the calls of a side begin, and that they all stand in the plan.
  function SideAt(cfg: Config, batch: Batch, visit: seq<U128>, buys: bool): (first: nat)
    requires forall k :: k in visit ==> k in batch.indices
    ensures first + |AllSettlements(batch.indices, visit, buys)| <= |PlanFor(cfg, batch, visit)|
  {
    var payload := BatchPayload(batch, visit);
    PlanSlices(payload, cfg.fallback);
    if buys then BuysAt(payload) else SellsAt(payload)
  }

  // The pipeline's request 0 asks the vendor, so its sends are numbered from 1.
  ghost function JudgedSide(
    cfg: Config, batch: Batch, visit: seq<U128>, oracle: Oracle, id: U128, buys: bool, v: Verdict, m: Measure): nat
    requires Visits(batch, visit)
  {
    Judged(cfg, PlanFor(cfg, batch, visit), SideAt(cfg, batch, visit, buys),
      AllSettlements(batch.indices, visit, buys), id, oracle, 1, v, m)
  }

  ghost predicate SideNoneFails(
    cfg: Config, batch: Batch, visit: seq<U128>, oracle: Oracle, id: U128, buys: bool)
    requires Visits(batch, visit)
  {
    NoneFails(cfg, PlanFor(cfg, batch, visit), SideAt(cfg, batch, visit, buys),
      AllSettlements(batch.indices, visit, buys), id, oracle, 1)
  }

  ghost function JudgedTotal(
    cfg: Config, flushed: seq<Flush>, visits: seq<seq<U128>>, gates: seq<Gate>, id: U128, buys: bool, v: Verdict,
    m: Measure): nat
    requires Handled(flushed, visits, gates)
  {
    if flushed == [] then 0
    else
      var k := |flushed| - 1;
      assert Visits(flushed[k].batch, visits[k]);
      JudgedTotal(cfg, flushed[..k], visits[..k], gates[..k], id, buys, v, m)
        + if FateOf(flushed[k], gates[k]).Planned?
          then JudgedSide(cfg, flushed[k].batch, visits[k], gates[k].oracle, id, buys, v, m) else 0
  }

  lemma {:induction false} PlannedIsJudged(
    cfg: Config, flushed: seq<Flush>, visits: seq<seq<U128>>, gates: seq<Gate>, id: U128, buys: bool, m: Measure)
    requires Handled(flushed, visits, gates)
    ensures PlannedTotal(flushed, visits, gates, id, buys, m)
      == JudgedTotal(cfg, flushed, visits, gates, id, buys, Confirmed, m)
        + JudgedTotal(cfg, flushed, visits, gates, id, buys, Reverted, m)
        + JudgedTotal(cfg, flushed, visits, gates, id, buys, GivenUp, m)
        + JudgedTotal(cfg, flushed, visits, gates, id, buys, Rehearsed, m)
  {
    if flushed != [] {
      var k := |flushed| - 1;
      assert Visits(flushed[k].batch, visits[k]);
      PlannedIsJudged(cfg, flushed[..k], visits[..k], gates[..k], id, buys, m);
      JudgedAddUp(cfg, PlanFor(cfg, flushed[k].batch, visits[k]), SideAt(cfg, flushed[k].batch, visits[k], buys),
        AllSettlements(flushed[k].batch.indices, visits[k], buys), id, gates[k].oracle, 1, m);
    }
  }

  // No order of this index and side fails on chain in any planned batch.
  ghost predicate NoPlannedFails(
    cfg: Config, flushed: seq<Flush>, visits: seq<seq<U128>>, gates: seq<Gate>, id: U128, buys: bool)
    requires Handled(flushed, visits, gates)
  {
    forall i :: 0 <= i < |flushed| && FateOf(flushed[i], gates[i]).Planned? ==>
      SideNoneFails(cfg, flushed[i].batch, visits[i], gates[i].oracle, id, buys)
  }

  lemma NoPlannedFailsSnoc(
    cfg: Config, flushed: seq<Flush>, visits: seq<seq<U128>>, gates: seq<Gate>, id: U128, buys: bool)
    requires Handled(flushed, visits, gates) && flushed != []
    ensures var k := |flushed| - 1;
      NoPlannedFails(cfg, flushed, visits, gates, id, buys) <==>
        NoPlannedFails(cfg, flushed[..k], visits[..k], gates[..k], id, buys)
        && (FateOf(flushed[k], gates[k]).Planned? ==>
             SideNoneFails(cfg, flushed[k].batch, visits[k], gates[k].oracle, id, buys))
  {
    var k := |flushed| - 1;
    assert forall i :: 0 <= i < k ==>
      flushed[..k][i] == flushed[i] && visits[..k][i] == visits[i] && gates[..k][i] == gates[i];
  }

  lemma {:induction false} AllPlannedConfirmed(
    cfg: Config, flushed: seq<Flush>, visits: seq<seq<U128>>, gates: seq<Gate>, id: U128, buys: bool)
    requires Handled(flushed, visits, gates)
    ensures var confirmed := JudgedTotal(cfg, flushed, visits, gates, id, buys, Confirmed, Orders);
      var planned := PlannedTotal(flushed, visits, gates, id, buys, Orders);
      && confirmed <= planned
      && (confirmed == planned <==> NoPlannedFails(cfg, flushed, visits, gates, id, buys))
  {
    if flushed != [] {
      var k := |flushed| - 1;
      assert Visits(flushed[k].batch, visits[k]);
      AllPlannedConfirmed(cfg, flushed[..k], visits[..k], gates[..k], id, buys);
      AllConfirmed(cfg, PlanFor(cfg, flushed[k].batch, visits[k]), SideAt(cfg, flushed[k].batch, visits[k], buys),
        AllSettlements(flushed[k].batch.indices, visits[k], buys), id, gates[k].oracle, 1);
      NoPlannedFailsSnoc(cfg, flushed, visits, gates, id, buys);
    }
  }

  // ---- The main results ----

  // One side of an index in the current batch, in hand and in the channel.
  function Waiting(s: State, id: U128, buys: bool, m: Measure): nat {
    Side(OrdersOf(s.batch, id), buys, m) + Side(InfosOf(Held(s) + s.channel, id), buys, m)
  }

  lemma PlannedConserved(
    windowMs: nat, now: int, steps: seq<Step>, s: State, visits: seq<seq<U128>>, gates: seq<Gate>,
    id: U128, buys: bool, m: Measure)
    requires Run(Initial(windowMs, now), steps, s)
    requires Handled(s.flushed, visits, gates)
    ensures PlannedTotal(s.flushed, visits, gates, id, buys, m)
        + CarriedOff(s.flushed, gates, Barred, id, buys, m) + CarriedOff(s.flushed, gates, Submitted, id, buys, m)
        + Waiting(s, id, buys, m) + Side(InfosOf(s.lost, id), buys, m)
      == Side(InfosOf(s.accepted, id), buys, m)
  {
    InitialInvariant(windowMs, now);
    RunInvariant(Initial(windowMs, now), steps, s);
    OrdersConserved(windowMs, now, steps, s, id);
    FlushedByFate(s.flushed, visits, gates, id, buys, m);
    var flushed, current := FlushedOrders(s.flushed, id), OrdersOf(s.batch, id);
    var pending := Held(s) + s.channel;
    InfosOfConcat(pending, s.lost, id);
    SideConcat(flushed, current, buys, m);
    SideConcat(flushed + current, InfosOf(pending + s.lost, id), buys, m);
    SideConcat(InfosOf(pending, id), InfosOf(s.lost, id), buys, m);
  }

  // Over every run, per index and side, in orders and to the last unit: what
  // is confirmed, reverted, given up, only rehearsed, barred at the gate,
  // submitted the old way, still waiting or lost to a panic is what was
  // accepted.
  lemma CollateralConserved(
    cfg: Config, windowMs: nat, now: int, steps: seq<Step>, s: State, visits: seq<seq<U128>>, gates: seq<Gate>,
    id: U128, buys: bool, m: Measure)
    requires Run(Initial(windowMs, now), steps, s)
    requires Handled(s.flushed, visits, gates)
    ensures JudgedTotal(cfg, s.flushed, visits, gates, id, buys, Confirmed, m)
        + JudgedTotal(cfg, s.flushed, visits, gates, id, buys, Reverted, m)
        + JudgedTotal(cfg, s.flushed, visits, gates, id, buys, GivenUp, m)
        + JudgedTotal(cfg, s.flushed, visits, gates, id, buys, Rehearsed, m)
        + CarriedOff(s.flushed, gates, Barred, id, buys, m) + CarriedOff(s.flushed, gates, Submitted, id, buys, m)
        + Waiting(s, id, buys, m) + Side(InfosOf(s.lost, id), buys, m)
      == Side(InfosOf(s.accepted, id), buys, m)
  {
    PlannedConserved(windowMs, now, steps, s, visits, gates, id, buys, m);
    PlannedIsJudged(cfg, s.flushed, visits, gates, id, buys, m);
  }

  predicate NothingCarriedOff(flushed: seq<Flush>, gates: seq<Gate>, fate: Fate, id: U128, buys: bool)
    requires |gates| == |flushed|
  {
    forall i :: 0 <= i < |flushed| && FateOf(flushed[i], gates[i]) == fate ==>
      NoneOf(OrdersOf(flushed[i].batch, id), buys)
  }

  lemma {:induction false} CarriedOffNothing(flushed: seq<Flush>, gates: seq<Gate>, fate: Fate, id: U128, buys: bool)
    requires |gates| == |flushed|
    ensures CarriedOff(flushed, gates, fate, id, buys, Orders) == 0
      <==> NothingCarriedOff(flushed, gates, fate, id, buys)
  {
    if flushed != [] {
      var n := |flushed| - 1;
      CarriedOffNothing(flushed[..n], gates[..n], fate, id, buys);
      SideEmpty(OrdersOf(flushed[n].batch, id), buys);
      NothingCarriedOffSnoc(flushed, gates, fate, id, buys);
    }
  }

  lemma NothingCarriedOffSnoc(flushed: seq<Flush>, gates: seq<Gate>, fate: Fate, id: U128, buys: bool)
    requires |gates| == |flushed| > 0
    ensures var n := |flushed| - 1;
      NothingCarriedOff(flushed, gates, fate, id, buys) <==>
        NothingCarriedOff(flushed[..n], gates[..n], fate, id, buys)
        && (FateOf(flushed[n], gates[n]) == fate ==> NoneOf(OrdersOf(flushed[n].batch, id), buys))
  {
    var n := |flushed| - 1;
    assert forall i :: 0 <= i < n ==> flushed[..n][i] == flushed[i] && gates[..n][i] == gates[i];
  }

  // Everything accepted is confirmed or still waiting exactly when the receive
  // loop flushed no order of this index and side, no gate barred one, no panic
  // lost one, and none that was planned reverts, runs out of attempts or is
  // only rehearsed.
  lemma AllConfirmedIff(
    cfg: Config, windowMs: nat, now: int, steps: seq<Step>, s: State, visits: seq<seq<U128>>, gates: seq<Gate>,
    id: U128, buys: bool)
    requires Run(Initial(windowMs, now), steps, s)
    requires Handled(s.flushed, visits, gates)
    ensures (JudgedTotal(cfg, s.flushed, visits, gates, id, buys, Confirmed, Orders) + Waiting(s, id, buys, Orders)
        == Side(InfosOf(s.accepted, id), buys, Orders)) <==>
      && NothingCarriedOff(s.flushed, gates, Submitted, id, buys)
      && NothingCarriedOff(s.flushed, gates, Barred, id, buys)
      && NoneOf(InfosOf(s.lost, id), buys)
      && NoPlannedFails(cfg, s.flushed, visits, gates, id, buys)
  {
    PlannedConserved(windowMs, now, steps, s, visits, gates, id, buys, Orders);
    AllPlannedConfirmed(cfg, s.flushed, visits, gates, id, buys);
    CarriedOffNothing(s.flushed, gates, Submitted, id, buys);
    CarriedOffNothing(s.flushed, gates, Barred, id, buys);
    SideEmpty(InfosOf(s.lost, id), buys);
  }

  // An order that reaches the accumulator already older than the window is
  // flushed by the receive loop: it was accepted, it waits nowhere, and
  // whatever the gates decide no call is ever planned for it.
  lemma ReceiverFlushNeverPlanned(windowMs: nat, now: int, o: Order) returns (steps: seq<Step>, s: State)
    requires AsI64(windowMs) <= now - o.timestamp
    ensures Run(Initial(windowMs, now), steps, s) && s.accepted == [o] && s.lost == []
    ensures Waiting(s, o.indexId, o.action.Deposit?, Orders) == 0
    ensures Side(InfosOf(s.accepted, o.indexId), o.action.Deposit?, Orders) == 1
    ensures forall visits, gates :: Handled(s.flushed, visits, gates) ==>
      PlannedTotal(s.flushed, visits, gates, o.indexId, o.action.Deposit?, Orders) == 0
  {
    var from := Initial(windowMs, now);
    var batch;
    assert Run(from, [], from);
    steps, s, batch := ReceiverFlushes(from, [], from, o);
    assert [] + [o] == [o];
    InfosOfOne(o, o.indexId);
    assert [Info(o)][..0] == [] && Side([Info(o)], o.action.Deposit?, Orders) == 1;
    forall visits, gates | Handled(s.flushed, visits, gates)
      ensures PlannedTotal(s.flushed, visits, gates, o.indexId, o.action.Deposit?, Orders) == 0
    {
      assert s.flushed[..0] == [];
    }
  }

  // A pipeline whose vendor accepts and whose sends all fail.
  const FAILING: Gate := Gate(Some([1]), n => if n == 0 then Receipt(true) else NoReceipt(false))

  // The same order flushed by the keeper loop instead, with an open gate: it
  // is planned, every attempt fails, and it is neither confirmed nor waiting,
  // with any number of attempts and in a dry run.
  lemma FailedSendsLoseOrder(cfg: Config, windowMs: nat, now: int, o: Order)
    returns (steps: seq<Step>, s: State, visits: seq<seq<U128>>, gates: seq<Gate>)
    requires AsI64(windowMs) <= now - o.timestamp
    ensures Run(Initial(windowMs, now), steps, s) && s.accepted == [o] && s.lost == []
    ensures Handled(s.flushed, visits, gates) && |gates| == 1 && FateOf(s.flushed[0], gates[0]).Planned?
    ensures NothingCarriedOff(s.flushed, gates, Submitted, o.indexId, o.action.Deposit?)
    ensures NothingCarriedOff(s.flushed, gates, Barred, o.indexId, o.action.Deposit?)
    ensures PlannedTotal(s.flushed, visits, gates, o.indexId, o.action.Deposit?, Orders) == 1
    ensures JudgedTotal(cfg, s.flushed, visits, gates, o.indexId, o.action.Deposit?, Confirmed, Orders) == 0
    ensures Waiting(s, o.indexId, o.action.Deposit?, Orders) == 0
  {
    var from := Initial(windowMs, now);
    var batch;
    assert Run(from, [], from);
    steps, s, batch := KeeperFlushes(from, [], from, o);
    visits, gates := [[o.indexId]], [FAILING];
    assert [] + [o] == [o] && s.flushed == [Flush(ByKeeper, batch)];
    assert Visits(batch, [o.indexId]) && Handled(s.flushed, visits, gates);
    InfosOfOne(o, o.indexId);
    assert [Info(o)][..0] == [] && Side([Info(o)], o.action.Deposit?, Orders) == 1;
    PlannedConserved(windowMs, now, steps, s, visits, gates, o.indexId, o.action.Deposit?, Orders);
    NothingConfirmed(cfg, PlanFor(cfg, batch, [o.indexId]), SideAt(cfg, batch, [o.indexId], o.action.Deposit?),
      AllSettlements(batch.indices, [o.indexId], o.action.Deposit?), o.indexId);
    assert s.flushed[..0] == [] && visits[..0] == [] && gates[..0] == [];
  }

  lemma {:induction false} NothingConfirmed(
    cfg: Config, plan: seq<Call>, first: nat, orders: seq<SettlementOrder>, id: U128)
    requires first + |orders| <= |plan|
    ensures Judged(cfg, plan, first, orders, id, FAILING.oracle, 1, Confirmed, Orders) == 0
    decreases |orders|
  {
    if orders != [] {
      var k := |orders| - 1;
      NothingConfirmed(cfg, plan, first, orders[..k], id);
      RetryResult(plan[first + k], FAILING.oracle,
        1 + |PlanTrace(plan, first + k, FAILING.oracle, 1, cfg.attempts)|, cfg.attempts);
    }
  }

  // ---- The keeper loop's side in code ----

  // What a call's result says about its order.
  predicate Says(r: CallResult, v: Verdict) {
    match v
    case Confirmed => r == Ok(TxReceipt(true))
    case Reverted => r == Ok(TxReceipt(false))
    case GivenUp => r.Err?
    case Rehearsed => r == Ok(TxReceipt(true))
  }

  ghost predicate ResultsSay(
    cfg: Config, plan: seq<Call>, first: nat, oracle: Oracle, n: nat, results: seq<(U128, CallResult)>)
    requires first + |results| <= |plan|
  {
    forall j :: 0 <= j < |results| ==> Says(results[j].1, VerdictOf(cfg, plan, first + j, oracle, n))
  }

  function ConfigOf(submitter: OnchainSubmitter): Config {
    SettlementRuns.Config(submitter.dryRun, submitter.retryAttempts, submitter.defaultMaxOrderSize)
  }

  lemma SideSays(
    submitter: OnchainSubmitter, start: seq<Attempt>, plan: seq<Call>, first: nat, end: nat, orders: seq<PendingOrder>,
    results: seq<(U128, CallResult)>)
    requires submitter.SideSettled(start, plan, first, end, orders, results)
    ensures ResultsSay(ConfigOf(submitter), plan, first, submitter.oracle, |start|, results)
  {
    forall j | 0 <= j < |results|
      ensures Says(results[j].1, VerdictOf(ConfigOf(submitter), plan, first + j, submitter.oracle, |start|))
    {
      assert results[j].1 == submitter.ResultAt(start, plan, first + j);
    }
  }

  // Every order of a batch has its result, and they are the verdicts the totals
  // above count.
  ghost predicate ResultsAreVerdicts(
    cfg: Config, batch: Batch, visit: seq<U128>, oracle: Oracle, n: nat, r: SettlementResult)
    requires Visits(batch, visit)
  {
    var plan := PlanFor(cfg, batch, visit);
    && |r.buyResults| == |AllSettlements(batch.indices, visit, true)|
    && |r.sellResults| == |AllSettlements(batch.indices, visit, false)|
    && ResultsSay(cfg, plan, SideAt(cfg, batch, visit, true), oracle, n, r.buyResults)
    && ResultsSay(cfg, plan, SideAt(cfg, batch, visit, false), oracle, n, r.sellResults)
  }

  lemma SettledSays(
    submitter: OnchainSubmitter, asked: seq<Attempt>, batch: Batch, visit: seq<U128>, r: SettlementResult)
    requires Visits(batch, visit)
    requires submitter.Settled(asked, BatchPayload(batch, visit), r.quoteTx, r.buyResults, r.sellResults)
    ensures ResultsAreVerdicts(ConfigOf(submitter), batch, visit, submitter.oracle, |asked|, r)
  {
    var payload, plan := BatchPayload(batch, visit), PlanFor(ConfigOf(submitter), batch, visit);
    PlanSlices(payload, submitter.defaultMaxOrderSize);
    SideSays(submitter, asked, plan, BuysAt(payload), SellsAt(payload), payload.buys, r.buyResults);
    SideSays(submitter, asked, plan, SellsAt(payload), |plan|, payload.sells, r.sellResults);
  }

  // A gate with these assets and this answer of the vendor.
  ghost predicate GateFor(gate: Gate, extraction: Option<Result<seq<U128>, ()>>, answer: SendOutcome) {
    && gate.assets == (if extraction.Some? && extraction.value.Ok? then Some(extraction.value.value) else None)
    && gate.oracle(0) == answer
  }

  lemma GateOpens(gate: Gate, extraction: Option<Result<seq<U128>, ()>>, answer: SendOutcome)
    requires GateFor(gate, extraction, answer)
    ensures Opens(gate) <==>
      extraction.Some? && extraction.value.Ok? && extraction.value.value != [] && answer == Receipt(true)
  {
  }

  // The keeper loop splits a flushed batch and hands it to the pipeline: the
  // requests are those of the batch's payload, it is settled exactly when its
  // gate opens, and the results are its verdicts.
  method HandleFlushed(
    submitter: OnchainSubmitter, batch: Batch, visit: seq<U128>, extraction: Option<Result<seq<U128>, ()>>)
    returns (settled: Option<SettlementResult>)
    requires Visits(batch, visit) && forall k :: k in batch.indices ==> batch.indices[k].indexId == k
    modifies submitter`sent
    ensures if extraction.Some? && extraction.value.Ok? && extraction.value.value != [] then
        var start, payload := old(submitter.sent), BatchPayload(batch, visit);
        && submitter.sent == start + submitter.Pipeline(start, payload, extraction.value.value)
        && (settled.Some? <==> submitter.oracle(|start|) == Receipt(true))
        && (settled.Some? ==>
             ResultsAreVerdicts(ConfigOf(submitter), batch, visit, submitter.oracle, |start| + 1, settled.value))
      else submitter.sent == old(submitter.sent) && settled == None
  {
    ghost var start := submitter.sent;
    var p := FromOrderBatch(batch, visit);
    SplitGivesPayload(batch, visit, p);
    settled := ProcessBatchPipeline(submitter, p, extraction);
    ghost var payload := BatchPayload(batch, visit);
    if extraction.Some? && extraction.value.Ok? && extraction.value.value != [] {
      submitter.AskedAndSettled(start, payload, extraction.value.value);
      if settled.Some? {
        ghost var asked := start + [submitter.Pipeline(start, payload, extraction.value.value)[0]];
        SettledSays(submitter, asked, batch, visit, settled.value);
      }
    }
  }

  // ---- Each order its own call ----

  // The calls of one side for an index, in their order.
  function CallsOn(plan: seq<Call>, id: U128, buys: bool): seq<Call> {
    if plan == [] then []
    else
      var last := plan[|plan| - 1];
      CallsOn(plan[..|plan| - 1], id, buys)
        + if (if buys then last.ProcessBuy? && last.indexId == id else last.ProcessSell? && last.indexId == id)
          then [last] else []
  }

  // The calls for a list of orders, each with its trader and the default size.
  function CallsWritten(orders: seq<SettlementOrder>, buys: bool, fallback: U128): (calls: seq<Call>)
    ensures |calls| == |orders|
  {
    seq(|orders|, k requires 0 <= k < |orders| =>
      if buys then ProcessBuy(orders[k].indexId, orders[k].trader, fallback)
      else ProcessSell(orders[k].indexId, orders[k].trader, fallback))
  }

  lemma {:induction false} CallsConcat(a: seq<Call>, b: seq<Call>, id: U128, buys: bool)
    ensures CallsOn(a + b, id, buys) == CallsOn(a, id, buys) + CallsOn(b, id, buys)
  {
    if b == [] {
      assert a + b == a;
    } else {
      assert (a + b)[..|a + b| - 1] == a + b[..|b| - 1];
      CallsConcat(a, b[..|b| - 1], id, buys);
    }
  }

  lemma CallsWrittenSnoc(orders: seq<SettlementOrder>, o: SettlementOrder, buys: bool, fallback: U128)
    ensures CallsWritten(orders + [o], buys, fallback)
      == CallsWritten(orders, buys, fallback)
        + [if buys then ProcessBuy(o.indexId, o.trader, fallback) else ProcessSell(o.indexId, o.trader, fallback)]
  {
  }

  lemma {:induction false} CallsOfSide(orders: seq<SettlementOrder>, buying: bool, fallback: U128, id: U128, buys: bool)
    ensures CallsOn(OrderCalls(PendingAll(orders), buying, fallback), id, buys)
      == if buying == buys then CallsWritten(ForIndex(orders, id), buys, fallback) else []
  {
    if orders != [] {
      var front, last := orders[..|orders| - 1], orders[|orders| - 1];
      CallsOfSide(front, buying, fallback, id, buys);
      var calls := OrderCalls(PendingAll(orders), buying, fallback);
      assert calls[..|calls| - 1] == OrderCalls(PendingAll(front), buying, fallback);
      CallsWrittenSnoc(ForIndex(front, id), last, buys, fallback);
    }
  }

  // The plan of a batch holds, per index and side, exactly one call for each of
  // the batch's orders, with its trader, in their order: the planned orders are
  // really called for.
  lemma EachOrderHasItsCall(batch: Batch, visit: seq<U128>, fallback: U128, id: U128, buys: bool)
    requires Visits(batch, visit) && ConsistentBatch(batch)
    ensures var calls := CallsOn(Plan(BatchPayload(batch, visit), fallback), id, buys);
      && calls == CallsWritten(ForIndex(AllSettlements(batch.indices, visit, buys), id), buys, fallback)
      && |calls| == Side(OrdersOf(batch, id), buys, Orders)
  {
    var payload := BatchPayload(batch, visit);
    var b, s := AllSettlements(batch.indices, visit, true), AllSettlements(batch.indices, visit, false);
    PlannedIsCarried(batch, visit, id, buys, Orders);
    CallsOfSide(b, true, fallback, id, buys);
    CallsOfSide(s, false, fallback, id, buys);
    QuotesUncalled(payload, id, buys);
    CallsOfParts(QuoteCalls(payload), OrderCalls(payload.buys, true, fallback),
      OrderCalls(payload.sells, false, fallback), id, buys);
  }

  lemma QuotesUncalled(payload: Payload, id: U128, buys: bool)
    ensures CallsOn(QuoteCalls(payload), id, buys) == []
  {
    var quotes := QuoteCalls(payload);
    assert quotes != [] ==> quotes[..0] == [];
  }

  lemma CallsOfParts(quotes: seq<Call>, b: seq<Call>, s: seq<Call>, id: U128, buys: bool)
    requires CallsOn(quotes, id, buys) == []
    ensures CallsOn(quotes + b + s, id, buys) == CallsOn(b, id, buys) + CallsOn(s, id, buys)
  {
    CallsConcat(quotes, b, id, buys);
    CallsConcat(quotes + b, s, id, buys);
    assert [] + CallsOn(b, id, buys) == CallsOn(b, id, buys);
  }

  // Every batch a run flushes is one the split is proved for: each index gets
  // exactly its own orders. Only the keeper loop's batches are split at all,
  // and planned once their gate opens.
  lemma FlushedBatchSplits(
    windowMs: nat, now: int, steps: seq<Step>, s: State, i: nat, visit: seq<U128>, gate: Gate, id: U128, buys: bool)
    requires Run(Initial(windowMs, now), steps, s)
    requires i < |s.flushed| && Visits(s.flushed[i].batch, visit) && id in s.flushed[i].batch.indices
    ensures FateOf(s.flushed[i], gate).Submitted? <==> s.flushed[i].flusher.ByReceiver?
    ensures FateOf(s.flushed[i], gate).Planned? <==> s.flushed[i].flusher.ByKeeper? && Opens(gate)
    ensures ForIndex(AllSettlements(s.flushed[i].batch.indices, visit, buys), id)
      == SideOf(s.flushed[i].batch.indices[id], buys)
    ensures AmountSum(ForIndex(AllSettlements(s.flushed[i].batch.indices, visit, buys), id))
      == Side(OrdersOf(s.flushed[i].batch, id), buys, Units)
    ensures s.flushed[i].batch.indices[id].indexId == id
  {
    InitialInvariant(windowMs, now);
    RunInvariant(Initial(windowMs, now), steps, s);
    SplitPerIndex(s.flushed[i].batch, visit, buys, id);
    PlannedIsCarried(s.flushed[i].batch, visit, id, buys, Units);
  }
}
