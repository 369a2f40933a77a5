// Settling a batch on chain: retries, the mandated call order, and the gate the
// keeper puts in front of it (bin/keeper/src/onchain/submitter.rs,
// bin/keeper/src/keeper/keeper.rs).
module Settlement {
  import opened Prelude
  import opened IndexOrders
  import opened Processable

  // What the keeper asks of others: the vendor by HTTP, the chain by
  // transactions.
  datatype Call =
    | AskVendor(assets: seq<U128>)
    | UpdateQuotes(indexIds: seq<U128>)
    | ProcessBuy(indexId: U128, trader: Address, maxSize: U128)
    | ProcessSell(indexId: U128, trader: Address, maxSize: U128)

  // What becomes of the n-th request. A receipt may report a revert; without a
  // receipt the transaction may still have landed and taken effect, which the
  // code cannot see. The vendor accepts with Receipt(true) only.
  datatype SendOutcome = Receipt(status: bool) | NoReceipt(landed: bool)

  datatype Attempt = Attempt(call: Call, outcome: SendOutcome)

  datatype TxReceipt = TxReceipt(status: bool)
  datatype SendError = SendFailed | NoAttempts

  type CallResult = Result<TxReceipt, SendError>
  type Oracle = nat -> SendOutcome

  // ---- One call with retries ----

  // The sends a call makes, the first of them being send number n.
  function CallTrace(call: Call, oracle: Oracle, n: nat, attempts: nat): (trace: seq<Attempt>)
    ensures |trace| <= attempts
    decreases attempts
  {
    if attempts == 0 then []
    else if oracle(n).Receipt? then [Attempt(call, oracle(n))]
    else [Attempt(call, oracle(n))] + CallTrace(call, oracle, n + 1, attempts - 1)
  }

  // The outcome of the last send decides.
  function ResultOf(trace: seq<Attempt>): CallResult {
    if trace == [] then Err(NoAttempts)
    else
      match trace[|trace| - 1].outcome
      case Receipt(status) => Ok(TxReceipt(status))
      case NoReceipt(_) => Err(SendFailed)
  }

  // At least one send unless no attempts are allowed, and only the last can
  // have a receipt.
  lemma {:induction false} RetryShape(call: Call, oracle: Oracle, n: nat, attempts: nat)
    ensures var trace := CallTrace(call, oracle, n, attempts);
      && (trace == [] <==> attempts == 0)
      && (forall j :: 0 <= j < |trace| ==> trace[j].call == call)
      && (forall j :: 0 <= j < |trace| - 1 ==> trace[j].outcome.NoReceipt?)
    decreases attempts
  {
    if attempts > 0 && oracle(n).NoReceipt? {
      RetryShape(call, oracle, n + 1, attempts - 1);
    }
  }

  // A call succeeds exactly when one of its allowed sends would get a receipt,
  // and fails only after using them all.
  lemma {:induction false} RetryResult(call: Call, oracle: Oracle, n: nat, attempts: nat)
    ensures var trace := CallTrace(call, oracle, n, attempts);
      && (ResultOf(trace).Ok? <==> exists j :: n <= j < n + attempts && oracle(j).Receipt?)
      && (ResultOf(trace).Err? ==> |trace| == attempts)
    decreases attempts
  {
    if attempts > 0 && oracle(n).NoReceipt? {
      RetryResult(call, oracle, n + 1, attempts - 1);
      var rest := CallTrace(call, oracle, n + 1, attempts - 1);
      var trace := CallTrace(call, oracle, n, attempts);
      assert rest != [] ==> trace[|trace| - 1] == rest[|rest| - 1];
    }
  }

  predicate TookEffect(a: Attempt) {
    a.outcome == Receipt(true) || a.outcome == NoReceipt(true)
  }

  // How often the chain carried the call out.
  function Effects(trace: seq<Attempt>): nat {
    if trace == [] then 0 else (if TookEffect(trace[0]) then 1 else 0) + Effects(trace[1..])
  }

  // The call was carried out as often as its result says, once or not at all,
  // exactly when no transaction landed without its receipt.
  lemma {:induction false} ResultAgainstEffects(call: Call, oracle: Oracle, n: nat, attempts: nat)
    ensures var trace := CallTrace(call, oracle, n, attempts);
      var reported := if ResultOf(trace) == Ok(TxReceipt(true)) then 1 else 0;
      && reported <= Effects(trace)
      && (Effects(trace) == reported <==> forall j :: 0 <= j < |trace| ==> trace[j].outcome != NoReceipt(true))
    decreases attempts
  {
    if attempts > 0 {
      var trace := CallTrace(call, oracle, n, attempts);
      if oracle(n).Receipt? {
        assert trace[1..] == [];
      } else {
        var rest := CallTrace(call, oracle, n + 1, attempts - 1);
        ResultAgainstEffects(call, oracle, n + 1, attempts - 1);
        assert trace == [trace[0]] + rest && trace[1..] == rest;
        assert rest != [] ==> trace[|trace| - 1] == rest[|rest| - 1];
      }
    }
  }

  // Only the first receipt is lost.
  function LosesFirst(n: nat): SendOutcome {
    if n == 0 then NoReceipt(true) else Receipt(true)
  }

  // A lost receipt makes the retry carry a buy out a second time.
  lemma LostReceiptRepeats(indexId: U128, trader: Address, size: U128)
    ensures var trace := CallTrace(ProcessBuy(indexId, trader, size), LosesFirst, 0, 2);
      ResultOf(trace) == Ok(TxReceipt(true)) && Effects(trace) == 2
  {
    var call := ProcessBuy(indexId, trader, size);
    var second := [Attempt(call, Receipt(true))];
    assert CallTrace(call, LosesFirst, 1, 1) == second;
    var trace := CallTrace(call, LosesFirst, 0, 2);
    assert trace == [Attempt(call, NoReceipt(true))] + second;
    assert trace[1..] == second && second[1..] == [];
    assert Effects(second) == 1;
  }

  // After one more send, what a call has still to send and what it will
  // return.
  lemma OneSend(call: Call, oracle: Oracle, sent: seq<Attempt>, left: nat)
    requires 0 < left
    ensures var now := sent + [Attempt(call, oracle(|sent|))];
      var whole := CallTrace(call, oracle, |sent|, left);
      if oracle(|sent|).Receipt? then
        && sent + whole == now
        && ResultOf(whole) == Ok(TxReceipt(oracle(|sent|).status))
      else
        var rest := CallTrace(call, oracle, |sent| + 1, left - 1);
        && sent + whole == now + rest
        && ResultOf(whole) == if left == 1 then Err(SendFailed) else ResultOf(rest)
  {
    var attempt := Attempt(call, oracle(|sent|));
    if attempt.outcome.NoReceipt? {
      var rest := CallTrace(call, oracle, |sent| + 1, left - 1);
      assert sent + ([attempt] + rest) == sent + [attempt] + rest;
      RetryShape(call, oracle, |sent| + 1, left - 1);
      LastOfConcat([attempt], rest);
    }
  }

  lemma LastOfConcat(a: seq<Attempt>, b: seq<Attempt>)
    requires a != []
    ensures ResultOf(a + b) == if b == [] then ResultOf(a) else ResultOf(b)
  {
    if b == [] {
      assert a + b == a;
    }
  }

  // ---- A list of calls ----

  // The sends of the first c calls of a plan.
  function PlanTrace(plan: seq<Call>, c: nat, oracle: Oracle, n: nat, attempts: nat): seq<Attempt>
    requires c <= |plan|
    decreases c, 0
  {
    if c == 0 then []
    else PlanTrace(plan, c - 1, oracle, n, attempts) + TraceOf(plan, c - 1, oracle, n, attempts)
  }

  // The sends of call c, which start where those of the earlier calls end.
  function TraceOf(plan: seq<Call>, c: nat, oracle: Oracle, n: nat, attempts: nat): seq<Attempt>
    requires c < |plan|
    decreases c, 1
  {
    CallTrace(plan[c], oracle, n + |PlanTrace(plan, c, oracle, n, attempts)|, attempts)
  }

  lemma NextSends(start: seq<Attempt>, plan: seq<Call>, c: nat, oracle: Oracle, attempts: nat)
    requires c < |plan|
    ensures var sent := start + PlanTrace(plan, c, oracle, |start|, attempts);
      && TraceOf(plan, c, oracle, |start|, attempts) == CallTrace(plan[c], oracle, |sent|, attempts)
      && start + PlanTrace(plan, c + 1, oracle, |start|, attempts)
           == sent + CallTrace(plan[c], oracle, |sent|, attempts)
  {
    var before := PlanTrace(plan, c, oracle, |start|, attempts);
    var next := TraceOf(plan, c, oracle, |start|, attempts);
    assert |start + before| == |start| + |before|;
    assert start + (before + next) == start + before + next;
  }

  function Rank(call: Call): nat {
    match call
    case AskVendor(_) => 0
    case UpdateQuotes(_) => 1
    case ProcessBuy(_, _, _) => 2
    case ProcessSell(_, _, _) => 3
  }

  predicate RanksAscend(plan: seq<Call>) {
    forall i, j :: 0 <= i < j < |plan| ==> Rank(plan[i]) <= Rank(plan[j])
  }

  predicate TraceAscends(trace: seq<Attempt>) {
    forall a, b :: 0 <= a < b < |trace| ==> Rank(trace[a].call) <= Rank(trace[b].call)
  }

  predicate RanksUpTo(trace: seq<Attempt>, rank: nat) {
    forall a :: 0 <= a < |trace| ==> Rank(trace[a].call) <= rank
  }

  // Nothing of a later kind is sent before everything of an earlier kind.
  lemma {:induction false} TraceRanksAscend(plan: seq<Call>, c: nat, oracle: Oracle, n: nat, attempts: nat)
    requires c <= |plan| && RanksAscend(plan)
    ensures TraceAscends(PlanTrace(plan, c, oracle, n, attempts))
    ensures 0 < c ==> RanksUpTo(PlanTrace(plan, c, oracle, n, attempts), Rank(plan[c - 1]))
  {
    if c > 0 {
      TraceRanksAscend(plan, c - 1, oracle, n, attempts);
      var before := PlanTrace(plan, c - 1, oracle, n, attempts);
      var last := TraceOf(plan, c - 1, oracle, n, attempts);
      RetryShape(plan[c - 1], oracle, n + |before|, attempts);
      assert RanksUpTo(before, Rank(plan[c - 1]));
      AppendRanked(before, last, Rank(plan[c - 1]));
    }
  }

  lemma AppendRanked(before: seq<Attempt>, last: seq<Attempt>, rank: nat)
    requires TraceAscends(before) && RanksUpTo(before, rank)
    requires forall a :: 0 <= a < |last| ==> Rank(last[a].call) == rank
    ensures TraceAscends(before + last) && RanksUpTo(before + last, rank)
  {
  }

  // Every planned call has its own run of sends in the whole trace, whatever
  // became of the calls before it.
  lemma {:induction false} CallHasItsSends(plan: seq<Call>, c: nat, d: nat, oracle: Oracle, n: nat, attempts: nat)
    requires c < d <= |plan|
    ensures PlanTrace(plan, c, oracle, n, attempts) + TraceOf(plan, c, oracle, n, attempts)
      <= PlanTrace(plan, d, oracle, n, attempts)
    ensures 0 < attempts ==> TraceOf(plan, c, oracle, n, attempts) != []
    decreases d
  {
    RetryShape(plan[c], oracle, n + |PlanTrace(plan, c, oracle, n, attempts)|, attempts);
    if c + 1 < d {
      CallHasItsSends(plan, c, d - 1, oracle, n, attempts);
    }
  }

  // ---- Receipts, confirmations and effects of a plan ----

  function ResultIn(plan: seq<Call>, c: nat, oracle: Oracle, n: nat, attempts: nat): CallResult
    requires c < |plan|
  {
    ResultOf(TraceOf(plan, c, oracle, n, attempts))
  }

  // The calls from `first` up to `end` that got a receipt at all.
  function ReceiptedIn(plan: seq<Call>, first: nat, end: nat, oracle: Oracle, n: nat, attempts: nat): nat
    requires first <= end <= |plan|
  {
    if first == end then 0
    else
      ReceiptedIn(plan, first, end - 1, oracle, n, attempts)
        + if ResultIn(plan, end - 1, oracle, n, attempts).Ok? then 1 else 0
  }

  // Those whose receipt does not report a revert.
  function ConfirmedIn(plan: seq<Call>, first: nat, end: nat, oracle: Oracle, n: nat, attempts: nat): nat
    requires first <= end <= |plan|
  {
    if first == end then 0
    else
      ConfirmedIn(plan, first, end - 1, oracle, n, attempts)
        + if ResultIn(plan, end - 1, oracle, n, attempts) == Ok(TxReceipt(true)) then 1 else 0
  }

  // The number of the send that decides call c: the last one made for it.
  function DecidingSend(plan: seq<Call>, c: nat, oracle: Oracle, n: nat, attempts: nat): nat
    requires c < |plan| && 0 < attempts
  {
    RetryShape(plan[c], oracle, n + |PlanTrace(plan, c, oracle, n, attempts)|, attempts);
    n + |PlanTrace(plan, c, oracle, n, attempts)| + |TraceOf(plan, c, oracle, n, attempts)| - 1
  }

  predicate RevertDecides(plan: seq<Call>, c: nat, oracle: Oracle, n: nat, attempts: nat)
    requires c < |plan|
  {
    0 < attempts && oracle(DecidingSend(plan, c, oracle, n, attempts)) == Receipt(false)
  }

  lemma {:induction false} LastOutcome(call: Call, oracle: Oracle, n: nat, attempts: nat)
    requires 0 < attempts
    ensures var trace := CallTrace(call, oracle, n, attempts);
      trace != [] && trace[|trace| - 1].outcome == oracle(n + |trace| - 1)
    decreases attempts
  {
    if oracle(n).NoReceipt? && 1 < attempts {
      LastOutcome(call, oracle, n + 1, attempts - 1);
    }
  }

  // Receipts outnumber confirmations exactly when some call is decided by a
  // revert.
  lemma {:induction false} ReceiptsAgainstReverts(
    plan: seq<Call>, first: nat, end: nat, oracle: Oracle, n: nat, attempts: nat)
    requires first <= end <= |plan|
    ensures ConfirmedIn(plan, first, end, oracle, n, attempts) <= ReceiptedIn(plan, first, end, oracle, n, attempts)
    ensures ReceiptedIn(plan, first, end, oracle, n, attempts) == ConfirmedIn(plan, first, end, oracle, n, attempts)
      <==> forall c :: first <= c < end ==> !RevertDecides(plan, c, oracle, n, attempts)
    decreases end
  {
    if first != end {
      ReceiptsAgainstReverts(plan, first, end - 1, oracle, n, attempts);
      RevertedResult(plan, end - 1, oracle, n, attempts);
    }
  }

  lemma RevertedResult(plan: seq<Call>, c: nat, oracle: Oracle, n: nat, attempts: nat)
    requires c < |plan|
    ensures ResultIn(plan, c, oracle, n, attempts) == Ok(TxReceipt(false))
      <==> RevertDecides(plan, c, oracle, n, attempts)
  {
    if 0 < attempts {
      LastOutcome(plan[c], oracle, n + |PlanTrace(plan, c, oracle, n, attempts)|, attempts);
    }
  }

  lemma {:induction false} EffectsConcat(a: seq<Attempt>, b: seq<Attempt>)
    ensures Effects(a + b) == Effects(a) + Effects(b)
  {
    if a == [] {
      assert a + b == b;
    } else {
      assert (a + b)[1..] == a[1..] + b;
      EffectsConcat(a[1..], b);
    }
  }

  predicate NoneLost(trace: seq<Attempt>) {
    forall j :: 0 <= j < |trace| ==> trace[j].outcome != NoReceipt(true)
  }

  // The calls decided by a revert.
  function RevertsIn(plan: seq<Call>, c: nat, oracle: Oracle, n: nat, attempts: nat): nat
    requires c <= |plan|
  {
    if c == 0 then 0
    else
      RevertsIn(plan, c - 1, oracle, n, attempts)
        + if RevertDecides(plan, c - 1, oracle, n, attempts) then 1 else 0
  }

  // The sends that land without a receipt.
  function Landings(trace: seq<Attempt>): nat {
    if trace == [] then 0 else (if trace[0].outcome == NoReceipt(true) then 1 else 0) + Landings(trace[1..])
  }

  lemma {:induction false} LandingsConcat(a: seq<Attempt>, b: seq<Attempt>)
    ensures Landings(a + b) == Landings(a) + Landings(b)
  {
    if a == [] {
      assert a + b == b;
    } else {
      assert (a + b)[1..] == a[1..] + b;
      LandingsConcat(a[1..], b);
    }
  }

  // One call's effects are its confirmation and its unreceipted landings.
  lemma {:induction false} CallEffects(call: Call, oracle: Oracle, n: nat, attempts: nat)
    ensures var trace := CallTrace(call, oracle, n, attempts);
      Effects(trace) == Landings(trace) + (if ResultOf(trace) == Ok(TxReceipt(true)) then 1 else 0)
    decreases attempts
  {
    if attempts > 0 {
      var trace := CallTrace(call, oracle, n, attempts);
      if oracle(n).Receipt? {
        assert trace[1..] == [];
      } else {
        var rest := CallTrace(call, oracle, n + 1, attempts - 1);
        CallEffects(call, oracle, n + 1, attempts - 1);
        assert trace == [trace[0]] + rest && trace[1..] == rest;
        assert rest != [] ==> trace[|trace| - 1] == rest[|rest| - 1];
      }
    }
  }

  lemma {:induction false} NoLandings(trace: seq<Attempt>)
    ensures Landings(trace) == 0 <==> NoneLost(trace)
  {
    if trace != [] {
      NoLandings(trace[1..]);
      NoneLostCons(trace);
    }
  }

  lemma NoneLostCons(trace: seq<Attempt>)
    requires trace != []
    ensures NoneLost(trace) <==> trace[0].outcome != NoReceipt(true) && NoneLost(trace[1..])
  {
    assert forall j :: 0 < j < |trace| ==> trace[j] == trace[1..][j - 1];
  }

  // A plan's effects are its confirmations and its unreceipted landings.
  lemma {:induction false} PlanEffects(plan: seq<Call>, c: nat, oracle: Oracle, n: nat, attempts: nat)
    requires c <= |plan|
    ensures var trace := PlanTrace(plan, c, oracle, n, attempts);
      Effects(trace) == ConfirmedIn(plan, 0, c, oracle, n, attempts) + Landings(trace)
  {
    if c > 0 {
      PlanEffects(plan, c - 1, oracle, n, attempts);
      var before := PlanTrace(plan, c - 1, oracle, n, attempts);
      var last := TraceOf(plan, c - 1, oracle, n, attempts);
      CallEffects(plan[c - 1], oracle, n + |before|, attempts);
      EffectsConcat(before, last);
      LandingsConcat(before, last);
    }
  }

  // A whole plan is carried out as often as it is confirmed exactly when no
  // send of it lands without its receipt.
  lemma PlanAgainstEffects(plan: seq<Call>, c: nat, oracle: Oracle, n: nat, attempts: nat)
    requires c <= |plan|
    ensures var trace := PlanTrace(plan, c, oracle, n, attempts);
      && ConfirmedIn(plan, 0, c, oracle, n, attempts) <= Effects(trace)
      && (Effects(trace) == ConfirmedIn(plan, 0, c, oracle, n, attempts) <==> NoneLost(trace))
  {
    PlanEffects(plan, c, oracle, n, attempts);
    NoLandings(PlanTrace(plan, c, oracle, n, attempts));
  }

  // Receipts are confirmations or reverts.
  lemma {:induction false} ReceiptsSplit(plan: seq<Call>, c: nat, oracle: Oracle, n: nat, attempts: nat)
    requires c <= |plan|
    ensures ReceiptedIn(plan, 0, c, oracle, n, attempts)
      == ConfirmedIn(plan, 0, c, oracle, n, attempts) + RevertsIn(plan, c, oracle, n, attempts)
  {
    if c > 0 {
      ReceiptsSplit(plan, c - 1, oracle, n, attempts);
      RevertedResult(plan, c - 1, oracle, n, attempts);
    }
  }

  // For every plan and chain: the calls carried out and those decided by a
  // revert are together the calls receipted and the unreceipted landings.
  lemma EffectsAndReverts(plan: seq<Call>, c: nat, oracle: Oracle, n: nat, attempts: nat)
    requires c <= |plan|
    ensures var trace := PlanTrace(plan, c, oracle, n, attempts);
      Effects(trace) + RevertsIn(plan, c, oracle, n, attempts)
        == ReceiptedIn(plan, 0, c, oracle, n, attempts) + Landings(trace)
  {
    PlanEffects(plan, c, oracle, n, attempts);
    ReceiptsSplit(plan, c, oracle, n, attempts);
  }

  // So a plan is carried out as often as it is receipted exactly when reverts
  // and unreceipted landings balance.
  lemma CarriedOutAsReceipted(plan: seq<Call>, oracle: Oracle, n: nat, attempts: nat)
    ensures var trace := PlanTrace(plan, |plan|, oracle, n, attempts);
      Effects(trace) == ReceiptedIn(plan, 0, |plan|, oracle, n, attempts)
      <==> RevertsIn(plan, |plan|, oracle, n, attempts) == Landings(trace)
  {
    EffectsAndReverts(plan, |plan|, oracle, n, attempts);
  }

  // ---- Settling a batch ----

  datatype PendingOrder = PendingOrder(indexId: U128, trader: Address, maxSize: U128)

  datatype Payload = Payload(indexIds: seq<U128>, buys: seq<PendingOrder>, sells: seq<PendingOrder>)

  datatype SettlementResult = SettlementResult(
    quoteTx: Option<TxReceipt>,
    buyResults: seq<(U128, CallResult)>, sellResults: seq<(U128, CallResult)>,
    succeeded: nat, failed: nat)

  function SizeFor(order: PendingOrder, fallback: U128): U128 {
    if 0 < order.maxSize then order.maxSize else fallback
  }

  function QuoteCalls(payload: Payload): seq<Call> {
    if payload.indexIds == [] then [] else [UpdateQuotes(payload.indexIds)]
  }

  function OrderCall(order: PendingOrder, buying: bool, fallback: U128): Call {
    if buying then ProcessBuy(order.indexId, order.trader, SizeFor(order, fallback))
    else ProcessSell(order.indexId, order.trader, SizeFor(order, fallback))
  }

  function OrderCalls(orders: seq<PendingOrder>, buying: bool, fallback: U128): (calls: seq<Call>)
    ensures |calls| == |orders|
  {
    seq(|orders|, i requires 0 <= i < |orders| => OrderCall(orders[i], buying, fallback))
  }

  // Quotes, then buys, then sells.
  function Plan(payload: Payload, fallback: U128): seq<Call> {
    QuoteCalls(payload) + OrderCalls(payload.buys, true, fallback) + OrderCalls(payload.sells, false, fallback)
  }

  // The calls of the orders stand in the plan from an offset on.
  predicate PlannedAt(plan: seq<Call>, offset: nat, orders: seq<PendingOrder>, buying: bool, fallback: U128)
    requires offset + |orders| <= |plan|
  {
    forall i :: 0 <= i < |orders| ==> plan[offset + i] == OrderCall(orders[i], buying, fallback)
  }

  // The calls of a payload, each written out: one quote update for all its
  // indices if it has any, then each order's own, with the default size for an
  // order that brings none.
  predicate IsPlan(plan: seq<Call>, payload: Payload, fallback: U128) {
    var q := if payload.indexIds == [] then 0 else 1;
    && |plan| == q + |payload.buys| + |payload.sells|
    && (payload.indexIds != [] ==> plan[0] == UpdateQuotes(payload.indexIds))
    && (forall i :: 0 <= i < |payload.buys| ==>
         var o := payload.buys[i];
         plan[q + i] == ProcessBuy(o.indexId, o.trader, if o.maxSize == 0 then fallback else o.maxSize))
    && (forall i :: 0 <= i < |payload.sells| ==>
         var o := payload.sells[i];
         plan[q + |payload.buys| + i]
           == ProcessSell(o.indexId, o.trader, if o.maxSize == 0 then fallback else o.maxSize))
  }

  lemma PlanWritten(payload: Payload, fallback: U128)
    ensures IsPlan(Plan(payload, fallback), payload, fallback)
  {
  }

  // Call c of the plan makes the sends from starts[c] to starts[c + 1].
  predicate Segmented(trace: seq<Attempt>, plan: seq<Call>, starts: seq<nat>, attempts: nat) {
    && |starts| == |plan| + 1 && starts[0] == 0 && starts[|plan|] == |trace|
    && (forall c :: 0 <= c < |plan| ==> Segment(trace, plan[c], starts[c], starts[c + 1], attempts))
  }

  // Sends of one call: up to the allowed number, at least one if any is allowed,
  // and fewer only because the last got a receipt, which no other one did.
  predicate Segment(trace: seq<Attempt>, call: Call, first: nat, end: nat, attempts: nat) {
    && first <= end <= |trace| && end - first <= attempts && (0 < attempts ==> first < end)
    && (forall a :: first <= a < end ==> trace[a].call == call)
    && (forall a :: first <= a < end - 1 ==> trace[a].outcome.NoReceipt?)
    && (first < end < first + attempts ==> trace[end - 1].outcome.Receipt?)
  }

  // The sends get the outcomes the chain has for them.
  predicate OutcomesOf(trace: seq<Attempt>, oracle: Oracle, n: nat) {
    forall a :: 0 <= a < |trace| ==> trace[a].outcome == oracle(n + a)
  }

  // What is reported of a call: its last send's receipt, or a failure.
  predicate Reports(trace: seq<Attempt>, first: nat, end: nat, r: CallResult)
    requires first <= end <= |trace|
  {
    if first == end then r == Err(NoAttempts)
    else
      match trace[end - 1].outcome
      case Receipt(status) => r == Ok(TxReceipt(status))
      case NoReceipt(_) => r == Err(SendFailed)
  }

  predicate ReportsOne(trace: seq<Attempt>, starts: seq<nat>, c: nat, order: PendingOrder, r: (U128, CallResult)) {
    && c + 1 < |starts| && starts[c] <= starts[c + 1] <= |trace|
    && r.0 == order.indexId && Reports(trace, starts[c], starts[c + 1], r.1)
  }

  // One result per order, in order, each that of the order's own sends.
  predicate ReportsAll(
    trace: seq<Attempt>, starts: seq<nat>, offset: nat, orders: seq<PendingOrder>, results: seq<(U128, CallResult)>)
  {
    && |results| == |orders|
    && forall i :: 0 <= i < |orders| ==> ReportsOne(trace, starts, offset + i, orders[i], results[i])
  }

  // The trace is that of a plan of the payload, call by call, and the results
  // are those of its sends.
  ghost predicate CarriesOut(
    trace: seq<Attempt>, payload: Payload, fallback: U128, attempts: nat, quoteTx: Option<TxReceipt>,
    buys: seq<(U128, CallResult)>, sells: seq<(U128, CallResult)>)
  {
    exists plan, starts ::
      && IsPlan(plan, payload, fallback) && Segmented(trace, plan, starts, attempts)
      && ReportsQuote(trace, starts, payload, quoteTx)
      && ReportsAll(trace, starts, |plan| - |payload.buys| - |payload.sells|, payload.buys, buys)
      && ReportsAll(trace, starts, |plan| - |payload.sells|, payload.sells, sells)
  }

  lemma CarriedOutBy(
    trace: seq<Attempt>, payload: Payload, fallback: U128, attempts: nat, quoteTx: Option<TxReceipt>,
    buys: seq<(U128, CallResult)>, sells: seq<(U128, CallResult)>, starts: seq<nat>)
    requires Segmented(trace, Plan(payload, fallback), starts, attempts)
    requires ReportsQuote(trace, starts, payload, quoteTx)
    requires ReportsAll(trace, starts, BuysAt(payload), payload.buys, buys)
    requires ReportsAll(trace, starts, SellsAt(payload), payload.sells, sells)
    ensures CarriesOut(trace, payload, fallback, attempts, quoteTx, buys, sells)
  {
    var plan := Plan(payload, fallback);
    PlanWritten(payload, fallback);
    assert SellsAt(payload) == |plan| - |payload.sells| && BuysAt(payload) == SellsAt(payload) - |payload.buys|;
    assert IsPlan(plan, payload, fallback) && Segmented(trace, plan, starts, attempts);
  }

  predicate ReportsQuote(trace: seq<Attempt>, starts: seq<nat>, payload: Payload, quoteTx: Option<TxReceipt>) {
    if payload.indexIds == [] then quoteTx == None
    else
      && 1 < |starts| && starts[0] <= starts[1] <= |trace|
      && match quoteTx
         case Some(receipt) => Reports(trace, starts[0], starts[1], Ok(receipt))
         case None => Reports(trace, starts[0], starts[1], Err(SendFailed))
                      || Reports(trace, starts[0], starts[1], Err(NoAttempts))
  }

  lemma {:induction false} CallSegment(call: Call, oracle: Oracle, n: nat, attempts: nat)
    ensures var own := CallTrace(call, oracle, n, attempts);
      Segment(own, call, 0, |own|, attempts) && OutcomesOf(own, oracle, n)
    decreases attempts
  {
    if attempts > 0 && oracle(n).NoReceipt? {
      CallSegment(call, oracle, n + 1, attempts - 1);
      var rest := CallTrace(call, oracle, n + 1, attempts - 1);
      FailedFirst(Attempt(call, oracle(n)), rest, call, attempts - 1);
      OutcomesSnoc([Attempt(call, oracle(n))], rest, oracle, n);
    }
  }

  lemma FailedFirst(first: Attempt, rest: seq<Attempt>, call: Call, attempts: nat)
    requires first.call == call && first.outcome.NoReceipt? && Segment(rest, call, 0, |rest|, attempts)
    ensures Segment([first] + rest, call, 0, 1 + |rest|, attempts + 1)
  {
    var own := [first] + rest;
    assert forall a :: 0 < a < |own| ==> own[a] == rest[a - 1];
  }

  // The calls' sends follow one another.
  lemma {:induction false} PlanSegmented(plan: seq<Call>, c: nat, oracle: Oracle, n: nat, attempts: nat)
    returns (starts: seq<nat>)
    requires c <= |plan|
    ensures Segmented(PlanTrace(plan, c, oracle, n, attempts), plan[..c], starts, attempts)
    ensures OutcomesOf(PlanTrace(plan, c, oracle, n, attempts), oracle, n)
    ensures forall d :: 0 <= d <= c ==> starts[d] == |PlanTrace(plan, d, oracle, n, attempts)|
  {
    if c == 0 {
      starts := [0];
    } else {
      var before := PlanSegmented(plan, c - 1, oracle, n, attempts);
      var trace := PlanTrace(plan, c - 1, oracle, n, attempts);
      var own := TraceOf(plan, c - 1, oracle, n, attempts);
      CallSegment(plan[c - 1], oracle, n + |trace|, attempts);
      starts := before + [|trace + own|];
      SegmentsSnoc(trace, plan[..c - 1], before, own, plan[c - 1], attempts);
      OutcomesSnoc(trace, own, oracle, n);
      assert plan[..c] == plan[..c - 1] + [plan[c - 1]];
    }
  }

  lemma SegmentsSnoc(
    trace: seq<Attempt>, plan: seq<Call>, starts: seq<nat>, own: seq<Attempt>, call: Call, attempts: nat)
    requires Segmented(trace, plan, starts, attempts) && Segment(own, call, 0, |own|, attempts)
    ensures Segmented(trace + own, plan + [call], starts + [|trace + own|], attempts)
  {
    var longer, calls, all := starts + [|trace + own|], plan + [call], trace + own;
    forall c | 0 <= c < |calls|
      ensures Segment(all, calls[c], longer[c], longer[c + 1], attempts)
    {
      if c < |plan| {
        assert Segment(trace, plan[c], starts[c], starts[c + 1], attempts);
      } else {
        assert forall a :: |trace| <= a < |all| ==> all[a] == own[a - |trace|];
      }
    }
  }

  lemma OutcomesSnoc(trace: seq<Attempt>, own: seq<Attempt>, oracle: Oracle, n: nat)
    requires OutcomesOf(trace, oracle, n) && OutcomesOf(own, oracle, n + |trace|)
    ensures OutcomesOf(trace + own, oracle, n)
  {
    assert forall a :: |trace| <= a < |trace + own| ==> (trace + own)[a] == own[a - |trace|];
  }

  // A call's own sends decide what is reported of it.
  lemma CallReports(plan: seq<Call>, c: nat, oracle: Oracle, n: nat, attempts: nat)
    requires c < |plan|
    ensures var trace := PlanTrace(plan, |plan|, oracle, n, attempts);
      var first, end := |PlanTrace(plan, c, oracle, n, attempts)|, |PlanTrace(plan, c + 1, oracle, n, attempts)|;
      first <= end <= |trace| && Reports(trace, first, end, ResultOf(TraceOf(plan, c, oracle, n, attempts)))
  {
    var trace := PlanTrace(plan, |plan|, oracle, n, attempts);
    var before, own := PlanTrace(plan, c, oracle, n, attempts), TraceOf(plan, c, oracle, n, attempts);
    CallHasItsSends(plan, c, |plan|, oracle, n, attempts);
    if own != [] {
      assert trace[|before + own| - 1] == (before + own)[|before + own| - 1] == own[|own| - 1];
    }
  }

  lemma PlanRanksAscend(payload: Payload, fallback: U128)
    ensures RanksAscend(Plan(payload, fallback))
  {
  }

  function OkCount(results: seq<(U128, CallResult)>): nat {
    if results == [] then 0
    else OkCount(results[..|results| - 1]) + if results[|results| - 1].1.Ok? then 1 else 0
  }

  function ErrCount(results: seq<(U128, CallResult)>): nat {
    if results == [] then 0
    else ErrCount(results[..|results| - 1]) + if results[|results| - 1].1.Err? then 1 else 0
  }

  lemma {:induction false} CountsAddUp(results: seq<(U128, CallResult)>)
    ensures OkCount(results) + ErrCount(results) == |results|
  {
    if results != [] {
      CountsAddUp(results[..|results| - 1]);
    }
  }

  class OnchainSubmitter {
    const dryRun: bool
    const retryAttempts: nat
    const defaultMaxOrderSize: U128
    const oracle: Oracle
    var sent: seq<Attempt>

    constructor (dry: bool, attempts: nat, maxSize: U128, chain: Oracle)
      ensures dryRun == dry && retryAttempts == attempts && defaultMaxOrderSize == maxSize && oracle == chain
      ensures sent == []
    {
      dryRun, retryAttempts, defaultMaxOrderSize, oracle, sent := dry, attempts, maxSize, chain, [];
    }

    method TrySend(call: Call) returns (outcome: SendOutcome)
      modifies this`sent
      ensures outcome == oracle(|old(sent)|)
      ensures sent == old(sent) + [Attempt(call, outcome)]
    {
      outcome := oracle(|sent|);
      sent := sent + [Attempt(call, outcome)];
    }

    method SendWithRetry(call: Call) returns (r: CallResult)
      modifies this`sent
      ensures sent == old(sent) + CallTrace(call, oracle, |old(sent)|, retryAttempts)
      ensures r == ResultOf(CallTrace(call, oracle, |old(sent)|, retryAttempts))
    {
      ghost var before := sent;
      var lastError: Option<SendError> := None;
      for attempt := 0 to retryAttempts
        invariant sent + CallTrace(call, oracle, |sent|, retryAttempts - attempt)
          == before + CallTrace(call, oracle, |before|, retryAttempts)
        invariant ResultOf(CallTrace(call, oracle, |before|, retryAttempts))
          == if attempt == retryAttempts > 0 then Err(SendFailed)
             else ResultOf(CallTrace(call, oracle, |sent|, retryAttempts - attempt))
        invariant lastError == if attempt == 0 then None else Some(SendFailed)
      {
        OneSend(call, oracle, sent, retryAttempts - attempt);
        var outcome := TrySend(call);
        if outcome.Receipt? {
          return Ok(TxReceipt(outcome.status));
        }
        lastError := Some(SendFailed);
      }
      r := Err(if lastError.Some? then lastError.value else NoAttempts);
    }

    // A dry run answers with a made-up receipt and sends nothing.
    method Perform(call: Call) returns (r: CallResult)
      modifies this`sent
      ensures sent == if dryRun then old(sent) else old(sent) + CallTrace(call, oracle, |old(sent)|, retryAttempts)
      ensures r == if dryRun then Ok(TxReceipt(true)) else ResultOf(CallTrace(call, oracle, |old(sent)|, retryAttempts))
    {
      if dryRun {
        return Ok(TxReceipt(true));
      }
      r := SendWithRetry(call);
    }

    // What the first c calls of a plan send.
    ghost function Sends(start: seq<Attempt>, plan: seq<Call>, c: nat): seq<Attempt>
      requires c <= |plan|
    {
      if dryRun then [] else PlanTrace(plan, c, oracle, |start|, retryAttempts)
    }

    // What has been sent once the first c calls of a plan are done.
    ghost function SentAfter(start: seq<Attempt>, plan: seq<Call>, c: nat): seq<Attempt>
      requires c <= |plan|
    {
      start + Sends(start, plan, c)
    }

    ghost function ResultAt(start: seq<Attempt>, plan: seq<Call>, c: nat): CallResult
      requires c < |plan|
    {
      if dryRun then Ok(TxReceipt(true)) else ResultOf(TraceOf(plan, c, oracle, |start|, retryAttempts))
    }

    // Performs call c of a plan of which the first c have been done.
    method PerformNext(ghost start: seq<Attempt>, ghost plan: seq<Call>, ghost c: nat, call: Call)
      returns (r: CallResult)
      requires c < |plan| && plan[c] == call
      requires sent == SentAfter(start, plan, c)
      modifies this`sent
      ensures sent == SentAfter(start, plan, c + 1)
      ensures r == ResultAt(start, plan, c)
    {
      NextSends(start, plan, c, oracle, retryAttempts);
      r := Perform(call);
    }

    // Each order has its own call's result, in order.
    ghost predicate ResultsMatch(
      start: seq<Attempt>, plan: seq<Call>, offset: nat, orders: seq<PendingOrder>, results: seq<(U128, CallResult)>)
      requires offset + |results| <= |plan|
    {
      && |results| <= |orders|
      && (forall j :: 0 <= j < |results| ==> results[j] == (orders[j].indexId, ResultAt(start, plan, offset + j)))
    }

    // The results so far are those of the calls from `first` on, and counted so.
    ghost predicate SideSettled(
      start: seq<Attempt>, plan: seq<Call>, first: nat, end: nat, orders: seq<PendingOrder>,
      results: seq<(U128, CallResult)>)
    {
      && first + |results| == end <= |plan|
      && ResultsMatch(start, plan, first, orders, results)
      && OkCount(results) == Receipted(start, plan, first, end)
    }

    method SettleOrders(
      orders: seq<PendingOrder>, buying: bool, ghost start: seq<Attempt>, ghost plan: seq<Call>, ghost first: nat,
      ghost end: nat)
      returns (results: seq<(U128, CallResult)>)
      requires first + |orders| == end <= |plan|
      requires PlannedAt(plan, first, orders, buying, defaultMaxOrderSize)
      requires sent == SentAfter(start, plan, first)
      modifies this`sent
      ensures sent == SentAfter(start, plan, end)
      ensures |results| == |orders| && SideSettled(start, plan, first, end, orders, results)
    {
      results := [];
      ghost var done := first;
      for i := 0 to |orders|
        invariant |results| == i && done == first + i
        invariant sent == SentAfter(start, plan, done)
        invariant SideSettled(start, plan, first, done, orders, results)
      {
        results := SettleNext(orders[i], results, start, plan, first, done, orders, buying);
        done := done + 1;
      }
    }

    // One more order of a side: its call, and its result behind the others.
    method SettleNext(
      order: PendingOrder, before: seq<(U128, CallResult)>, ghost start: seq<Attempt>, ghost plan: seq<Call>,
      ghost first: nat, ghost done: nat, ghost orders: seq<PendingOrder>, buying: bool)
      returns (results: seq<(U128, CallResult)>)
      requires |before| < |orders| && orders[|before|] == order && first + |orders| <= |plan|
      requires PlannedAt(plan, first, orders, buying, defaultMaxOrderSize)
      requires SideSettled(start, plan, first, done, orders, before)
      requires sent == SentAfter(start, plan, done)
      modifies this`sent
      ensures done < |plan| && sent == SentAfter(start, plan, done + 1)
      ensures |results| == |before| + 1 && SideSettled(start, plan, first, done + 1, orders, results)
    {
      var r := PerformNext(start, plan, done, OrderCall(order, buying, defaultMaxOrderSize));
      OneMoreResult(start, plan, first, done, orders, before, r);
      results := before + [(order.indexId, r)];
    }

    lemma OneMoreResult(
      start: seq<Attempt>, plan: seq<Call>, first: nat, end: nat, orders: seq<PendingOrder>,
      results: seq<(U128, CallResult)>, r: CallResult)
      requires |results| < |orders| && end < |plan|
      requires SideSettled(start, plan, first, end, orders, results) && r == ResultAt(start, plan, end)
      ensures SideSettled(start, plan, first, end + 1, orders, results + [(orders[|results|].indexId, r)])
    {
      var longer := results + [(orders[|results|].indexId, r)];
      assert longer[..|results|] == results;
    }

    method CountOk(results: seq<(U128, CallResult)>) returns (ok: nat, err: nat)
      ensures ok == OkCount(results) && err == ErrCount(results)
    {
      ok, err := 0, 0;
      for i := 0 to |results|
        invariant ok == OkCount(results[..i]) && err == ErrCount(results[..i])
      {
        assert results[..i + 1][..i] == results[..i];
        if results[i].1.Ok? {
          ok := ok + 1;
        } else {
          err := err + 1;
        }
      }
      assert results[..|results|] == results;
    }

    method SettleQuotes(payload: Payload) returns (quoteTx: Option<TxReceipt>)
      modifies this`sent
      ensures BuysAt(payload) <= |Plan(payload, defaultMaxOrderSize)|
      ensures sent == SentAfter(old(sent), Plan(payload, defaultMaxOrderSize), BuysAt(payload))
      ensures quoteTx == QuoteReceipt(old(sent), payload)
    {
      quoteTx := None;
      if payload.indexIds != [] {
        ghost var plan := Plan(payload, defaultMaxOrderSize);
        var quoted := PerformNext(sent, plan, 0, UpdateQuotes(payload.indexIds));
        if quoted.Ok? {
          quoteTx := Some(quoted.value);
        }
      }
    }

    method SettleCalls(payload: Payload)
      returns (quoteTx: Option<TxReceipt>, buys: seq<(U128, CallResult)>, sells: seq<(U128, CallResult)>)
      modifies this`sent
      ensures |buys| == |payload.buys| && |sells| == |payload.sells|
      ensures Settled(old(sent), payload, quoteTx, buys, sells)
    {
      ghost var start := sent;
      ghost var plan := Plan(payload, defaultMaxOrderSize);
      PlanSlices(payload, defaultMaxOrderSize);
      quoteTx := SettleQuotes(payload);
      buys := SettleOrders(payload.buys, true, start, plan, BuysAt(payload), SellsAt(payload));
      sells := SettleOrders(payload.sells, false, start, plan, SellsAt(payload), |plan|);
    }

    // The sends are those of the plan, and every order has its own result.
    ghost predicate Settled(
      start: seq<Attempt>, payload: Payload, quoteTx: Option<TxReceipt>,
      buys: seq<(U128, CallResult)>, sells: seq<(U128, CallResult)>)
      reads this
    {
      var plan := Plan(payload, defaultMaxOrderSize);
      && sent == SentAfter(start, plan, |plan|)
      && quoteTx == QuoteReceipt(start, payload)
      && SideSettled(start, plan, BuysAt(payload), SellsAt(payload), payload.buys, buys)
      && SideSettled(start, plan, SellsAt(payload), |plan|, payload.sells, sells)
    }

    // Quotes before buys before sells, in whatever the calls send.
    lemma SendsInOrder(start: seq<Attempt>, payload: Payload)
      ensures var plan := Plan(payload, defaultMaxOrderSize); TraceAscends(Sends(start, plan, |plan|))
    {
      var plan := Plan(payload, defaultMaxOrderSize);
      PlanRanksAscend(payload, defaultMaxOrderSize);
      TraceRanksAscend(plan, |plan|, oracle, |start|, retryAttempts);
    }

    // Calls that got a receipt, and those confirmed by it; a dry run makes the
    // receipts up.
    ghost function Receipted(start: seq<Attempt>, plan: seq<Call>, first: nat, end: nat): nat
      requires first <= end <= |plan|
    {
      if dryRun then end - first else ReceiptedIn(plan, first, end, oracle, |start|, retryAttempts)
    }

    // The orders among them: the buys, then the sells.
    ghost function ReceiptedOrders(start: seq<Attempt>, payload: Payload): nat {
      var plan := Plan(payload, defaultMaxOrderSize);
      PlanSlices(payload, defaultMaxOrderSize);
      var q, s := BuysAt(payload), SellsAt(payload);
      Receipted(start, plan, q, s) + Receipted(start, plan, s, |plan|)
    }

    ghost function Confirmed(start: seq<Attempt>, plan: seq<Call>, first: nat, end: nat): nat
      requires first <= end <= |plan|
    {
      if dryRun then end - first else ConfirmedIn(plan, first, end, oracle, |start|, retryAttempts)
    }

    ghost function ConfirmedOrders(start: seq<Attempt>, payload: Payload): nat {
      var plan := Plan(payload, defaultMaxOrderSize);
      PlanSlices(payload, defaultMaxOrderSize);
      var q, s := BuysAt(payload), SellsAt(payload);
      Confirmed(start, plan, q, s) + Confirmed(start, plan, s, |plan|)
    }

    // No order's deciding send is mined and reverted.
    ghost predicate NoOrderReverts(start: seq<Attempt>, payload: Payload) {
      var plan := Plan(payload, defaultMaxOrderSize);
      forall c :: BuysAt(payload) <= c < |plan| ==> !RevertDecides(plan, c, oracle, |start|, retryAttempts)
    }

    // For every payload and chain: receipts are counted whatever they say, so
    // the count is that of the confirmed orders exactly when nothing reverts.
    lemma SucceededCountsReverts(start: seq<Attempt>, payload: Payload)
      ensures ReceiptedOrders(start, payload) == ConfirmedOrders(start, payload)
        <==> dryRun || NoOrderReverts(start, payload)
    {
      var plan := Plan(payload, defaultMaxOrderSize);
      PlanSlices(payload, defaultMaxOrderSize);
      var q, s := BuysAt(payload), SellsAt(payload);
      ReceiptsAgainstReverts(plan, q, s, oracle, |start|, retryAttempts);
      ReceiptsAgainstReverts(plan, s, |plan|, oracle, |start|, retryAttempts);
    }

    // One side's results, told from the trace alone.
    lemma SideReports(
      start: seq<Attempt>, plan: seq<Call>, first: nat, end: nat, orders: seq<PendingOrder>,
      results: seq<(U128, CallResult)>, starts: seq<nat>)
      requires !dryRun && SideSettled(start, plan, first, end, orders, results) && |results| == |orders|
      requires |starts| == |plan| + 1
      requires forall c :: 0 <= c <= |plan| ==> starts[c] == |PlanTrace(plan, c, oracle, |start|, retryAttempts)|
      ensures ReportsAll(PlanTrace(plan, |plan|, oracle, |start|, retryAttempts), starts, first, orders, results)
    {
      var trace := PlanTrace(plan, |plan|, oracle, |start|, retryAttempts);
      forall i | 0 <= i < |orders|
        ensures ReportsOne(trace, starts, first + i, orders[i], results[i])
      {
        CallReports(plan, first + i, oracle, |start|, retryAttempts);
        assert results[i] == (orders[i].indexId, ResultAt(start, plan, first + i));
      }
    }

    lemma QuoteReports(start: seq<Attempt>, payload: Payload, starts: seq<nat>)
      requires !dryRun && |starts| == |Plan(payload, defaultMaxOrderSize)| + 1
      requires forall c :: 0 <= c <= |Plan(payload, defaultMaxOrderSize)| ==>
        starts[c] == |PlanTrace(Plan(payload, defaultMaxOrderSize), c, oracle, |start|, retryAttempts)|
      ensures var plan := Plan(payload, defaultMaxOrderSize);
        ReportsQuote(PlanTrace(plan, |plan|, oracle, |start|, retryAttempts), starts, payload,
          QuoteReceipt(start, payload))
    {
      if payload.indexIds != [] {
        CallReports(Plan(payload, defaultMaxOrderSize), 0, oracle, |start|, retryAttempts);
      }
    }

    lemma SettledCarriesOut(
      start: seq<Attempt>, payload: Payload, quoteTx: Option<TxReceipt>,
      buys: seq<(U128, CallResult)>, sells: seq<(U128, CallResult)>)
      requires !dryRun && |buys| == |payload.buys| && |sells| == |payload.sells|
      requires Settled(start, payload, quoteTx, buys, sells)
      ensures var plan := Plan(payload, defaultMaxOrderSize);
        && CarriesOut(Sends(start, plan, |plan|), payload, defaultMaxOrderSize, retryAttempts, quoteTx, buys, sells)
        && OutcomesOf(Sends(start, plan, |plan|), oracle, |start|)
    {
      var plan := Plan(payload, defaultMaxOrderSize);
      PlanSlices(payload, defaultMaxOrderSize);
      var starts := PlanSegmented(plan, |plan|, oracle, |start|, retryAttempts);
      assert plan[..|plan|] == plan;
      QuoteReports(start, payload, starts);
      SideReports(start, plan, BuysAt(payload), SellsAt(payload), payload.buys, buys, starts);
      SideReports(start, plan, SellsAt(payload), |plan|, payload.sells, sells, starts);
      CarriedOutBy(
        Sends(start, plan, |plan|), payload, defaultMaxOrderSize, retryAttempts, quoteTx, buys, sells, starts);
    }

    // In a dry run nothing is sent and everything is reported as confirmed.
    ghost predicate Rehearsed(
      payload: Payload, quoteTx: Option<TxReceipt>, buys: seq<(U128, CallResult)>, sells: seq<(U128, CallResult)>)
    {
      && quoteTx == (if payload.indexIds == [] then None else Some(TxReceipt(true)))
      && |buys| == |payload.buys| && |sells| == |payload.sells|
      && (forall i :: 0 <= i < |buys| ==> buys[i] == (payload.buys[i].indexId, Ok(TxReceipt(true))))
      && (forall i :: 0 <= i < |sells| ==> sells[i] == (payload.sells[i].indexId, Ok(TxReceipt(true))))
    }

    // The whole settlement; the totals count the results.
    method SettleBatch(payload: Payload) returns (r: SettlementResult)
      modifies this`sent
      ensures var plan := Plan(payload, defaultMaxOrderSize);
        sent == old(sent) + Sends(old(sent), plan, |plan|) && TraceAscends(Sends(old(sent), plan, |plan|))
      ensures |r.buyResults| == |payload.buys| && |r.sellResults| == |payload.sells|
      ensures Settled(old(sent), payload, r.quoteTx, r.buyResults, r.sellResults)
      ensures if dryRun then
          sent == old(sent) && Rehearsed(payload, r.quoteTx, r.buyResults, r.sellResults)
        else
          var plan := Plan(payload, defaultMaxOrderSize);
          var own := Sends(old(sent), plan, |plan|);
          && CarriesOut(own, payload, defaultMaxOrderSize, retryAttempts, r.quoteTx, r.buyResults, r.sellResults)
          && OutcomesOf(own, oracle, |old(sent)|)
      ensures r.succeeded == OkCount(r.buyResults) + OkCount(r.sellResults) == ReceiptedOrders(old(sent), payload)
      ensures r.succeeded == ConfirmedOrders(old(sent), payload) <==> dryRun || NoOrderReverts(old(sent), payload)
      ensures r.succeeded + r.failed == |payload.buys| + |payload.sells|
    {
      var quoteTx, buys, sells := SettleCalls(payload);
      var buyOk, buyErr := CountOk(buys);
      var sellOk, sellErr := CountOk(sells);
      CountsAddUp(buys);
      CountsAddUp(sells);
      SendsInOrder(old(sent), payload);
      SucceededCountsReverts(old(sent), payload);
      if !dryRun {
        SettledCarriesOut(old(sent), payload, quoteTx, buys, sells);
      }
      r := SettlementResult(quoteTx, buys, sells, buyOk + sellOk, buyErr + sellErr);
    }

    // The pipeline that begins with this vendor request.
    ghost function Pipeline(start: seq<Attempt>, payload: Payload, assets: seq<U128>): seq<Attempt> {
      PipelineTrace(payload, assets, dryRun, retryAttempts, defaultMaxOrderSize, oracle, |start|)
    }

    // The vendor's acceptance followed by the settlement is the whole pipeline.
    lemma AskedAndSettled(start: seq<Attempt>, payload: Payload, assets: seq<U128>)
      ensures var asked := start + [Attempt(AskVendor(assets), oracle(|start|))];
        var plan := Plan(payload, defaultMaxOrderSize);
        start + Pipeline(start, payload, assets)
          == if oracle(|start|) == Receipt(true) then SentAfter(asked, plan, |plan|) else asked
      ensures TraceAscends(Pipeline(start, payload, assets)) && Gated(Pipeline(start, payload, assets), assets)
      ensures Pipeline(start, payload, assets) != []
      ensures Pipeline(start, payload, assets)[0] == Attempt(AskVendor(assets), oracle(|start|))
    {
      var ask := Attempt(AskVendor(assets), oracle(|start|));
      var plan := Plan(payload, defaultMaxOrderSize);
      PipelineInOrder(payload, assets, dryRun, retryAttempts, defaultMaxOrderSize, oracle, |start|);
      var sends := Sends(start + [ask], plan, |plan|);
      assert start + ([ask] + sends) == start + [ask] + sends;
      assert [ask] + [] == [ask];
    }

    // The quote update's receipt, if there was one to make and it arrived.
    ghost function QuoteReceipt(start: seq<Attempt>, payload: Payload): Option<TxReceipt> {
      if payload.indexIds == [] then None
      else
        match ResultAt(start, Plan(payload, defaultMaxOrderSize), 0)
        case Ok(receipt) => Some(receipt)
        case Err(_) => None
    }
  }

  // Where the buys and the sells begin in a plan.
  function BuysAt(payload: Payload): nat {
    |QuoteCalls(payload)|
  }

  function SellsAt(payload: Payload): nat {
    BuysAt(payload) + |payload.buys|
  }

  lemma PlanSlices(payload: Payload, fallback: U128)
    ensures var plan := Plan(payload, fallback);
      && SellsAt(payload) + |payload.sells| == |plan|
      && PlannedAt(plan, BuysAt(payload), payload.buys, true, fallback)
      && PlannedAt(plan, SellsAt(payload), payload.sells, false, fallback)
  {
  }

  // A chain that reverts everything: the one buy of the payload is counted as
  // succeeded, and not a single order is confirmed.
  method SettleRevertedBuy(order: PendingOrder, attempts: nat, maxSize: U128) returns (r: SettlementResult)
    requires 0 < attempts
    ensures r.buyResults == [(order.indexId, Ok(TxReceipt(false)))] && r.sellResults == []
    ensures r.succeeded == 1 && r.failed == 0
  {
    var oracle: Oracle := n => Receipt(false);
    var chain := new OnchainSubmitter(false, attempts, maxSize, oracle);
    var payload := Payload([], [order], []);
    r := chain.SettleBatch(payload);
    var buy := Plan(payload, maxSize)[0];
    assert CallTrace(buy, oracle, 0, attempts) == [Attempt(buy, Receipt(false))];
    assert r.buyResults[0] == (order.indexId, Ok(TxReceipt(false)));
    assert r.buyResults[..0] == [] && OkCount(r.buyResults) == 1;
  }

  // ---- The keeper's gate ----

  function PendingOf(order: SettlementOrder): PendingOrder {
    PendingOrder(order.indexId, order.trader, 0)
  }

  function PendingAll(orders: seq<SettlementOrder>): (p: seq<PendingOrder>)
    ensures |p| == |orders|
  {
    seq(|orders|, i requires 0 <= i < |orders| => PendingOf(orders[i]))
  }

  function PayloadOf(p: ProcessableBatch): Payload {
    Payload(p.indexIds, PendingAll(p.settlementBuys), PendingAll(p.settlementSells))
  }

  // What one pipeline asks and sends from request n on, if its assets are
  // worth asking about: the vendor once, then the plan if the vendor accepts.
  function PipelineTrace(
    payload: Payload, assets: seq<U128>, dryRun: bool, attempts: nat, fallback: U128, oracle: Oracle, n: nat)
    : seq<Attempt>
  {
    var ask := Attempt(AskVendor(assets), oracle(n));
    var plan := Plan(payload, fallback);
    if oracle(n) != Receipt(true) || dryRun then [ask]
    else [ask] + PlanTrace(plan, |plan|, oracle, n + 1, attempts)
  }

  // Only the first entry asks the vendor, about exactly these assets, and
  // nothing follows it unless the vendor accepted.
  predicate Gated(trace: seq<Attempt>, assets: seq<U128>) {
    && (trace != [] ==> trace[0].call == AskVendor(assets))
    && (1 < |trace| ==> trace[0].outcome == Receipt(true))
    && (forall k :: 1 <= k < |trace| ==> !trace[k].call.AskVendor?)
  }

  lemma {:induction false} PlanNeverAsks(plan: seq<Call>, c: nat, oracle: Oracle, n: nat, attempts: nat)
    requires c <= |plan| && forall i :: 0 <= i < |plan| ==> !plan[i].AskVendor?
    ensures forall k :: 0 <= k < |PlanTrace(plan, c, oracle, n, attempts)| ==>
      !PlanTrace(plan, c, oracle, n, attempts)[k].call.AskVendor?
  {
    if c > 0 {
      PlanNeverAsks(plan, c - 1, oracle, n, attempts);
      RetryShape(plan[c - 1], oracle, n + |PlanTrace(plan, c - 1, oracle, n, attempts)|, attempts);
    }
  }

  lemma PipelineInOrder(
    payload: Payload, assets: seq<U128>, dryRun: bool, attempts: nat, fallback: U128, oracle: Oracle, n: nat)
    ensures var trace := PipelineTrace(payload, assets, dryRun, attempts, fallback, oracle, n);
      TraceAscends(trace) && Gated(trace, assets)
  {
    var plan := Plan(payload, fallback);
    PlanRanksAscend(payload, fallback);
    TraceRanksAscend(plan, |plan|, oracle, n + 1, attempts);
    PlanNeverAsks(plan, |plan|, oracle, n + 1, attempts);
  }

  // Extraction is None when the keeper has no extractor; an error also yields
  // no assets. The vendor is asked once, only about a non-empty list, and only
  // its acceptance lets anything be sent.
  method ProcessBatchPipeline(
    submitter: OnchainSubmitter, p: ProcessableBatch, extraction: Option<Result<seq<U128>, ()>>)
    returns (settled: Option<SettlementResult>)
    modifies submitter`sent
    ensures if extraction.Some? && extraction.value.Ok? && extraction.value.value != [] then
        var own := submitter.Pipeline(old(submitter.sent), PayloadOf(p), extraction.value.value);
        && submitter.sent == old(submitter.sent) + own
        && TraceAscends(own) && Gated(own, extraction.value.value)
        && own != [] && (settled.Some? <==> own[0].outcome == Receipt(true))
        && (settled.Some? ==>
             submitter.Settled(old(submitter.sent) + [own[0]], PayloadOf(p), settled.value.quoteTx,
               settled.value.buyResults, settled.value.sellResults))
      else submitter.sent == old(submitter.sent) && settled == None
    ensures settled.Some? ==>
      settled.value.succeeded + settled.value.failed == |p.settlementBuys| + |p.settlementSells|
  {
    settled := None;
    var assets: Option<seq<U128>> := None;
    if extraction.Some? {
      match extraction.value
      case Ok(found) => assets := Some(found);
      case Err(_) =>
    }
    if assets.Some? && assets.value != [] {
      submitter.AskedAndSettled(submitter.sent, PayloadOf(p), assets.value);
      var answer := submitter.TrySend(AskVendor(assets.value));
      if answer == Receipt(true) {
        var r := submitter.SettleBatch(PayloadOf(p));
        settled := Some(r);
      }
    }
  }
}
