// Several batches in flight at once: the keeper spawns a pipeline for each,
// and their requests interleave (bin/keeper/src/keeper/keeper.rs,
// bin/keeper/src/onchain/submitter.rs).
module SettlementRuns {
  import opened Prelude
  import opened Settlement

  datatype Config = Config(dryRun: bool, attempts: nat, fallback: U128)

  // A pipeline waits for its assets, then for the vendor, then makes the calls
  // of its plan, `tried` counting the attempts at the current one.
  datatype Stage = Extracting | Asking | Settling(call: nat, tried: nat) | Closed

  // The oracle answers this pipeline's own requests, in their order.
  datatype Job = Job(payload: Payload, oracle: Oracle, assets: Option<seq<U128>>, stage: Stage)

  datatype Entry = Entry(job: nat, attempt: Attempt)

  datatype State = State(jobs: seq<Job>, trace: seq<Entry>)

  datatype Step =
    | Spawn(payload: Payload, oracle: Oracle)
    | Extracted(job: nat, assets: Option<seq<U128>>)
    | Ask(job: nat)
    | SendNext(job: nat)

  const START: State := State([], [])

  function PlanOf(cfg: Config, job: Job): seq<Call> {
    Plan(job.payload, cfg.fallback)
  }

  // The requests of one pipeline, in order.
  function Own(trace: seq<Entry>, j: nat): seq<Attempt> {
    if trace == [] then []
    else
      var before := Own(trace[..|trace| - 1], j);
      var last := trace[|trace| - 1];
      if last.job == j then before + [last.attempt] else before
  }

  predicate WorthAsking(assets: Option<seq<U128>>) {
    assets.Some? && assets.value != []
  }

  predicate Enabled(cfg: Config, s: State, step: Step) {
    match step
    case Spawn(_, _) => true
    case Extracted(j, _) => j < |s.jobs| && s.jobs[j].stage.Extracting?
    case Ask(j) => j < |s.jobs| && s.jobs[j].stage.Asking? && s.jobs[j].assets.Some?
    case SendNext(j) => j < |s.jobs| && CanSend(cfg, s.jobs[j])
  }

  predicate CanSend(cfg: Config, job: Job) {
    job.stage.Settling? && 0 < cfg.attempts && job.stage.call < |PlanOf(cfg, job)|
  }

  function AfterSend(cfg: Config, stage: Stage, outcome: SendOutcome): Stage
    requires stage.Settling?
  {
    if outcome.Receipt? || cfg.attempts <= stage.tried + 1 then Settling(stage.call + 1, 0)
    else Settling(stage.call, stage.tried + 1)
  }

  function Apply(cfg: Config, s: State, step: Step): State
    requires Enabled(cfg, s, step)
  {
    match step
    case Spawn(payload, oracle) => s.(jobs := s.jobs + [Job(payload, oracle, None, Extracting)])
    case Extracted(j, assets) =>
      s.(jobs := s.jobs[j := s.jobs[j].(assets := assets, stage := if WorthAsking(assets) then Asking else Closed)])
    case Ask(j) =>
      var job := s.jobs[j];
      var answer := job.oracle(0);
      State(s.jobs[j := job.(stage := AfterAsk(cfg, answer))],
        s.trace + [Entry(j, Attempt(AskVendor(job.assets.value), answer))])
    case SendNext(j) =>
      var job := s.jobs[j];
      var outcome := job.oracle(|Own(s.trace, j)|);
      State(s.jobs[j := job.(stage := AfterSend(cfg, job.stage, outcome))],
        s.trace + [Entry(j, Attempt(PlanOf(cfg, job)[job.stage.call], outcome))])
  }

  ghost predicate Run(cfg: Config, s: State, steps: seq<Step>, t: State)
    decreases |steps|
  {
    if steps == [] then s == t
    else Enabled(cfg, s, steps[0]) && Run(cfg, Apply(cfg, s, steps[0]), steps[1..], t)
  }

  // ---- One pipeline's own trace ----

  // What the pipeline would do with nothing else going on.
  function Whole(cfg: Config, job: Job): seq<Attempt>
    requires job.assets.Some?
  {
    PipelineTrace(job.payload, job.assets.value, cfg.dryRun, cfg.attempts, cfg.fallback, job.oracle, 0)
  }

  function Asked(job: Job): seq<Attempt>
    requires job.assets.Some?
  {
    [Attempt(AskVendor(job.assets.value), job.oracle(0))]
  }

  // Up to call c, and somewhere in it if it has been tried already.
  ghost predicate Underway(cfg: Config, job: Job, own: seq<Attempt>, c: nat, tried: nat) {
    var plan := PlanOf(cfg, job);
    && job.assets.Some? && c <= |plan| && (tried == 0 || tried < cfg.attempts)
    && (tried == 0 ==> own == Asked(job) + PlanTrace(plan, c, job.oracle, 1, cfg.attempts))
    && (tried > 0 ==> c < |plan|)
    && (c < |plan| ==>
         own + CallTrace(plan[c], job.oracle, |own|, cfg.attempts - tried)
           == Asked(job) + PlanTrace(plan, c + 1, job.oracle, 1, cfg.attempts))
  }

  ghost predicate JobInvariant(cfg: Config, job: Job, own: seq<Attempt>) {
    match job.stage
    case Extracting => own == [] && job.assets.None?
    case Asking => own == [] && WorthAsking(job.assets)
    case Settling(c, tried) =>
      WorthAsking(job.assets) && job.oracle(0) == Receipt(true) && !cfg.dryRun && Underway(cfg, job, own, c, tried)
    case Closed => if WorthAsking(job.assets) then own == Whole(cfg, job) else own == []
  }

  ghost predicate Invariant(cfg: Config, s: State) {
    && (forall j :: 0 <= j < |s.jobs| ==> JobInvariant(cfg, s.jobs[j], Own(s.trace, j)))
    && (forall j :: |s.jobs| <= j ==> Own(s.trace, j) == [])
  }

  lemma OwnSnoc(trace: seq<Entry>, e: Entry, j: nat)
    ensures Own(trace + [e], j) == if e.job == j then Own(trace, j) + [e.attempt] else Own(trace, j)
  {
    assert (trace + [e])[..|trace|] == trace;
  }

  lemma FirstCallNext(cfg: Config, job: Job, own: seq<Attempt>, c: nat)
    requires job.assets.Some? && c <= |PlanOf(cfg, job)|
    requires own == Asked(job) + PlanTrace(PlanOf(cfg, job), c, job.oracle, 1, cfg.attempts)
    ensures Underway(cfg, job, own, c, 0)
  {
    if c < |PlanOf(cfg, job)| {
      NextSends(Asked(job), PlanOf(cfg, job), c, job.oracle, cfg.attempts);
    }
  }

  // One more attempt: the call is over, or one attempt fewer is left of it.
  lemma UnderwayNext(cfg: Config, job: Job, own: seq<Attempt>, c: nat, tried: nat)
    requires Underway(cfg, job, own, c, tried) && 0 < cfg.attempts && c < |PlanOf(cfg, job)|
    ensures var outcome := job.oracle(|own|);
      var longer := own + [Attempt(PlanOf(cfg, job)[c], outcome)];
      if outcome.Receipt? || cfg.attempts <= tried + 1 then Underway(cfg, job, longer, c + 1, 0)
      else Underway(cfg, job, longer, c, tried + 1)
  {
    var plan := PlanOf(cfg, job);
    var longer := own + [Attempt(plan[c], job.oracle(|own|))];
    OneSend(plan[c], job.oracle, own, cfg.attempts - tried);
    if job.oracle(|own|).Receipt? || cfg.attempts <= tried + 1 {
      assert longer + [] == longer;
      FirstCallNext(cfg, job, longer, c + 1);
    }
  }

  lemma OneMoreSend(cfg: Config, job: Job, own: seq<Attempt>)
    requires CanSend(cfg, job) && JobInvariant(cfg, job, own)
    ensures var outcome := job.oracle(|own|);
      JobInvariant(cfg, job.(stage := AfterSend(cfg, job.stage, outcome)),
        own + [Attempt(PlanOf(cfg, job)[job.stage.call], outcome)])
  {
    UnderwayNext(cfg, job, own, job.stage.call, job.stage.tried);
    var stage := AfterSend(cfg, job.stage, job.oracle(|own|));
    SameUnderway(cfg, job, own + [Attempt(PlanOf(cfg, job)[job.stage.call], job.oracle(|own|))], stage);
  }

  lemma SameUnderway(cfg: Config, job: Job, own: seq<Attempt>, stage: Stage)
    requires stage.Settling? && Underway(cfg, job, own, stage.call, stage.tried)
    ensures Underway(cfg, job.(stage := stage), own, stage.call, stage.tried)
  {
  }

  lemma StepKeepsInvariant(cfg: Config, s: State, step: Step)
    requires Invariant(cfg, s) && Enabled(cfg, s, step)
    ensures Invariant(cfg, Apply(cfg, s, step))
  {
    var t := Apply(cfg, s, step);
    match step
    case Spawn(_, _) =>
    case Extracted(_, _) =>
    case Ask(j) =>
      VendorAsked(cfg, s.jobs[j], Own(s.trace, j));
      OwnSnoc(s.trace, t.trace[|s.trace|], j);
      OthersUntouched(cfg, s, t, j);
    case SendNext(j) =>
      OneMoreSend(cfg, s.jobs[j], Own(s.trace, j));
      OwnSnoc(s.trace, t.trace[|s.trace|], j);
      OthersUntouched(cfg, s, t, j);
  }

  function AfterAsk(cfg: Config, answer: SendOutcome): Stage {
    if answer == Receipt(true) && !cfg.dryRun then Settling(0, 0) else Closed
  }

  lemma VendorAsked(cfg: Config, job: Job, own: seq<Attempt>)
    requires job.stage.Asking? && JobInvariant(cfg, job, own)
    ensures JobInvariant(cfg, job.(stage := AfterAsk(cfg, job.oracle(0))), own + Asked(job))
  {
    assert own + Asked(job) == Asked(job) == Asked(job) + [];
    FirstCallNext(cfg, job.(stage := Settling(0, 0)), Asked(job), 0);
  }

  lemma OthersUntouched(cfg: Config, s: State, t: State, j: nat)
    requires Invariant(cfg, s) && j < |s.jobs| == |t.jobs|
    requires |t.trace| == |s.trace| + 1 && t.trace == s.trace + [t.trace[|s.trace|]] && t.trace[|s.trace|].job == j
    requires forall i :: 0 <= i < |s.jobs| && i != j ==> t.jobs[i] == s.jobs[i]
    requires JobInvariant(cfg, t.jobs[j], Own(t.trace, j))
    ensures Invariant(cfg, t)
  {
    forall i: nat | i != j
      ensures Own(t.trace, i) == Own(s.trace, i)
    {
      OwnSnoc(s.trace, t.trace[|s.trace|], i);
    }
  }

  lemma {:induction false} RunKeepsInvariant(cfg: Config, s: State, steps: seq<Step>, t: State)
    requires Invariant(cfg, s) && Run(cfg, s, steps, t)
    ensures Invariant(cfg, t)
    decreases |steps|
  {
    if steps != [] {
      StepKeepsInvariant(cfg, s, steps[0]);
      RunKeepsInvariant(cfg, Apply(cfg, s, steps[0]), steps[1..], t);
    }
  }

  // ---- The main results, for every interleaving ----

  predicate Finished(cfg: Config, job: Job) {
    job.stage.Closed? || (job.stage.Settling? && (cfg.attempts == 0 || job.stage.call == |PlanOf(cfg, job)|))
  }

  // Whatever the other pipelines do, what one of them has asked and sent so
  // far is the beginning of what it would do alone, and all of it once it has
  // finished; without assets it does nothing.
  lemma OwnTraceIsSequential(cfg: Config, steps: seq<Step>, s: State, j: nat)
    requires Run(cfg, START, steps, s) && j < |s.jobs|
    ensures var job, own := s.jobs[j], Own(s.trace, j);
      if WorthAsking(job.assets) then own <= Whole(cfg, job) && (Finished(cfg, job) ==> own == Whole(cfg, job))
      else own == []
  {
    RunKeepsInvariant(cfg, START, steps, s);
    var job, own := s.jobs[j], Own(s.trace, j);
    assert JobInvariant(cfg, job, own);
    if job.stage.Settling? {
      UnderwayIsPrefix(cfg, job, own, job.stage.call, job.stage.tried);
    }
  }

  lemma UnderwayIsPrefix(cfg: Config, job: Job, own: seq<Attempt>, c: nat, tried: nat)
    requires Underway(cfg, job, own, c, tried) && job.oracle(0) == Receipt(true) && !cfg.dryRun
    ensures own <= Whole(cfg, job)
    ensures cfg.attempts == 0 || c == |PlanOf(cfg, job)| ==> own == Whole(cfg, job)
  {
    var plan := PlanOf(cfg, job);
    if c < |plan| {
      PlanTracePrefix(plan, c + 1, |plan|, job.oracle, 1, cfg.attempts);
      assert own <= own + CallTrace(plan[c], job.oracle, |own|, cfg.attempts - tried);
      if cfg.attempts == 0 {
        NoAttemptsNoSends(plan, c, job.oracle, 1);
        NoAttemptsNoSends(plan, |plan|, job.oracle, 1);
      }
    }
  }

  lemma {:induction false} PlanTracePrefix(plan: seq<Call>, c: nat, d: nat, oracle: Oracle, n: nat, attempts: nat)
    requires c <= d <= |plan|
    ensures PlanTrace(plan, c, oracle, n, attempts) <= PlanTrace(plan, d, oracle, n, attempts)
    decreases d
  {
    if c < d {
      PlanTracePrefix(plan, c, d - 1, oracle, n, attempts);
    }
  }

  lemma {:induction false} NoAttemptsNoSends(plan: seq<Call>, c: nat, oracle: Oracle, n: nat)
    requires c <= |plan|
    ensures PlanTrace(plan, c, oracle, n, 0) == []
  {
    if c > 0 {
      NoAttemptsNoSends(plan, c - 1, oracle, n);
    }
  }

  // Where an entry stands among its own pipeline's.
  lemma {:induction false} OwnPosition(trace: seq<Entry>, k: nat, j: nat)
    requires k < |trace| && trace[k].job == j
    ensures |Own(trace[..k], j)| < |Own(trace, j)|
    ensures Own(trace, j)[|Own(trace[..k], j)|] == trace[k].attempt
  {
    var n := |trace| - 1;
    if k < n {
      assert trace[..n][..k] == trace[..k];
      OwnPosition(trace[..n], k, j);
    }
  }

  lemma {:induction false} OwnGrows(trace: seq<Entry>, k: nat, j: nat)
    requires k <= |trace|
    ensures Own(trace[..k], j) <= Own(trace, j)
  {
    var n := |trace| - 1;
    if k <= n {
      assert trace[..n][..k] == trace[..k];
      OwnGrows(trace[..n], k, j);
    } else {
      assert trace[..k] == trace;
    }
  }

  lemma {:induction false} EntryOf(trace: seq<Entry>, j: nat, m: nat) returns (k: nat)
    requires m < |Own(trace, j)|
    ensures k < |trace| && trace[k] == Entry(j, Own(trace, j)[m]) && |Own(trace[..k], j)| == m
  {
    var n := |trace| - 1;
    if m < |Own(trace[..n], j)| {
      k := EntryOf(trace[..n], j, m);
      assert trace[..n][..k] == trace[..k];
    } else {
      k := n;
    }
  }

  // Among all the requests of all batches, those of one batch keep the order
  // vendor, quotes, buys, sells.
  lemma OwnRequestsInOrder(cfg: Config, steps: seq<Step>, s: State, a: nat, b: nat)
    requires Run(cfg, START, steps, s)
    requires a < b < |s.trace| && s.trace[a].job == s.trace[b].job
    ensures Rank(s.trace[a].attempt.call) <= Rank(s.trace[b].attempt.call)
  {
    var j := s.trace[a].job;
    OwnPosition(s.trace, a, j);
    RunKeepsInvariant(cfg, START, steps, s);
    OwnTraceIsSequential(cfg, steps, s, j);
    OwnPosition(s.trace, b, j);
    OwnPosition(s.trace[..b], a, j);
    assert s.trace[..b][..a] == s.trace[..a];
    var job := s.jobs[j];
    PipelineInOrder(job.payload, job.assets.value, cfg.dryRun, cfg.attempts, cfg.fallback, job.oracle, 0);
  }

  // Nothing of a batch is sent to the chain before the vendor has accepted a
  // request for exactly the assets extracted for that batch.
  lemma SentOnlyAfterVendor(cfg: Config, steps: seq<Step>, s: State, k: nat) returns (i: nat)
    requires Run(cfg, START, steps, s)
    requires k < |s.trace| && !s.trace[k].attempt.call.AskVendor?
    ensures s.trace[k].job < |s.jobs|
    ensures var job := s.jobs[s.trace[k].job];
      && WorthAsking(job.assets)
      && i < k && s.trace[i] == Entry(s.trace[k].job, Attempt(AskVendor(job.assets.value), Receipt(true)))
  {
    var j := s.trace[k].job;
    OwnPosition(s.trace, k, j);
    RunKeepsInvariant(cfg, START, steps, s);
    OwnTraceIsSequential(cfg, steps, s, j);
    var job := s.jobs[j];
    PipelineInOrder(job.payload, job.assets.value, cfg.dryRun, cfg.attempts, cfg.fallback, job.oracle, 0);
    var before := Own(s.trace[..k], j);
    OwnGrows(s.trace, k, j);
    i := EntryOf(s.trace[..k], j, 0);
  }
}
