/** run_eval: trials, grading and the report's counters. */
module Harness {
  import opened Sequences
  import opened Errors
  import opened Models
  import opened Policy
  import opened Executor
  import opened Grading
  import opened Estimation
  import opened Wilson

  datatype ExecutorState = ExecutorState(byId: Catalog, attempts: Attempts)

  /** How an agent's call ends: with a result, with some other value, or with an exception. */
  datatype Ending = Returned(result: AgentResult) | ReturnedOther | Propagated(error: Exn)

  /** What one agent call does: the payments it asks for, in order, and how it ends. */
  datatype Script = Script(calls: seq<PayCall>, ending: Ending)

  /** An agent that terminates and depends on nothing but its arguments. Its third argument is
      the state of the executor it is handed, which settles every reply it can receive, so an
      agent that looks at the replies is one of these too. */
  type AgentFn = (TaskSpec, int, ExecutorState) -> Script

  datatype TrialRecord = TrialRecord(result: AgentResult, executed: seq<ExecutedPurchase>, outcome: GradeOutcome)

  /** One trial on a given executor: its record, or the exception that aborts the run. */
  function Trial(task: TaskSpec, agent: AgentFn, seed: int, ex: ExecutorState): (Result<TrialRecord>, ExecutorState) {
    var script := agent(task, seed, ex);
    var after := PayAll(ex.byId, TrialState(ex.attempts, []), script.calls);
    var record :=
      match script.ending
      case Returned(result) => Ok(TrialRecord(result, after.calls, GradeOf(result, task, after.calls)))
      case ReturnedOther => Err(TypeError)
      case Propagated(e) => Err(e);
    (record, ExecutorState(ex.byId, after.attempts))
  }

  datatype Progress = Progress(records: Result<seq<TrialRecord>>, shared: Option<ExecutorState>)

  /** With no executor given the trial builds its own; a given one is reused. */
  function NextTrial(task: TaskSpec, agent: AgentFn, seed: int, shared: Option<ExecutorState>)
    : (Result<TrialRecord>, Option<ExecutorState>)
  {
    match shared
    case Some(state) =>
      var (record, after) := Trial(task, agent, seed, state);
      (record, Some(after))
    case None =>
      if task.kind.RealX402? then (Err(ValueError), None)
      else (Trial(task, agent, seed, ExecutorState(ById(task.vendors), map[])).0, None)
  }

  function Advance(task: TaskSpec, agent: AgentFn, seed: int, before: Progress): Progress {
    match before.records
    case Err(_) => before
    case Ok(records) =>
      var (record, after) := NextTrial(task, agent, seed, before.shared);
      Progress(match record { case Ok(r) => Ok(records + [r]) case Err(e) => Err(e) }, after)
  }

  function Step(task: TaskSpec, agent: AgentFn): (int, Progress) -> Progress {
    (seed: int, before: Progress) => Advance(task, agent, seed, before)
  }

  function Iterate<S>(step: (int, S) -> S, seed: int, n: nat, start: S): S {
    if n == 0 then start else step(seed + n - 1, Iterate(step, seed, n - 1, start))
  }

  /** The first n trials; the first exception ends the run. */
  function Trials(task: TaskSpec, agent: AgentFn, baseSeed: int, shared: Option<ExecutorState>, n: nat): Progress {
    Iterate(Step(task, agent), baseSeed, n, Progress(Ok([]), shared))
  }

  // ----- the report

  datatype VendorOutcome = VendorOutcome(successes: int, failures: int)

  const Z: real := 1.96

  /** A reported interval, given the square root that it takes. */
  type Interval = real -> Result<(real, real)>

  function RateInterval(successes: int, n: int): Interval {
    (root: real) => WilsonInterval(successes, n, Z, root)
  }

  function PassInterval(successes: int, n: int, k: nat): Interval {
    (root: real) => PassKInterval(successes, n, k, Z, root)
  }

  /** The trials that captured the best price, where the task makes that a question. */
  function Captures(task: TaskSpec, records: seq<TrialRecord>): Option<nat> {
    match CheapestInPolicyVendor(task)
    case Some(target) =>
      if task.grading.expected.None? then None
      else Some(Count((r: TrialRecord) => Captured(target, r), records))
    case None => None
  }

  datatype EvalReport = EvalReport(
    nTrials: nat,
    outcomes: seq<GradeOutcome>,
    pass1: real,
    pass1Ci: Interval,
    passK: map<nat, Result<real>>,
    passKCi: map<nat, Interval>,
    touchpointsPerBasket: real,
    budgetViolations: nat,
    bestPriceCaptureRate: Option<real>,
    bestPriceCaptureRateCi: Option<Interval>,
    costPerCompletedTx: Option<real>,
    escalationRate: real,
    escalationReasons: multiset<string>,
    unverifiedClaims: nat,
    settledTxHashes: seq<string>,
    vendorOutcomes: map<string, VendorOutcome>)

  predicate Overspent(task: TaskSpec, executed: seq<ExecutedPurchase>) {
    TotalPaid(executed) > task.mandate.budgetCap
  }

  predicate Captured(target: Vendor, r: TrialRecord) {
    && !r.outcome.BUDGET_VIOLATION? && !r.outcome.UNVERIFIED_CLAIM?
    && |r.executed| == 1 && r.executed[0].vendorId == target.vendorId
  }

  function CountOutcome(outcome: GradeOutcome, records: seq<TrialRecord>): nat {
    Count((r: TrialRecord) => r.outcome == outcome, records)
  }

  function AllExecuted(records: seq<TrialRecord>): seq<ExecutedPurchase> {
    if records == [] then [] else AllExecuted(records[..|records| - 1]) + records[|records| - 1].executed
  }

  function Texts(escalations: seq<Reason>): seq<string> {
    seq(|escalations|, i requires 0 <= i < |escalations| => escalations[i].Text())
  }

  function Reasons(records: seq<TrialRecord>): multiset<string> {
    if records == [] then multiset{} else multiset(Texts(records[0].result.escalations)) + Reasons(records[1..])
  }

  function Hashes(executed: seq<ExecutedPurchase>): seq<string> {
    if executed == [] then [] else
      (if executed[0].txHash.Some? && executed[0].txHash.value != "" then [executed[0].txHash.value] else [])
      + Hashes(executed[1..])
  }

  function Tally(outcomes: map<string, VendorOutcome>, e: ExecutedPurchase): map<string, VendorOutcome> {
    var prior := if e.vendorId in outcomes then outcomes[e.vendorId] else VendorOutcome(0, 0);
    outcomes[e.vendorId :=
      if e.verified then VendorOutcome(prior.successes + 1, prior.failures) else VendorOutcome(prior.successes, prior.failures + 1)]
  }

  function TallyOnto(outcomes: map<string, VendorOutcome>, executed: seq<ExecutedPurchase>): map<string, VendorOutcome> {
    Fold(Tally, outcomes, executed)
  }

  function TallyAll(executed: seq<ExecutedPurchase>): map<string, VendorOutcome> {
    TallyOnto(map[], executed)
  }

  function Report(task: TaskSpec, records: seq<TrialRecord>): EvalReport
    requires records != []
  {
    var n := |records|;
    var successes := CountOutcome(PASS, records);
    var completed := Filter((r: TrialRecord) => r.outcome.PASS?, records);
    EvalReport(
      n,
      seq(n, i requires 0 <= i < n => records[i].outcome),
      successes as real / n as real,
      RateInterval(successes, n),
      map k | k in {4, 8} && k <= n :: PassK(successes, n, k),
      map k | k in {4, 8} && k <= n :: PassInterval(successes, n, k),
      Sum((r: TrialRecord) => r.result.touchpoints as real, records) / n as real,
      Count((r: TrialRecord) => task.grading.budgetAdherenceRequired && Overspent(task, r.executed), records),
      match Captures(task, records) { case Some(c) => Some(c as real / n as real) case None => None },
      match Captures(task, records) { case Some(c) => Some(RateInterval(c, n)) case None => None },
      if completed == [] then None
      else Some(Sum((r: TrialRecord) => r.result.cost as real, completed) / |completed| as real),
      Count((r: TrialRecord) => r.result.escalations != [], records) as real / n as real,
      Reasons(records),
      CountOutcome(UNVERIFIED_CLAIM, records),
      Hashes(AllExecuted(records)),
      TallyAll(AllExecuted(records)))
  }

  function Evaluate(task: TaskSpec, agent: AgentFn, nTrials: int, baseSeed: int, shared: Option<ExecutorState>): Result<EvalReport> {
    if nTrials < 1 then Err(ValueError) else
      match Trials(task, agent, baseSeed, shared, nTrials).records
      case Err(e) => Err(e)
      case Ok(records) => TrialsLength(task, agent, baseSeed, shared, nTrials); Ok(Report(task, records))
  }

  /** A report as it is filed. */
  datatype FiledReport = FiledReport(taskId: string, agentId: string, dateUtc: string, baseSeed: int, report: EvalReport)

  /** run_eval: the agent has to carry an id; the date is that of the clock. */
  function EvaluateAs(task: TaskSpec, agent: AgentFn, agentId: Option<string>, dateUtc: string, nTrials: int, baseSeed: int,
                      shared: Option<ExecutorState>): Result<FiledReport>
  {
    if nTrials < 1 then Err(ValueError)
    else if agentId.None? || agentId.value == "" then Err(TypeError)
    else
      match Evaluate(task, agent, nTrials, baseSeed, shared)
      case Err(e) => Err(e)
      case Ok(report) => Ok(FiledReport(task.taskId, agentId.value, dateUtc, baseSeed, report))
  }

  lemma {:induction false} TrialsLength(task: TaskSpec, agent: AgentFn, baseSeed: int, shared: Option<ExecutorState>, n: nat)
    ensures Trials(task, agent, baseSeed, shared, n).records.Ok? ==>
              |Trials(task, agent, baseSeed, shared, n).records.value| == n
    ensures Trials(task, agent, baseSeed, shared, n).shared.None? <==> shared.None?
  {
    if n > 0 {
      TrialsLength(task, agent, baseSeed, shared, n - 1);
    }
  }

  // ----- the loops

  /** The agent's payments, driven one by one through the recording view. */
  method DriveAgent(view: RecordingView, calls: seq<PayCall>)
    modifies view`calls, view.inner`attempts
    ensures view.State() == PayAll(view.inner.byId, old(view.State()), calls)
  {
    ghost var start := view.State();
    assert calls[..0] == [];
    for i := 0 to |calls|
      invariant view.State() == PayAll(view.inner.byId, start, calls[..i])
    {
      var _ := view.Pay(calls[i]);
      assert calls[..i + 1][..i] == calls[..i];
    }
    assert calls[..|calls|] == calls;
  }

  method TallyTrial(prior: map<string, VendorOutcome>, executed: seq<ExecutedPurchase>)
    returns (outcomes: map<string, VendorOutcome>)
    ensures outcomes == TallyOnto(prior, executed)
  {
    outcomes := prior;
    assert executed[..0] == [];
    for j := 0 to |executed|
      invariant outcomes == TallyOnto(prior, executed[..j])
    {
      var e := executed[j];
      if e.vendorId !in outcomes {
        outcomes := outcomes[e.vendorId := VendorOutcome(0, 0)];
      }
      var outcome := outcomes[e.vendorId];
      if e.verified {
        outcome := outcome.(successes := outcome.successes + 1);
      } else {
        outcome := outcome.(failures := outcome.failures + 1);
      }
      outcomes := outcomes[e.vendorId := outcome];
      assert executed[..j + 1][..j] == executed[..j];
    }
    assert executed[..|executed|] == executed;
  }

  method CountVendorOutcomes(records: seq<TrialRecord>) returns (outcomes: map<string, VendorOutcome>)
    ensures outcomes == TallyAll(AllExecuted(records))
  {
    outcomes := map[];
    assert records[..0] == [];
    for i := 0 to |records|
      invariant outcomes == TallyAll(AllExecuted(records[..i]))
    {
      outcomes := TallyTrial(outcomes, records[i].executed);
      FoldAppend(Tally, map[], AllExecuted(records[..i]), records[i].executed);
      assert records[..i + 1][..i] == records[..i];
    }
    assert records[..|records|] == records;
  }

  method RunTrial(task: TaskSpec, agent: AgentFn, seed: int, inner: SyntheticExecutor) returns (r: Result<TrialRecord>)
    modifies inner`attempts
    ensures (r, ExecutorState(inner.byId, inner.attempts))
            == Trial(task, agent, seed, ExecutorState(inner.byId, old(inner.attempts)))
  {
    var view := new RecordingView(inner);
    var script := agent(task, seed, ExecutorState(inner.byId, inner.attempts));
    DriveAgent(view, script.calls);
    match script.ending {
      case ReturnedOther => return Err(TypeError);
      case Propagated(e) => return Err(e);
      case Returned(result) =>
        var outcome := Grade(result, task, view.calls);
        return Ok(TrialRecord(result, view.calls, outcome));
    }
  }

  /** What an executor object, or its absence, is to the trials. */
  ghost function SharedState(executor: SyntheticExecutor?): Option<ExecutorState>
    reads executor
  {
    if executor == null then None else Some(ExecutorState(executor.byId, executor.attempts))
  }

  method RunNextTrial(task: TaskSpec, agent: AgentFn, seed: int, executor: SyntheticExecutor?)
    returns (r: Result<TrialRecord>)
    modifies (if executor == null then {} else {executor})
    ensures (r, SharedState(executor)) == NextTrial(task, agent, seed, old(SharedState(executor)))
  {
    if executor != null {
      r := RunTrial(task, agent, seed, executor);
    } else if task.kind.RealX402? {
      r := Err(ValueError);
    } else {
      var inner := new SyntheticExecutor(task);
      r := RunTrial(task, agent, seed, inner);
    }
  }

  method RunTrials(task: TaskSpec, agent: AgentFn, nTrials: nat, baseSeed: int, executor: SyntheticExecutor?)
    returns (r: Result<seq<TrialRecord>>)
    modifies (if executor == null then {} else {executor})
    ensures r == Trials(task, agent, baseSeed, old(SharedState(executor)), nTrials).records
    ensures r.Ok? ==> SharedState(executor) == Trials(task, agent, baseSeed, old(SharedState(executor)), nTrials).shared
  {
    ghost var shared := SharedState(executor);
    var records: seq<TrialRecord> := [];
    for i := 0 to nTrials
      invariant Trials(task, agent, baseSeed, shared, i) == Progress(Ok(records), SharedState(executor))
    {
      ghost var before := SharedState(executor);
      var record := RunNextTrial(task, agent, baseSeed + i, executor);
      TrialStep(task, agent, baseSeed, shared, i, nTrials, records, before, record, SharedState(executor));
      if record.Err? {
        return Err(record.error);
      }
      records := records + [record.value];
    }
    return Ok(records);
  }

  method RunEval(task: TaskSpec, agent: AgentFn, agentId: Option<string>, dateUtc: string, nTrials: int, baseSeed: int,
                 executor: SyntheticExecutor?) returns (r: Result<FiledReport>)
    modifies (if executor == null then {} else {executor})
    ensures r == EvaluateAs(task, agent, agentId, dateUtc, nTrials, baseSeed, old(SharedState(executor)))
  {
    if nTrials < 1 {
      return Err(ValueError);
    }
    if agentId.None? || agentId.value == "" {
      return Err(TypeError);
    }
    var records :- RunTrials(task, agent, nTrials, baseSeed, executor);
    TrialsLength(task, agent, baseSeed, old(SharedState(executor)), nTrials);
    var vendorOutcomes := CountVendorOutcomes(records);
    return Ok(FiledReport(task.taskId, agentId.value, dateUtc, baseSeed, Report(task, records).(vendorOutcomes := vendorOutcomes)));
  }

  lemma TrialStep(task: TaskSpec, agent: AgentFn, baseSeed: int, shared: Option<ExecutorState>, i: nat, n: nat,
                  records: seq<TrialRecord>, before: Option<ExecutorState>, record: Result<TrialRecord>, after: Option<ExecutorState>)
    requires i < n && Trials(task, agent, baseSeed, shared, i) == Progress(Ok(records), before)
    requires NextTrial(task, agent, baseSeed + i, before) == (record, after)
    ensures record.Ok? ==> Trials(task, agent, baseSeed, shared, i + 1) == Progress(Ok(records + [record.value]), after)
    ensures record.Err? ==> Trials(task, agent, baseSeed, shared, n).records == Err(record.error)
  {
    TrialsUnfold(task, agent, baseSeed, shared, i);
    if record.Err? {
      StopsAt(task, agent, baseSeed, shared, i + 1, n);
    }
  }

  lemma TrialsUnfold(task: TaskSpec, agent: AgentFn, baseSeed: int, shared: Option<ExecutorState>, i: nat)
    ensures Trials(task, agent, baseSeed, shared, i + 1)
            == Advance(task, agent, baseSeed + i, Trials(task, agent, baseSeed, shared, i))
  {
  }

  lemma {:induction false} StopsAt(task: TaskSpec, agent: AgentFn, baseSeed: int, shared: Option<ExecutorState>, i: nat, n: nat)
    requires i <= n && Trials(task, agent, baseSeed, shared, i).records.Err?
    ensures Trials(task, agent, baseSeed, shared, n) == Trials(task, agent, baseSeed, shared, i)
  {
    if i < n {
      StopsAt(task, agent, baseSeed, shared, i, n - 1);
    }
  }
}
