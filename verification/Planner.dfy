/** claude-planner-v1 with the language model as an arbitrary oracle. */
module Planner {
  import opened Sequences
  import opened Errors
  import opened Models
  import opened Policy
  import opened Executor
  import opened Grading
  import opened Estimation
  import opened Harness
  import opened Accounting

  datatype Decision = Decision(vendorId: Option<string>, escalate: bool, reason: Option<string>)

  datatype Usage = Usage(inputTokens: nat, outputTokens: nat)

  datatype LlmReply = CallFailed(error: Exn) | ParseFailure | Parsed(decision: Decision, usage: Option<Usage>)

  /** What the model answers in the trial with a given seed, and whether its price is known. */
  datatype Oracle = Oracle(reply: int -> LlmReply, priced: bool)

  const PRICE_IN: real := 1.0
  const PRICE_OUT: real := 5.0
  const MILLION: real := 1000000.0

  /** Decimal.quantize to six places, halves up, for a non-negative amount. */
  function Quantize(x: real): real {
    (x * MILLION + 0.5).Floor as real / MILLION
  }

  function TokenCost(usage: Option<Usage>, priced: bool): (r: Result<Usdc>)
    ensures r.Err? <==> usage.Some? && !priced
    ensures r.Ok? && usage.Some? ==>
              r.value * MILLION == usage.value.inputTokens as real * PRICE_IN + usage.value.outputTokens as real * PRICE_OUT
  {
    match usage
    case None => Ok(0.0)
    case Some(u) =>
      if !priced then Err(ValueError) else
        var units := u.inputTokens + 5 * u.outputTokens;
        var cost := (u.inputTokens as real * PRICE_IN + u.outputTokens as real * PRICE_OUT) / MILLION;
        assert cost * MILLION == units as real;
        assert (units as real + 0.5).Floor == units;
        Ok(Quantize(cost))
  }

  function Escalated(reason: Reason, cost: Usdc): AgentResult {
    AgentResult([], 2, [reason], cost)
  }

  /** What the planner does before it pays, if it pays at all. */
  datatype Plan = Finish(result: AgentResult) | Abort(error: Exn) | Buy(target: string, cost: Usdc)

  function OrDefault(text: Option<string>, default: string): string {
    if text.Some? && text.value != "" then text.value else default
  }

  /** The model's reason, or the planner's own where the model gave none or an empty one. */
  function GivenReason(reason: Option<string>): Reason {
    if reason.Some? && reason.value != "" then FreeText(reason.value) else PlannerEscalated
  }

  /** What the planner makes of a parsed decision. */
  function Choose(task: TaskSpec, decision: Decision, cost: Usdc): Plan {
    if decision.escalate || decision.vendorId.None?
    then Finish(Escalated(GivenReason(decision.reason), cost))
    else AfterCheck(CheckPurchase(task, decision.vendorId.value), cost)
  }

  function AfterCheck(checked: Result<Vendor>, cost: Usdc): Plan {
    match checked
    case Err(PriceAnomaly) => Finish(Escalated(PriceAnomalous, cost))
    case Err(e) => Abort(e)
    case Ok(chosen) => Buy(OrDefault(chosen.url, chosen.vendorId), cost)
  }

  function Decide(task: TaskSpec, reply: LlmReply, priced: bool): Plan {
    if InPolicyCandidates(task) == [] then Finish(Escalated(NoInPolicyVendor, 0.0)) else
      match reply
      case CallFailed(e) => Abort(e)
      case ParseFailure => Abort(ParsingError)
      case Parsed(decision, usage) =>
        match TokenCost(usage, priced)
        case Err(e) => Abort(e)
        case Ok(cost) => Choose(task, decision, cost)
  }

  function Conclude(reply: Reply, cost: Usdc): Ending {
    match reply
    case Paid(p) => Returned(AgentResult([Purchase(p.vendorId, p.amountPaid)], 1, [], cost))
    case Raised(e) => Propagated(e)
  }

  /** The plan carried out: at most one payment, up to the budget cap. */
  function PlanScript(task: TaskSpec, plan: Plan, ex: ExecutorState, calls: seq<ExecutedPurchase>): Script {
    match plan
    case Finish(result) => Script([], Returned(result))
    case Abort(e) => Script([], Propagated(e))
    case Buy(target, cost) =>
      var call := PayCall(target, task.mandate.budgetCap);
      Script([call], Conclude(ViewPay(ex.byId, TrialState(ex.attempts, calls), call).0, cost))
  }

  function PlannerV1(oracle: Oracle): AgentFn {
    (task: TaskSpec, seed: int, ex: ExecutorState) =>
      PlanScript(task, Decide(task, oracle.reply(seed), oracle.priced), ex, [])
  }

  lemma PayOne(byId: Catalog, st: TrialState, call: PayCall)
    ensures PayAll(byId, st, [call]) == ViewPay(byId, st, call).1
  {
    FoldOne(Payer(byId), st, call);
  }

  /** run_task, paying through the view it is handed. */
  method RunTask(task: TaskSpec, reply: LlmReply, priced: bool, view: RecordingView) returns (ending: Ending)
    modifies view`calls, view.inner`attempts
    ensures var script := PlanScript(task, Decide(task, reply, priced),
                                     ExecutorState(view.inner.byId, old(view.inner.attempts)), old(view.calls));
            && ending == script.ending
            && view.State() == PayAll(view.inner.byId, old(view.State()), script.calls)
  {
    ghost var start := view.State();
    match Decide(task, reply, priced) {
      case Finish(result) => return Returned(result);
      case Abort(e) => return Propagated(e);
      case Buy(target, cost) =>
        var call := PayCall(target, task.mandate.budgetCap);
        PayOne(view.inner.byId, start, call);
        var payment := view.Pay(call);
        return Conclude(payment, cost);
    }
  }

  // ----- what holds for every answer of the model

  /** A trial of the planner: honest, within the cap, and either one purchase without an
      escalation or one escalation without a purchase. */
  predicate PlannerRecord(task: TaskSpec, r: TrialRecord) {
    && !r.outcome.UNVERIFIED_CLAIM? && !r.outcome.BUDGET_VIOLATION?
    && !Overspent(task, r.executed)
    && |r.executed| + |r.result.escalations| == 1
    && r.result.touchpoints == 1 + |r.result.escalations|
  }

  /** The record of a planner trial, or the exception that ends the run. */
  function PlannerOutcome(task: TaskSpec, plan: Plan, ex: ExecutorState): Result<TrialRecord> {
    match plan
    case Finish(result) => Ok(TrialRecord(result, [], GradeOf(result, task, [])))
    case Abort(e) => Err(e)
    case Buy(target, cost) =>
      match SyntheticPay(ex.byId, ex.attempts, PayCall(target, task.mandate.budgetCap)).0
      case Raised(e) => Err(e)
      case Paid(p) =>
        var result := AgentResult([Purchase(p.vendorId, p.amountPaid)], 1, [], cost);
        Ok(TrialRecord(result, [p], GradeOf(result, task, [p])))
  }

  lemma PlanTrial(task: TaskSpec, agent: AgentFn, seed: int, plan: Plan, ex: ExecutorState)
    requires agent(task, seed, ex) == PlanScript(task, plan, ex, [])
    ensures Trial(task, agent, seed, ex).0 == PlannerOutcome(task, plan, ex)
  {
    if plan.Buy? {
      var call, st := PayCall(plan.target, task.mandate.budgetCap), TrialState(ex.attempts, []);
      PayOne(ex.byId, st, call);
      assert !AlreadyPurchased(call.target, st.calls);
    }
  }

  predicate IsEscalation(result: AgentResult) {
    result.purchases == [] && result.touchpoints == 2 && |result.escalations| == 1
  }

  lemma PlannerTrial(task: TaskSpec, plan: Plan, ex: ExecutorState)
    requires plan.Finish? ==> IsEscalation(plan.result)
    ensures PlannerOutcome(task, plan, ex).Ok? ==> PlannerRecord(task, PlannerOutcome(task, plan, ex).value)
  {
    match plan {
      case Finish(result) =>
        assert TotalPaid([]) == 0.0;
      case Abort(_) =>
      case Buy(target, cost) =>
        var reply := SyntheticPay(ex.byId, ex.attempts, PayCall(target, task.mandate.budgetCap)).0;
        if reply.Paid? {
          HonestPurchase(reply.purchase);
        }
    }
  }

  lemma PlanEscalates(task: TaskSpec, reply: LlmReply, priced: bool)
    ensures var plan := Decide(task, reply, priced);
            plan.Finish? ==> IsEscalation(plan.result)
  {
    if reply.Parsed? && TokenCost(reply.usage, priced).Ok? {
      ChoiceEscalates(task, reply.decision, TokenCost(reply.usage, priced).value);
    }
  }

  lemma ChoiceEscalates(task: TaskSpec, decision: Decision, cost: Usdc)
    ensures Choose(task, decision, cost).Finish? ==> IsEscalation(Choose(task, decision, cost).result)
  {
  }

  lemma HonestPurchase(p: ExecutedPurchase)
    ensures TotalPaid([p]) == p.amountPaid
    ensures p.verified ==> Reconcile([Purchase(p.vendorId, p.amountPaid)], [p])
  {
    assert Sum((e: ExecutedPurchase) => e.amountPaid, [p][1..]) == 0.0;
    if p.verified {
      var claim := Purchase(p.vendorId, p.amountPaid);
      assert Matches(claim, [p][0]);
      assert FirstMatch(claim, [p]) == Some(0);
    }
  }

  lemma {:induction false} TouchpointsAndEscalations(task: TaskSpec, records: seq<TrialRecord>)
    requires forall r :: r in records ==> PlannerRecord(task, r)
    ensures Sum((r: TrialRecord) => r.result.touchpoints as real, records)
            == |records| as real + Count((r: TrialRecord) => r.result.escalations != [], records) as real
  {
    if records != [] {
      TouchpointsAndEscalations(task, records[1..]);
      assert PlannerRecord(task, records[0]);
    }
  }

  /** For every task, every oracle and every executor state, an evaluation of the planner either
      propagates an exception or reports no budget violation, no unverified claim, and one
      touchpoint a basket beyond which each escalation costs one more. */
  lemma PlannerKeepsBudget(task: TaskSpec, oracle: Oracle, nTrials: int, baseSeed: int, shared: Option<ExecutorState>)
    ensures var r := Evaluate(task, PlannerV1(oracle), nTrials, baseSeed, shared);
            r.Ok? ==>
              && r.value.budgetViolations == 0
              && r.value.unverifiedClaims == 0
              && r.value.touchpointsPerBasket == 1.0 + r.value.escalationRate
  {
    if Evaluate(task, PlannerV1(oracle), nTrials, baseSeed, shared).Ok? {
      TrialsLength(task, PlannerV1(oracle), baseSeed, shared, nTrials);
      EveryPlannerRecord(task, oracle, baseSeed, shared, nTrials);
      PlannerReport(task, Trials(task, PlannerV1(oracle), baseSeed, shared, nTrials).records.value);
    }
  }

  lemma PlannerReport(task: TaskSpec, records: seq<TrialRecord>)
    requires records != [] && forall r :: r in records ==> PlannerRecord(task, r)
    ensures Report(task, records).budgetViolations == 0
    ensures Report(task, records).unverifiedClaims == 0
    ensures Report(task, records).touchpointsPerBasket == 1.0 + Report(task, records).escalationRate
  {
    CountZero((r: TrialRecord) => task.grading.budgetAdherenceRequired && Overspent(task, r.executed), records);
    CountZero((r: TrialRecord) => r.outcome == UNVERIFIED_CLAIM, records);
    PlannerTouchpoints(task, records);
  }

  lemma PlannerTouchpoints(task: TaskSpec, records: seq<TrialRecord>)
    requires records != [] && forall r :: r in records ==> PlannerRecord(task, r)
    ensures Report(task, records).touchpointsPerBasket == 1.0 + Report(task, records).escalationRate
  {
    TouchpointsAndEscalations(task, records);
    OnePlusRate(|records| as real, Count((r: TrialRecord) => r.result.escalations != [], records) as real,
                Sum((r: TrialRecord) => r.result.touchpoints as real, records),
                Report(task, records).touchpointsPerBasket, Report(task, records).escalationRate);
  }

  lemma OnePlusRate(n: real, e: real, t: real, x: real, y: real)
    requires n > 0.0 && t == n + e && x == t / n && y == e / n
    ensures x == 1.0 + y
  {
    assert x * n == t && y * n == e;
    Cancel(n, x, 1.0 + y);
  }

  lemma EveryPlannerRecord(task: TaskSpec, oracle: Oracle, b: int, shared: Option<ExecutorState>, n: nat)
    ensures Trials(task, PlannerV1(oracle), b, shared, n).records.Ok? ==>
              forall r :: r in Trials(task, PlannerV1(oracle), b, shared, n).records.value ==> PlannerRecord(task, r)
  {
    forall seed: int, ex: ExecutorState | Trial(task, PlannerV1(oracle), seed, ex).0.Ok?
      ensures PlannerRecord(task, Trial(task, PlannerV1(oracle), seed, ex).0.value)
    {
      PlanTrial(task, PlannerV1(oracle), seed, Decide(task, oracle.reply(seed), oracle.priced), ex);
      PlanEscalates(task, oracle.reply(seed), oracle.priced);
      PlannerTrial(task, Decide(task, oracle.reply(seed), oracle.priced), ex);
    }
    EveryRecord(task, PlannerV1(oracle), b, shared, n, (r: TrialRecord) => PlannerRecord(task, r));
  }
}
