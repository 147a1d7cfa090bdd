/** Whom the planner pays: exactly when every answer of the model leaves it within policy, and
    what it does with the vendor that the model names. */
module PlannerPolicy {
  import opened Sequences
  import opened Errors
  import opened Models
  import opened Policy
  import opened Executor
  import opened Harness
  import opened Accounting
  import opened Planner

  /** The purchase of an in-policy candidate whose price passes the sanity check, at its catalog price. */
  ghost predicate InPolicyPurchase(task: TaskSpec, p: ExecutedPurchase) {
    exists v :: v in InPolicyCandidates(task) && PriceSane(task, v) && p == SyntheticPurchase(v)
  }

  ghost predicate PaysInPolicy(task: TaskSpec, r: TrialRecord) {
    forall p :: p in r.executed ==> InPolicyPurchase(task, p)
  }

  /** What the planner pays for a candidate: its url where it has one, else its id. */
  function CallOf(task: TaskSpec, v: Vendor): PayCall {
    PayCall(OrDefault(v.url, v.vendorId), task.mandate.budgetCap)
  }

  /** Some target names this candidate first, and paying for it buys from a vendor outside policy:
      its url is the id of one, or its id is shared by one listed later. */
  ghost predicate LeadsOutside(task: TaskSpec, v: Vendor) {
    var byId, call := ById(task.vendors), CallOf(task, v);
    && PriceSane(task, v) && (exists target :: FirstNamed(task, target, v))
    && Effective(byId, call) && byId[call.target].failsNextNAttempts == 0
    && !InPolicyPurchase(task, SyntheticPurchase(byId[call.target]))
  }

  ghost predicate RunPaysInPolicy(task: TaskSpec, oracle: Oracle, b: int, n: nat) {
    Trials(task, PlannerV1(oracle), b, None, n).records.Ok? ==>
      forall r :: r in Trials(task, PlannerV1(oracle), b, None, n).records.value ==> PaysInPolicy(task, r)
  }

  /** Every run under every answer pays in policy exactly when no candidate leads outside it. */
  lemma PlannerPaysInPolicy(task: TaskSpec)
    requires task.kind.Synthetic?
    ensures (forall v :: !LeadsOutside(task, v)) <==>
            forall oracle: Oracle, b: int, n: nat :: RunPaysInPolicy(task, oracle, b, n)
  {
    if v :| LeadsOutside(task, v) {
      var oracle := OutsideRun(task, v);
      assert !RunPaysInPolicy(task, oracle, 0, 1);
    } else {
      forall oracle: Oracle, b: int, n: nat ensures RunPaysInPolicy(task, oracle, b, n) {
        InsideRun(task, oracle, b, n);
      }
    }
  }

  lemma FirstTrial(task: TaskSpec, agent: AgentFn, seed: int)
    requires task.kind.Synthetic?
    ensures DefaultTrial(task, agent)(seed) == Trial(task, agent, seed, ExecutorState(ById(task.vendors), map[])).0
  {
  }

  /** A default trial of the planner carries out its plan on a new executor. */
  lemma PlannedTrial(task: TaskSpec, oracle: Oracle, seed: int)
    requires task.kind.Synthetic?
    ensures DefaultTrial(task, PlannerV1(oracle))(seed)
            == PlannerOutcome(task, Decide(task, oracle.reply(seed), oracle.priced), ExecutorState(ById(task.vendors), map[]))
  {
    PlanTrial(task, PlannerV1(oracle), seed, Decide(task, oracle.reply(seed), oracle.priced), ExecutorState(ById(task.vendors), map[]));
    FirstTrial(task, PlannerV1(oracle), seed);
  }

  lemma InsideRun(task: TaskSpec, oracle: Oracle, b: int, n: nat)
    requires task.kind.Synthetic? && forall v :: !LeadsOutside(task, v)
    ensures RunPaysInPolicy(task, oracle, b, n)
  {
    forall seed: int | DefaultTrial(task, PlannerV1(oracle))(seed).Ok?
      ensures PaysInPolicy(task, DefaultTrial(task, PlannerV1(oracle))(seed).value)
    {
      PlannedTrial(task, oracle, seed);
      PaysCandidate(task, oracle.reply(seed), oracle.priced);
    }
    EveryDefaultRecord(task, PlannerV1(oracle), b, n, r => PaysInPolicy(task, r));
  }

  lemma PaysCandidate(task: TaskSpec, reply: LlmReply, priced: bool)
    requires forall v :: !LeadsOutside(task, v)
    ensures var record := PlannerOutcome(task, Decide(task, reply, priced), ExecutorState(ById(task.vendors), map[]));
            record.Ok? ==> PaysInPolicy(task, record.value)
  {
    var plan := Decide(task, reply, priced);
    if plan.Finish? {
      PlanEscalates(task, reply, priced);
    } else if plan.Buy? {
      var v := ChosenVendor(task, reply, priced);
      assert !LeadsOutside(task, v);
      BuysChosen(task, plan, v);
    }
  }

  lemma ChosenVendor(task: TaskSpec, reply: LlmReply, priced: bool) returns (v: Vendor)
    requires Decide(task, reply, priced).Buy?
    ensures reply.Parsed? && reply.decision.vendorId.Some?
    ensures FirstNamed(task, reply.decision.vendorId.value, v) && PriceSane(task, v)
    ensures Decide(task, reply, priced).target == CallOf(task, v).target
  {
    v := CheckPurchase(task, reply.decision.vendorId.value).value;
    CheckPurchaseExactly(task, reply.decision.vendorId.value);
  }

  lemma BuysChosen(task: TaskSpec, plan: Plan, v: Vendor)
    requires !LeadsOutside(task, v) && PriceSane(task, v) && exists target :: FirstNamed(task, target, v)
    requires plan.Buy? && plan.target == CallOf(task, v).target
    ensures var record := PlannerOutcome(task, plan, ExecutorState(ById(task.vendors), map[]));
            record.Ok? ==> PaysInPolicy(task, record.value)
  {
  }

  /** The answer that names such a candidate. */
  lemma OutsideRun(task: TaskSpec, v: Vendor) returns (oracle: Oracle)
    requires task.kind.Synthetic? && LeadsOutside(task, v)
    ensures !RunPaysInPolicy(task, oracle, 0, 1)
  {
    var target :| FirstNamed(task, target, v);
    oracle := Oracle((seed: int) => Parsed(Decision(Some(target), false, None), None), true);
    var plan, ex := Decide(task, oracle.reply(0), true), ExecutorState(ById(task.vendors), map[]);
    NamedFirst(task, target, v);
    assert plan == Buy(CallOf(task, v).target, 0.0);
    PlannedTrial(task, oracle, 0);
    OutsideRecord(task, v, plan, ex);
    DefaultRunTrialwise(task, PlannerV1(oracle), 0, 1);
    OneTrial(task, PlannerV1(oracle), 0);
  }

  lemma OneTrial(task: TaskSpec, agent: AgentFn, b: int)
    requires DefaultTrial(task, agent)(b).Ok?
    ensures Trials(task, agent, b, None, 1).records == Ok([DefaultTrial(task, agent)(b).value])
  {
    TrialsUnfold(task, agent, b, None, 0);
    assert [] + [DefaultTrial(task, agent)(b).value] == [DefaultTrial(task, agent)(b).value];
  }

  lemma OutsideRecord(task: TaskSpec, v: Vendor, plan: Plan, ex: ExecutorState)
    requires LeadsOutside(task, v) && plan == Buy(CallOf(task, v).target, 0.0) && ex == ExecutorState(ById(task.vendors), map[])
    ensures PlannerOutcome(task, plan, ex).Ok? && !PaysInPolicy(task, PlannerOutcome(task, plan, ex).value)
  {
    var p := SyntheticPurchase(ex.byId[plan.target]);
    assert p in [p];
  }

  lemma NamedFirst(task: TaskSpec, target: string, v: Vendor)
    requires FirstNamed(task, target, v)
    ensures InPolicyCandidates(task) != []
    ensures CheckPurchase(task, target) == if PriceSane(task, v) then Ok(v) else Err(PriceAnomaly)
  {
    CheckPurchaseExactly(task, target);
    var c :| FirstNamed(task, target, c)
             && CheckPurchase(task, target) == if PriceSane(task, c) then Ok(c) else Err(PriceAnomaly);
    FirstNamedOnce(task, target, v, c);
  }

  /** Where ids name one vendor each, no candidate leads outside. */
  lemma ApartStaysInside(task: TaskSpec, v: Vendor)
    requires DistinctVendorIds(task.vendors) && UrlsApart(task.vendors)
    ensures !LeadsOutside(task, v)
  {
    var t := CallOf(task, v).target;
    if t in ById(task.vendors) && v in InPolicyCandidates(task) {
      CandidateIff(task, v);
      UrlNamesItself(task.vendors, v, ById(task.vendors)[t]);
    }
  }

  /** A catalog with such a candidate: its url is the id of a vendor of another category. */
  lemma UrlLeadsOutside() returns (task: TaskSpec, v: Vendor)
    ensures DistinctVendorIds(task.vendors) && LeadsOutside(task, v)
  {
    v := Vendor("a", "c", 0.0, true, Some("b"), None, 0, false);
    var w := Vendor("b", "d", 0.0, true, None, None, 0, false);
    task := TaskSpec("t", Mandate("c", 0.0, None, None), [v, w], Synthetic, Grading(None, false));
    TwoById(v, w);
    CandidateIff(task, v);
    CandidateIff(task, w);
    OnlyCandidate(task, v, w);
  }

  lemma TwoById(v: Vendor, w: Vendor)
    ensures ById([v, w]) == map[v.vendorId := v, w.vendorId := w]
  {
    assert [v, w][..1] == [v] && [v][..0] == [];
  }

  lemma OnlyCandidate(task: TaskSpec, v: Vendor, w: Vendor)
    requires task.vendors == [v, w] && v.vendorId != w.vendorId
    requires v in InPolicyCandidates(task) && w !in InPolicyCandidates(task)
    ensures FirstNamed(task, v.vendorId, v)
    ensures !InPolicyPurchase(task, SyntheticPurchase(w))
  {
    forall c | c in InPolicyCandidates(task) ensures c == v {
      CandidateIff(task, c);
    }
    assert InPolicyCandidates(task)[0] == v;
    assert Names(v.vendorId, v);
  }

  /** The planner's target for a vendor is a catalog id only if it is the vendor's own. */
  lemma UrlNamesItself(vendors: seq<Vendor>, v: Vendor, w: Vendor)
    requires DistinctVendorIds(vendors) && UrlsApart(vendors) && v in vendors && w in vendors
    requires w.vendorId == OrDefault(v.url, v.vendorId)
    ensures w == v
  {
    if w.vendorId == v.vendorId {
      DistinctById(vendors, w, v);
    }
  }

  /** The millionfold of the cost is the input tokens plus five times the output tokens. */
  predicate Costs(usage: Option<Usage>, cost: real) {
    cost * 1000000.0 == match usage
                        case Some(u) => u.inputTokens as real + 5.0 * u.outputTokens as real
                        case None => 0.0
  }

  /** A trial that pays nothing and asks a human: two touchpoints and one escalation. */
  predicate AsksHuman(r: Result<TrialRecord>, text: string) {
    && r.Ok? && r.value.executed == []
    && r.value.result.purchases == [] && r.value.result.touchpoints == 2
    && |r.value.result.escalations| == 1 && r.value.result.escalations[0].Text() == text
  }

  /** A trial that buys this vendor, claims the purchase and takes one touchpoint. */
  predicate Buys(w: Vendor, r: Result<TrialRecord>) {
    && r.Ok? && r.value.executed == [ExecutedPurchase(w.vendorId, None, w.price, None, None, true)]
    && r.value.result.purchases == [Purchase(w.vendorId, w.price)]
    && r.value.result.touchpoints == 1 && r.value.result.escalations == []
  }

  predicate TooDear(task: TaskSpec, v: Vendor) {
    && v.referencePrice.Some? && task.mandate.priceSanityMultiplier.Some?
    && v.price > v.referencePrice.value * task.mandate.priceSanityMultiplier.value
  }

  /** What a trial comes to when the model names this candidate: an anomalous price escalates, a
      target that the executor does not know, a price over the cap or a fault aborts the run, and
      otherwise the vendor of the target is bought and claimed. The target is the candidate's url,
      where it has one that is not empty, and else its id. */
  predicate NamedOutcome(task: TaskSpec, v: Vendor, r: Result<TrialRecord>) {
    var target := if v.url.Some? && v.url.value != "" then v.url.value else v.vendorId;
    if TooDear(task, v) then AsksHuman(r, "price_anomaly")
    else if target !in ById(task.vendors) then r == Err(KeyError)
    else Settled(ById(task.vendors)[target], task.mandate.budgetCap, r)
  }

  predicate Settled(w: Vendor, cap: real, r: Result<TrialRecord>) {
    if w.price > cap then r == Err(OfferOverCap(w.price, cap))
    else if w.down then r == Err(EndpointUnreachable)
    else if w.failsNextNAttempts > 0 then r == Err(SettlementRejected(None))
    else Buys(w, r)
  }

  predicate CostIn(usage: Option<Usage>, r: Result<TrialRecord>) {
    r.Ok? ==> Costs(usage, r.value.result.cost)
  }

  /** The planner does as the model says for the candidate that it names, and aborts the run where
      it names none; what it returns costs what the tokens cost. */
  lemma PlannerObeys(task: TaskSpec, oracle: Oracle, seed: int, choice: string, reason: Option<string>, usage: Option<Usage>)
    requires task.kind.Synthetic? && InPolicyCandidates(task) != [] && (usage.Some? ==> oracle.priced)
    requires oracle.reply(seed) == Parsed(Decision(Some(choice), false, reason), usage)
    ensures var r := DefaultTrial(task, PlannerV1(oracle))(seed);
            && (forall v :: FirstNamed(task, choice, v) ==> NamedOutcome(task, v, r))
            && ((forall v :: v in InPolicyCandidates(task) ==> !Names(choice, v)) ==> r == Err(VendorNotOffered))
            && CostIn(usage, r)
  {
    var plan, ex := Decide(task, oracle.reply(seed), oracle.priced), ExecutorState(ById(task.vendors), map[]);
    PlannedTrial(task, oracle, seed);
    forall v | FirstNamed(task, choice, v) ensures NamedOutcome(task, v, PlannerOutcome(task, plan, ex)) {
      NamedPlan(task, choice, v, reason, usage, oracle.priced);
      NamedBought(task, plan, v, ex);
    }
    if forall v :: v in InPolicyCandidates(task) ==> !Names(choice, v) {
      UnknownPlan(task, choice, reason, usage, oracle.priced);
    }
    DecisionCosts(task, Decision(Some(choice), false, reason), usage, oracle.priced);
    OutcomeCosts(task, usage, plan, ex);
  }

  /** Without a candidate every reply of the model, a failed call too, is the same escalation, free of
      charge. */
  lemma NoCandidateEscalates(task: TaskSpec, oracle: Oracle, seed: int)
    requires task.kind.Synthetic? && InPolicyCandidates(task) == []
    ensures var r := DefaultTrial(task, PlannerV1(oracle))(seed);
            AsksHuman(r, "no_in_policy_vendor") && r.value.result.cost == 0.0
  {
    PlannedTrial(task, oracle, seed);
  }

  /** With candidates a failed call raises as it is, an answer that does not parse raises, and so does
      usage without a price. */
  lemma ReplyRaises(task: TaskSpec, oracle: Oracle, seed: int)
    requires task.kind.Synthetic? && InPolicyCandidates(task) != []
    ensures var r := DefaultTrial(task, PlannerV1(oracle))(seed);
            match oracle.reply(seed)
            case CallFailed(e) => r == Err(e)
            case ParseFailure => r == Err(ParsingError)
            case Parsed(_, usage) => usage.Some? && !oracle.priced ==> r == Err(ValueError)
  {
    PlannedTrial(task, oracle, seed);
  }

  /** A model that escalates or names nobody is obeyed: nothing is paid, the reason is its own unless
      it is missing or empty, and the cost is that of the tokens. */
  lemma ModelEscalates(task: TaskSpec, oracle: Oracle, seed: int, decision: Decision, usage: Option<Usage>)
    requires task.kind.Synthetic? && InPolicyCandidates(task) != [] && (usage.Some? ==> oracle.priced)
    requires oracle.reply(seed) == Parsed(decision, usage) && (decision.escalate || decision.vendorId.None?)
    ensures var r, reason := DefaultTrial(task, PlannerV1(oracle))(seed), decision.reason;
            && AsksHuman(r, if reason.Some? && reason.value != "" then reason.value else "planner_escalated")
            && Costs(usage, r.value.result.cost)
  {
    var cost := TokenCost(usage, oracle.priced).value;
    PlannedTrial(task, oracle, seed);
    DecideChooses(task, decision, usage, oracle.priced);
    ChoiceEscalatesFor(task, decision, cost, ExecutorState(ById(task.vendors), map[]));
  }

  lemma ChoiceEscalatesFor(task: TaskSpec, decision: Decision, cost: Usdc, ex: ExecutorState)
    requires decision.escalate || decision.vendorId.None?
    ensures var r, reason := PlannerOutcome(task, Choose(task, decision, cost), ex), decision.reason;
            && AsksHuman(r, if reason.Some? && reason.value != "" then reason.value else "planner_escalated")
            && r.value.result.cost == cost
  {
  }

  predicate PlanCosts(usage: Option<Usage>, plan: Plan) {
    match plan
    case Finish(result) => Costs(usage, result.cost)
    case Abort(_) => true
    case Buy(_, cost) => Costs(usage, cost)
  }

  lemma DecisionCosts(task: TaskSpec, decision: Decision, usage: Option<Usage>, priced: bool)
    requires InPolicyCandidates(task) != [] && (usage.Some? ==> priced)
    ensures PlanCosts(usage, Decide(task, Parsed(decision, usage), priced))
  {
    DecideChooses(task, decision, usage, priced);
  }

  lemma OutcomeCosts(task: TaskSpec, usage: Option<Usage>, plan: Plan, ex: ExecutorState)
    requires PlanCosts(usage, plan)
    ensures CostIn(usage, PlannerOutcome(task, plan, ex))
  {
  }

  /** The plan to buy the vendor, or to escalate its price. */
  predicate NamedIn(task: TaskSpec, v: Vendor, plan: Plan) {
    if PriceSane(task, v) then plan.Buy? && plan.target == CallOf(task, v).target
    else plan.Finish? && IsEscalation(plan.result) && plan.result.escalations == [PriceAnomalous]
  }

  lemma NamedPlan(task: TaskSpec, choice: string, v: Vendor, reason: Option<string>, usage: Option<Usage>, priced: bool)
    requires FirstNamed(task, choice, v) && (usage.Some? ==> priced)
    ensures NamedIn(task, v, Decide(task, Parsed(Decision(Some(choice), false, reason), usage), priced))
  {
    NamedFirst(task, choice, v);
    DecideChooses(task, Decision(Some(choice), false, reason), usage, priced);
    NamedChoice(task, choice, v, reason, TokenCost(usage, priced).value);
  }

  lemma DecideChooses(task: TaskSpec, decision: Decision, usage: Option<Usage>, priced: bool)
    requires InPolicyCandidates(task) != [] && (usage.Some? ==> priced)
    ensures TokenCost(usage, priced).Ok? && Costs(usage, TokenCost(usage, priced).value)
    ensures Decide(task, Parsed(decision, usage), priced) == Choose(task, decision, TokenCost(usage, priced).value)
  {
  }

  lemma NamedChoice(task: TaskSpec, choice: string, v: Vendor, reason: Option<string>, cost: Usdc)
    requires FirstNamed(task, choice, v)
    ensures NamedIn(task, v, Choose(task, Decision(Some(choice), false, reason), cost))
  {
    NamedFirst(task, choice, v);
    CheckedIn(task, v, CheckPurchase(task, choice), cost);
  }

  lemma CheckedIn(task: TaskSpec, v: Vendor, checked: Result<Vendor>, cost: Usdc)
    requires checked == if PriceSane(task, v) then Ok(v) else Err(PriceAnomaly)
    ensures NamedIn(task, v, AfterCheck(checked, cost))
  {
  }

  lemma UnknownPlan(task: TaskSpec, choice: string, reason: Option<string>, usage: Option<Usage>, priced: bool)
    requires InPolicyCandidates(task) != [] && (usage.Some? ==> priced)
    requires forall v :: v in InPolicyCandidates(task) ==> !Names(choice, v)
    ensures Decide(task, Parsed(Decision(Some(choice), false, reason), usage), priced) == Abort(VendorNotOffered)
  {
    CheckPurchaseExactly(task, choice);
  }

  lemma NamedBought(task: TaskSpec, plan: Plan, v: Vendor, ex: ExecutorState)
    requires ex == ExecutorState(ById(task.vendors), map[])
    requires NamedIn(task, v, plan)
    ensures NamedOutcome(task, v, PlannerOutcome(task, plan, ex))
  {
    DearExactly(task, v);
    if plan.Buy? {
      BoughtAt(task, plan, ex);
    } else {
      AskedFor(task, plan.result, ex);
    }
  }

  lemma DearExactly(task: TaskSpec, v: Vendor)
    ensures TooDear(task, v) <==> !PriceSane(task, v)
  {
  }

  lemma BoughtAt(task: TaskSpec, plan: Plan, ex: ExecutorState)
    requires ex == ExecutorState(ById(task.vendors), map[]) && plan.Buy?
    ensures var r := PlannerOutcome(task, plan, ex);
            if plan.target !in ex.byId then r == Err(KeyError) else Settled(ex.byId[plan.target], task.mandate.budgetCap, r)
  {
  }

  lemma AskedFor(task: TaskSpec, result: AgentResult, ex: ExecutorState)
    requires IsEscalation(result) && result.escalations == [PriceAnomalous]
    ensures AsksHuman(PlannerOutcome(task, Finish(result), ex), "price_anomaly")
  {
  }

  /** Where ids name one vendor each, a candidate's id names the candidate, and only the candidate can
      be bought for it. */
  lemma ApartNamesItself(task: TaskSpec, v: Vendor)
    requires DistinctVendorIds(task.vendors) && UrlsApart(task.vendors) && v in InPolicyCandidates(task)
    ensures FirstNamed(task, v.vendorId, v)
    ensures CallOf(task, v).target in ById(task.vendors) ==> ById(task.vendors)[CallOf(task, v).target] == v
  {
    CandidateIff(task, v);
    CheckPurchaseExactly(task, v.vendorId);
    assert Names(v.vendorId, v);
    var c :| FirstNamed(task, v.vendorId, c);
    CandidateIff(task, c);
    if c.vendorId == v.vendorId {
      DistinctById(task.vendors, c, v);
    }
    if CallOf(task, v).target in ById(task.vendors) {
      UrlNamesItself(task.vendors, v, ById(task.vendors)[CallOf(task, v).target]);
    }
  }
}
