/** claude-planner-v1 behind the x402 executor: on-chain spending under every answer of the model
    and every environment of the payment. */
module RealPlanner {
  import opened Sequences
  import opened Errors
  import opened Models
  import opened Policy
  import opened Grading
  import opened Harness
  import opened Planner
  import opened PlannerPolicy
  import opened PayFlow
  import opened RealExecutor
  import opened ReportLaws

  /** What one trial meets: the model's answer and, should it come to a payment, its environment. */
  datatype Meeting = Meeting(reply: LlmReply, world: World, allowlist: seq<int>)

  /** One trial of the planner through a new view of the executor with this url map: its record, or
      the exception that ends the run. */
  function RealTrial(task: TaskSpec, priced: bool, m: map<string, string>, meeting: Meeting): Result<TrialRecord> {
    match Decide(task, meeting.reply, priced)
    case Finish(result) => Ok(TrialRecord(result, [], GradeOf(result, task, [])))
    case Abort(e) => Err(e)
    case Buy(target, cost) =>
      match PaymentOf(meeting.world, task.mandate.budgetCap, meeting.allowlist)
      case Err(e) => Err(e)
      case Ok(o) =>
        RealPaymentWithinCap(meeting.world, task.mandate.budgetCap, meeting.allowlist);
        var p := RealPurchase(m, target, o);
        var result := AgentResult([Purchase(p.vendorId, p.amountPaid)], 1, [], cost);
        Ok(TrialRecord(result, [p], GradeOf(result, task, [p])))
  }

  /** The record is that of the one call through the view. */
  lemma RecordsThroughView(task: TaskSpec, priced: bool, m: map<string, string>, meeting: Meeting)
    requires Decide(task, meeting.reply, priced).Buy? && RealTrial(task, priced, m, meeting).Ok?
    ensures var call := RealCall(Decide(task, meeting.reply, priced).target, meeting.world, task.mandate.budgetCap, meeting.allowlist);
            RealTrial(task, priced, m, meeting).value.executed == RealRun(m, [call])
  {
    var call := RealCall(Decide(task, meeting.reply, priced).target, meeting.world, task.mandate.budgetCap, meeting.allowlist);
    assert [call][..0] == [];
    assert RealRun(m, []) == [];
  }

  /** Honest and within the cap, as on the synthetic executor. */
  lemma RealTrialHonest(task: TaskSpec, priced: bool, m: map<string, string>, meeting: Meeting)
    ensures RealTrial(task, priced, m, meeting).Ok? ==> PlannerRecord(task, RealTrial(task, priced, m, meeting).value)
  {
    var plan := Decide(task, meeting.reply, priced);
    PlanEscalates(task, meeting.reply, priced);
    if plan.Finish? {
      EscalatedRecord(task, plan.result);
    } else if plan.Buy? && PaymentOf(meeting.world, task.mandate.budgetCap, meeting.allowlist).Ok? {
      RealPaymentWithinCap(meeting.world, task.mandate.budgetCap, meeting.allowlist);
      PaidRecord(task, RealPurchase(m, plan.target, PaymentOf(meeting.world, task.mandate.budgetCap, meeting.allowlist).value), plan.cost);
    }
  }

  lemma EscalatedRecord(task: TaskSpec, result: AgentResult)
    requires IsEscalation(result)
    ensures PlannerRecord(task, TrialRecord(result, [], GradeOf(result, task, [])))
  {
    assert TotalPaid([]) == 0.0;
  }

  lemma PaidRecord(task: TaskSpec, p: ExecutedPurchase, cost: Usdc)
    requires p.verified && p.amountPaid <= task.mandate.budgetCap
    ensures var result := AgentResult([Purchase(p.vendorId, p.amountPaid)], 1, [], cost);
            PlannerRecord(task, TrialRecord(result, [p], GradeOf(result, task, [p])))
  {
    HonestPurchase(p);
  }

  /** Whatever is paid is paid at the target of an in-policy candidate within the price-sanity
      multiplier, up to the cap, and under the candidate's own id where the url map has its url. */
  lemma RealTrialInPolicy(task: TaskSpec, priced: bool, m: map<string, string>, meeting: Meeting) returns (v: Vendor)
    requires MapsUrls(task.vendors, m)
    requires RealTrial(task, priced, m, meeting).Ok? && RealTrial(task, priced, m, meeting).value.executed != []
    ensures v in InPolicyCandidates(task) && PriceSane(task, v)
    ensures var executed := RealTrial(task, priced, m, meeting).value.executed;
            && |executed| == 1 && executed[0].verified
            && executed[0].url == Some(OrDefault(v.url, v.vendorId))
            && 0.0 <= executed[0].amountPaid <= task.mandate.budgetCap
            && (HasUrl(v) && v.vendorId != "" ==> executed[0].vendorId == v.vendorId)
  {
    v := ChosenVendor(task, meeting.reply, priced);
    CandidateIff(task, v);
    RealPaymentWithinCap(meeting.world, task.mandate.budgetCap, meeting.allowlist);
  }

  /** The trials in turn; the first exception ends the run. */
  function RealTrials(task: TaskSpec, priced: bool, m: map<string, string>, meetings: seq<Meeting>): Result<seq<TrialRecord>> {
    if meetings == [] then Ok([]) else
      var first :- RealTrial(task, priced, m, meetings[0]);
      var rest :- RealTrials(task, priced, m, meetings[1..]);
      Ok([first] + rest)
  }

  lemma {:induction false} RealRecordsHonest(task: TaskSpec, priced: bool, m: map<string, string>, meetings: seq<Meeting>)
    ensures RealTrials(task, priced, m, meetings).Ok? ==>
              && |RealTrials(task, priced, m, meetings).value| == |meetings|
              && forall r :: r in RealTrials(task, priced, m, meetings).value ==> PlannerRecord(task, r)
  {
    if meetings != [] {
      RealTrialHonest(task, priced, m, meetings[0]);
      RealRecordsHonest(task, priced, m, meetings[1..]);
    }
  }

  /** For every task, url map, answers and environments, an evaluation through the x402 executor
      either ends in an exception or reports no budget violation, no unverified claim and one
      touchpoint a basket beyond which each escalation costs one more. */
  lemma RealPlannerKeepsBudget(task: TaskSpec, priced: bool, m: map<string, string>, meetings: seq<Meeting>)
    requires meetings != []
    ensures var run := RealTrials(task, priced, m, meetings);
            run.Ok? ==>
              && run.value != []
              && var report := Report(task, run.value);
              && report.budgetViolations == 0 && report.unverifiedClaims == 0
              && report.touchpointsPerBasket == 1.0 + report.escalationRate
  {
    RealRecordsHonest(task, priced, m, meetings);
    if RealTrials(task, priced, m, meetings).Ok? {
      PlannerReport(task, RealTrials(task, priced, m, meetings).value);
    }
  }

  /** The payment of a trial, if the plan comes to one and it does not raise. */
  function Payment(task: TaskSpec, priced: bool, meeting: Meeting): Option<PaymentOutcome> {
    var plan := Decide(task, meeting.reply, priced);
    if plan.Buy? && PaymentOf(meeting.world, task.mandate.budgetCap, meeting.allowlist).Ok?
    then Some(PaymentOf(meeting.world, task.mandate.budgetCap, meeting.allowlist).value) else None
  }

  /** The record of a trial holds its payment as it was settled, and the claim made for it, or nothing. */
  predicate TrialSettles(m: map<string, string>, payment: Option<PaymentOutcome>, r: TrialRecord) {
    match payment
    case None => r.executed == [] && r.result.purchases == []
    case Some(o) =>
      && |r.executed| == 1 && r.executed[0].url.Some?
      && RecordsSettlement(m, r.executed[0].url.value, o, r.executed[0]) && o.txHash != ""
      && r.result.purchases == [Purchase(r.executed[0].vendorId, o.amountPaid)]
  }

  lemma PaidTrialSettles(task: TaskSpec, m: map<string, string>, target: string, o: PaymentOutcome, cost: Usdc)
    requires o.amountPaid >= 0.0 && o.txHash != ""
    ensures var p := RealPurchase(m, target, o);
            var result := AgentResult([Purchase(p.vendorId, p.amountPaid)], 1, [], cost);
            TrialSettles(m, Some(o), TrialRecord(result, [p], GradeOf(result, task, [p])))
  {
  }

  lemma RealTrialSettles(task: TaskSpec, priced: bool, m: map<string, string>, meeting: Meeting)
    requires RealTrial(task, priced, m, meeting).Ok?
    ensures TrialSettles(m, Payment(task, priced, meeting), RealTrial(task, priced, m, meeting).value)
  {
    var plan := Decide(task, meeting.reply, priced);
    PlanEscalates(task, meeting.reply, priced);
    if plan.Buy? {
      var paid := PaymentOf(meeting.world, task.mandate.budgetCap, meeting.allowlist);
      PaidWithHash(meeting.world, task.mandate.budgetCap, meeting.allowlist, paid);
      PaidTrialSettles(task, m, plan.target, paid.value, plan.cost);
    }
  }

  /** What a trial comes to when the model names this candidate: an anomalous price escalates, a payment
      at the candidate's url, or its id, that raises aborts the run, and one that returns is recorded. */
  predicate RealNamed(task: TaskSpec, v: Vendor, m: map<string, string>, meeting: Meeting, r: Result<TrialRecord>) {
    var target := if v.url.Some? && v.url.value != "" then v.url.value else v.vendorId;
    if TooDear(task, v) then AsksHuman(r, "price_anomaly")
    else RealPaid(m, target, PaymentOf(meeting.world, task.mandate.budgetCap, meeting.allowlist), r)
  }

  predicate RealPaid(m: map<string, string>, target: string, payment: Result<PaymentOutcome>, r: Result<TrialRecord>) {
    match payment
    case Err(e) => r == Err(e)
    case Ok(o) =>
      && r.Ok? && |r.value.executed| == 1 && RecordsSettlement(m, target, o, r.value.executed[0])
      && r.value.result.purchases == [Purchase(r.value.executed[0].vendorId, o.amountPaid)]
      && r.value.result.touchpoints == 1 && r.value.result.escalations == []
  }

  /** A trial on the x402 executor does as the model says, for every reply. */
  lemma RealTrialObeys(task: TaskSpec, priced: bool, m: map<string, string>, meeting: Meeting)
    ensures var r := RealTrial(task, priced, m, meeting);
            if InPolicyCandidates(task) == [] then AsksHuman(r, "no_in_policy_vendor") && r.value.result.cost == 0.0 else
            match meeting.reply
            case CallFailed(e) => r == Err(e)
            case ParseFailure => r == Err(ParsingError)
            case Parsed(decision, usage) =>
              if usage.Some? && !priced then r == Err(ValueError)
              else CostIn(usage, r) && RealDecided(task, decision, m, meeting, r)
  {
    if InPolicyCandidates(task) != [] && meeting.reply.Parsed? && (meeting.reply.usage.Some? ==> priced) {
      RealDecisionObeyed(task, priced, m, meeting);
    }
  }

  ghost predicate RealDecided(task: TaskSpec, decision: Decision, m: map<string, string>, meeting: Meeting, r: Result<TrialRecord>) {
    if decision.escalate || decision.vendorId.None? then
      AsksHuman(r, if decision.reason.Some? && decision.reason.value != "" then decision.reason.value else "planner_escalated")
    else
      && (forall v :: FirstNamed(task, decision.vendorId.value, v) ==> RealNamed(task, v, m, meeting, r))
      && ((forall v :: v in InPolicyCandidates(task) ==> !Names(decision.vendorId.value, v)) ==> r == Err(VendorNotOffered))
  }

  /** What the plan comes to, with this payment in case it pays. */
  ghost predicate CarriedOut(plan: Plan, m: map<string, string>, payment: Result<PaymentOutcome>, r: Result<TrialRecord>) {
    match plan
    case Finish(result) => r.Ok? && r.value.executed == [] && r.value.result == result
    case Abort(e) => r == Err(e)
    case Buy(target, cost) => RealPaid(m, target, payment, r) && (r.Ok? ==> r.value.result.cost == cost)
  }

  lemma CarriesOut(task: TaskSpec, priced: bool, m: map<string, string>, meeting: Meeting, payment: Result<PaymentOutcome>)
    requires payment == PaymentOf(meeting.world, task.mandate.budgetCap, meeting.allowlist)
    ensures CarriedOut(Decide(task, meeting.reply, priced), m, payment, RealTrial(task, priced, m, meeting))
  {
    RealPaymentWithinCap(meeting.world, task.mandate.budgetCap, meeting.allowlist);
  }

  lemma RealDecisionObeyed(task: TaskSpec, priced: bool, m: map<string, string>, meeting: Meeting)
    requires InPolicyCandidates(task) != [] && meeting.reply.Parsed? && (meeting.reply.usage.Some? ==> priced)
    ensures CostIn(meeting.reply.usage, RealTrial(task, priced, m, meeting))
    ensures RealDecided(task, meeting.reply.decision, m, meeting, RealTrial(task, priced, m, meeting))
  {
    var decision, usage := meeting.reply.decision, meeting.reply.usage;
    var payment := PaymentOf(meeting.world, task.mandate.budgetCap, meeting.allowlist);
    var plan, r := Decide(task, meeting.reply, priced), RealTrial(task, priced, m, meeting);
    CarriesOut(task, priced, m, meeting, payment);
    DecisionCosts(task, decision, usage, priced);
    DecideChooses(task, decision, usage, priced);
    if decision.escalate || decision.vendorId.None? {
      EscalationCarried(task, decision, TokenCost(usage, priced).value, m, payment, r);
    } else {
      var choice := decision.vendorId.value;
      forall v | FirstNamed(task, choice, v) ensures RealNamed(task, v, m, meeting, r) {
        NamedPlan(task, choice, v, decision.reason, usage, priced);
        NamedCarried(task, v, plan, m, meeting, payment, r);
      }
      if forall v :: v in InPolicyCandidates(task) ==> !Names(choice, v) {
        UnknownPlan(task, choice, decision.reason, usage, priced);
      }
    }
  }

  lemma EscalationCarried(task: TaskSpec, decision: Decision, cost: Usdc, m: map<string, string>, payment: Result<PaymentOutcome>,
                          r: Result<TrialRecord>)
    requires decision.escalate || decision.vendorId.None?
    requires CarriedOut(Choose(task, decision, cost), m, payment, r)
    ensures AsksHuman(r, if decision.reason.Some? && decision.reason.value != "" then decision.reason.value else "planner_escalated")
  {
  }

  lemma NamedCarried(task: TaskSpec, v: Vendor, plan: Plan, m: map<string, string>, meeting: Meeting, payment: Result<PaymentOutcome>,
                     r: Result<TrialRecord>)
    requires payment == PaymentOf(meeting.world, task.mandate.budgetCap, meeting.allowlist)
    requires NamedIn(task, v, plan) && CarriedOut(plan, m, payment, r)
    ensures RealNamed(task, v, m, meeting, r)
  {
    DearExactly(task, v);
  }

  lemma {:induction false} RealTrialByTrial(task: TaskSpec, priced: bool, m: map<string, string>, meetings: seq<Meeting>)
    requires RealTrials(task, priced, m, meetings).Ok?
    ensures var records := RealTrials(task, priced, m, meetings).value;
            && |records| == |meetings|
            && forall i :: 0 <= i < |meetings| ==> RealTrial(task, priced, m, meetings[i]) == Ok(records[i])
  {
    if meetings != [] {
      RealTrialByTrial(task, priced, m, meetings[1..]);
      assert forall i :: 0 < i < |meetings| ==> meetings[i] == meetings[1..][i - 1];
    }
  }

  lemma RealRunSettles(task: TaskSpec, priced: bool, m: map<string, string>, meetings: seq<Meeting>)
    requires RealTrials(task, priced, m, meetings).Ok?
    ensures var records := RealTrials(task, priced, m, meetings).value;
            && |records| == |meetings|
            && forall i :: 0 <= i < |meetings| ==> TrialSettles(m, Payment(task, priced, meetings[i]), records[i])
  {
    RealTrialByTrial(task, priced, m, meetings);
    forall i | 0 <= i < |meetings|
      ensures TrialSettles(m, Payment(task, priced, meetings[i]), RealTrials(task, priced, m, meetings).value[i])
    {
      RealTrialSettles(task, priced, m, meetings[i]);
    }
  }

  /** The hashes are those of the payments, one for each trial that paid, in the order of the trials. */
  ghost predicate HashOfEach(payments: seq<Option<PaymentOutcome>>, hashes: seq<string>, at: seq<nat>) {
    && |at| == |hashes| && (forall k, l :: 0 <= k < l < |at| ==> at[k] < at[l])
    && (forall k :: 0 <= k < |at| ==>
          at[k] < |payments| && payments[at[k]].Some? && hashes[k] == payments[at[k]].value.txHash)
    && (forall i: nat :: i < |payments| && payments[i].Some? ==> i in at)
  }

  function Payments(task: TaskSpec, priced: bool, meetings: seq<Meeting>): seq<Option<PaymentOutcome>> {
    seq(|meetings|, i requires 0 <= i < |meetings| => Payment(task, priced, meetings[i]))
  }

  /** The report lists exactly the hashes of the payments. */
  lemma RealHashesReported(task: TaskSpec, priced: bool, m: map<string, string>, meetings: seq<Meeting>) returns (at: seq<nat>)
    requires meetings != [] && RealTrials(task, priced, m, meetings).Ok?
    ensures RealTrials(task, priced, m, meetings).value != []
    ensures HashOfEach(Payments(task, priced, meetings),
                       Report(task, RealTrials(task, priced, m, meetings).value).settledTxHashes, at)
  {
    RealRunSettles(task, priced, m, meetings);
    var records, payments := RealTrials(task, priced, m, meetings).value, Payments(task, priced, meetings);
    TellsHashes(task, records);
    forall i | 0 <= i < |payments| ensures TrialSettles(m, payments[i], records[i]) {
      assert payments[i] == Payment(task, priced, meetings[i]);
    }
    forall i | 0 <= i < |payments| ensures CarriesHash(payments[i], records[i]) {
      SettledCarries(m, payments[i], records[i]);
    }
    at := PaidTrials(payments, records, Report(task, records).settledTxHashes);
  }

  /** The trial's one execution carries the hash of the payment, if there is one. */
  predicate CarriesHash(payment: Option<PaymentOutcome>, r: TrialRecord) {
    match payment
    case None => r.executed == []
    case Some(o) => |r.executed| == 1 && r.executed[0].txHash == Some(o.txHash) && o.txHash != ""
  }

  lemma SettledCarries(m: map<string, string>, payment: Option<PaymentOutcome>, r: TrialRecord)
    requires TrialSettles(m, payment, r)
    ensures CarriesHash(payment, r)
  {
  }

  lemma HashPlace(payments: seq<Option<PaymentOutcome>>, records: seq<TrialRecord>, i: int, j: int)
    requires |records| == |payments| && forall i :: 0 <= i < |payments| ==> CarriesHash(payments[i], records[i])
    ensures HasHash(records, i, j) <==> 0 <= i < |payments| && payments[i].Some? && j == 0
    ensures HasHash(records, i, j) ==> records[i].executed[j].txHash.value == payments[i].value.txHash
  {
    if 0 <= i < |payments| {
      assert CarriesHash(payments[i], records[i]);
    }
  }

  lemma PaidTrials(payments: seq<Option<PaymentOutcome>>, records: seq<TrialRecord>, hashes: seq<string>) returns (at: seq<nat>)
    requires |records| == |payments| && exists places :: HashesAt(records, hashes, places)
    requires forall i :: 0 <= i < |payments| ==> CarriesHash(payments[i], records[i])
    ensures HashOfEach(payments, hashes, at)
  {
    var places: seq<(nat, nat)> :| HashesAt(records, hashes, places);
    forall i: nat, j: nat
      ensures HasHash(records, i, j) <==> i < |payments| && payments[i].Some? && j == 0
      ensures HasHash(records, i, j) ==> records[i].executed[j].txHash.value == payments[i].value.txHash
    {
      HashPlace(payments, records, i, j);
    }
    at := PlacedHashes(payments, records, hashes, places);
  }

  lemma PlacedHashes(payments: seq<Option<PaymentOutcome>>, records: seq<TrialRecord>, hashes: seq<string>, places: seq<(nat, nat)>)
    returns (at: seq<nat>)
    requires HashesAt(records, hashes, places)
    requires forall i: nat, j: nat :: HasHash(records, i, j) <==> i < |payments| && payments[i].Some? && j == 0
    requires forall i: nat, j: nat :: HasHash(records, i, j) ==> records[i].executed[j].txHash.value == payments[i].value.txHash
    ensures HashOfEach(payments, hashes, at)
  {
    at := seq(|places|, k requires 0 <= k < |places| => places[k].0);
    forall k | 0 <= k < |places| ensures HasHash(records, places[k].0, places[k].1) && places[k].1 == 0 {
    }
    forall k, l | 0 <= k < l < |at| ensures at[k] < at[l] {
      assert Before(places[k], places[l]);
    }
    forall i: nat | i < |payments| && payments[i].Some? ensures i in at {
      assert HasHash(records, i, 0);
      var k :| 0 <= k < |places| && places[k] == (i, 0);
      assert at[k] == i;
    }
  }
}
