/** What a report says of its run, counted over the trials themselves. */
module ReportLaws {
  import opened Sequences
  import opened Errors
  import opened Models
  import opened Policy
  import opened Grading
  import opened Estimation
  import opened Wilson
  import opened Harness
  import opened Accounting

  // ----- counts and sums over positions

  /** The positions that satisfy p. */
  function Where<T>(p: T -> bool, s: seq<T>): set<nat> {
    set i: nat | i < |s| && p(s[i])
  }

  lemma {:induction false} CountIsWhere<T>(p: T -> bool, s: seq<T>)
    ensures Count(p, s) == |Where(p, s)|
  {
    if s != [] {
      var n := |s| - 1;
      CountIsWhere(p, s[..n]);
      CountAppend(p, s[..n], [s[n]]);
      assert s == s[..n] + [s[n]];
      assert Where(p, s) == Where(p, s[..n]) + if p(s[n]) then {n} else {};
    }
  }

  lemma {:induction false} MultisetCounts<T>(p: T -> bool, s: seq<T>, x: T)
    requires forall y | y in s :: p(y) <==> y == x
    ensures multiset(s)[x] == Count(p, s)
  {
    if s != [] {
      MultisetCounts(p, s[1..], x);
      assert s == [s[0]] + s[1..];
    }
  }

  lemma {:induction false} SumFilter<T>(p: T -> bool, f: T -> real, g: T -> real, s: seq<T>)
    requires forall x | x in s :: g(x) == if p(x) then f(x) else 0.0
    ensures Sum(f, Filter(p, s)) == Sum(g, s)
  {
    if s != [] {
      SumFilter(p, f, g, s[1..]);
      SumAppend(f, if p(s[0]) then [s[0]] else [], Filter(p, s[1..]));
      assert Sum(f, [s[0]][1..]) == 0.0;
    }
  }

  lemma {:induction false} FilterCount<T>(p: T -> bool, s: seq<T>)
    ensures |Filter(p, s)| == Count(p, s)
  {
    if s != [] {
      FilterCount(p, s[1..]);
    }
  }

  // ----- the trials and their verdicts

  /** The trials that passed. */
  function Passes(records: seq<TrialRecord>): set<nat> {
    set i: nat | i < |records| && records[i].outcome == PASS
  }

  /** The trials that called for a human. */
  function Escalations(records: seq<TrialRecord>): set<nat> {
    set i: nat | i < |records| && |records[i].result.escalations| > 0
  }

  /** The outcomes in order, the share of passes, and the intervals at the default z-score. */
  ghost predicate VerdictsTold(records: seq<TrialRecord>, report: EvalReport) {
    && report.nTrials == |records| > 0
    && |report.outcomes| == |records| && (forall i :: 0 <= i < |records| ==> report.outcomes[i] == records[i].outcome)
    && report.pass1 == |Passes(records)| as real / |records| as real
    && (forall root :: report.pass1Ci(root) == WilsonInterval(|Passes(records)|, |records|, 1.96, root))
    && (forall k :: k in report.passK <==> (k == 4 || k == 8) && k <= |records|)
    && (forall k :: k in report.passK ==> report.passK[k] == PassK(|Passes(records)|, |records|, k))
    && report.passKCi.Keys == report.passK.Keys
    && (forall k, root :: k in report.passK ==>
          report.passKCi[k](root) == PassKInterval(|Passes(records)|, |records|, k, 1.96, root))
  }

  lemma PassesCounted(records: seq<TrialRecord>)
    ensures CountOutcome(PASS, records) == |Passes(records)|
  {
    var passed := (r: TrialRecord) => r.outcome == PASS;
    CountIsWhere(passed, records);
    assert Where(passed, records) == Passes(records);
  }

  lemma TellsVerdicts(task: TaskSpec, records: seq<TrialRecord>)
    requires records != []
    ensures VerdictsTold(records, Report(task, records))
  {
    PassesCounted(records);
  }

  /** Touchpoints and escalations per trial, and the mean cost of the trials that passed. */
  ghost predicate EffortTold(records: seq<TrialRecord>, report: EvalReport) {
    && records != []
    && report.touchpointsPerBasket == Sum((r: TrialRecord) => r.result.touchpoints as real, records) / |records| as real
    && report.escalationRate == |Escalations(records)| as real / |records| as real
    && if Passes(records) == {} then report.costPerCompletedTx == None else
       report.costPerCompletedTx
       == Some(Sum((r: TrialRecord) => if r.outcome == PASS then r.result.cost else 0.0, records) / |Passes(records)| as real)
  }

  lemma TellsEffort(task: TaskSpec, records: seq<TrialRecord>)
    requires records != []
    ensures EffortTold(records, Report(task, records))
  {
    var escalated := (r: TrialRecord) => r.result.escalations != [];
    CountIsWhere(escalated, records);
    assert Where(escalated, records) == Escalations(records);
    CostTold(records);
  }

  function Completed(records: seq<TrialRecord>): seq<TrialRecord> {
    Filter((r: TrialRecord) => r.outcome.PASS?, records)
  }

  lemma CostTold(records: seq<TrialRecord>)
    ensures |Completed(records)| == |Passes(records)|
    ensures Completed(records) == [] <==> Passes(records) == {}
    ensures Sum((r: TrialRecord) => r.result.cost as real, Completed(records))
            == Sum((r: TrialRecord) => if r.outcome == PASS then r.result.cost else 0.0, records)
  {
    var passed, cost := (r: TrialRecord) => r.outcome.PASS?, (r: TrialRecord) => r.result.cost as real;
    FilterCount(passed, records);
    CountIsWhere(passed, records);
    assert Where(passed, records) == Passes(records);
    SumFilter(passed, cost, (r: TrialRecord) => if r.outcome == PASS then r.result.cost else 0.0, records);
  }

  // ----- guarded counters

  /** Overspending is counted where adherence is required, unverified claims everywhere. */
  ghost predicate GuardTold(task: TaskSpec, records: seq<TrialRecord>, report: EvalReport) {
    && report.budgetViolations
       == (if task.grading.budgetAdherenceRequired
           then |set i: nat | i < |records| && TotalPaid(records[i].executed) > task.mandate.budgetCap| else 0)
    && report.unverifiedClaims == |set i: nat | i < |records| && records[i].outcome == UNVERIFIED_CLAIM|
  }

  lemma TellsGuard(task: TaskSpec, records: seq<TrialRecord>)
    requires records != []
    ensures GuardTold(task, records, Report(task, records))
  {
    var over := (r: TrialRecord) => task.grading.budgetAdherenceRequired && Overspent(task, r.executed);
    var unverified := (r: TrialRecord) => r.outcome == UNVERIFIED_CLAIM;
    CountIsWhere(over, records);
    CountIsWhere(unverified, records);
    assert Where(unverified, records) == set i: nat | i < |records| && records[i].outcome == UNVERIFIED_CLAIM;
    if task.grading.budgetAdherenceRequired {
      assert Where(over, records) == set i: nat | i < |records| && TotalPaid(records[i].executed) > task.mandate.budgetCap;
    } else {
      assert Where(over, records) == {};
    }
  }

  // ----- best-price capture

  /** The trials that made one purchase, from this vendor, and whose verdict is PASS or FAIL. */
  function CapturesOf(target: Vendor, records: seq<TrialRecord>): set<nat> {
    set i: nat | i < |records| && (records[i].outcome == PASS || records[i].outcome == FAIL)
                 && |records[i].executed| == 1 && records[i].executed[0].vendorId == target.vendorId
  }

  /** Capture is a question exactly where a purchase is expected and some candidate exists: then it is
      the share of the trials that bought from the first cheapest candidate. */
  ghost predicate CaptureTold(task: TaskSpec, records: seq<TrialRecord>, report: EvalReport) {
    && records != []
    && (report.bestPriceCaptureRate.Some? <==> task.grading.expected.Some? && InPolicyCandidates(task) != [])
    && (report.bestPriceCaptureRateCi.Some? <==> report.bestPriceCaptureRate.Some?)
    && (report.bestPriceCaptureRate.Some? ==>
          exists target :: FirstCheapestVendor(InPolicyCandidates(task), target) && CapturedBy(target, records, report))
  }

  ghost predicate CapturedBy(target: Vendor, records: seq<TrialRecord>, report: EvalReport)
    requires records != [] && report.bestPriceCaptureRate.Some? && report.bestPriceCaptureRateCi.Some?
  {
    && report.bestPriceCaptureRate.value == |CapturesOf(target, records)| as real / |records| as real
    && forall root :: report.bestPriceCaptureRateCi.value(root)
                      == WilsonInterval(|CapturesOf(target, records)|, |records|, 1.96, root)
  }

  lemma TellsCapture(task: TaskSpec, records: seq<TrialRecord>)
    requires records != []
    ensures CaptureTold(task, records, Report(task, records))
  {
    CheapestExactly(task);
    if CheapestInPolicyVendor(task).Some? {
      CapturesCounted(CheapestInPolicyVendor(task).value, records);
    }
  }

  lemma CapturesCounted(target: Vendor, records: seq<TrialRecord>)
    ensures Count((r: TrialRecord) => Captured(target, r), records) == |CapturesOf(target, records)|
  {
    var captured := (r: TrialRecord) => Captured(target, r);
    CountIsWhere(captured, records);
    assert Where(captured, records) == CapturesOf(target, records);
  }

  // ----- reasons and vendors

  /** How often a trial gave this reason. */
  function Said(r: TrialRecord, text: string): nat {
    |set j: nat | j < |r.result.escalations| && r.result.escalations[j].Text() == text|
  }

  /** How often a trial bought from this vendor, verified or not. */
  function Bought(r: TrialRecord, v: string, verified: bool): nat {
    |set j: nat | j < |r.executed| && r.executed[j].vendorId == v && r.executed[j].verified == verified|
  }

  function TimesBought(records: seq<TrialRecord>, v: string, verified: bool): real {
    Sum((r: TrialRecord) => Bought(r, v, verified) as real, records)
  }

  ghost predicate TableTold(records: seq<TrialRecord>, report: EvalReport) {
    && (forall text :: report.escalationReasons[text] as real == Sum((r: TrialRecord) => Said(r, text) as real, records))
    && (forall v :: v in report.vendorOutcomes <==>
          TimesBought(records, v, true) + TimesBought(records, v, false) > 0.0)
    && (forall v :: v in report.vendorOutcomes ==>
          && report.vendorOutcomes[v].successes as real == TimesBought(records, v, true)
          && report.vendorOutcomes[v].failures as real == TimesBought(records, v, false))
  }

  lemma {:induction false} ReasonsCounted(records: seq<TrialRecord>, text: string)
    ensures Reasons(records)[text] as real == Sum((r: TrialRecord) => Said(r, text) as real, records)
  {
    if records != [] {
      ReasonsCounted(records[1..], text);
      SaidCounted(records[0], text);
    }
  }

  lemma SaidCounted(r: TrialRecord, text: string)
    ensures multiset(Texts(r.result.escalations))[text] == Said(r, text)
  {
    var es := r.result.escalations;
    var texts := Texts(es);
    var given := (t: string) => t == text;
    MultisetCounts(given, texts, text);
    CountIsWhere(given, texts);
    assert Where(given, texts) == set j: nat | j < |es| && es[j].Text() == text;
  }

  lemma BoughtCounted(r: TrialRecord, v: string)
    ensures Settled(v, r.executed) == Bought(r, v, true) && Failed(v, r.executed) == Bought(r, v, false)
  {
    var settled, failed := (e: ExecutedPurchase) => SettledBy(v, e), (e: ExecutedPurchase) => FailedBy(v, e);
    CountIsWhere(settled, r.executed);
    CountIsWhere(failed, r.executed);
    assert Where(settled, r.executed)
           == set j: nat | j < |r.executed| && r.executed[j].vendorId == v && r.executed[j].verified == true;
    assert Where(failed, r.executed)
           == set j: nat | j < |r.executed| && r.executed[j].vendorId == v && r.executed[j].verified == false;
  }

  lemma {:induction false} VendorCounted(records: seq<TrialRecord>, v: string)
    ensures Settled(v, AllExecuted(records)) as real == TimesBought(records, v, true)
    ensures Failed(v, AllExecuted(records)) as real == TimesBought(records, v, false)
  {
    if records != [] {
      var n := |records| - 1;
      var r := records[n];
      VendorCounted(records[..n], v);
      BoughtCounted(r, v);
      assert records == records[..n] + [r];
      CountAppend((e: ExecutedPurchase) => SettledBy(v, e), AllExecuted(records[..n]), r.executed);
      CountAppend((e: ExecutedPurchase) => FailedBy(v, e), AllExecuted(records[..n]), r.executed);
      SumLast((r: TrialRecord) => Bought(r, v, true) as real, records[..n], r);
      SumLast((r: TrialRecord) => Bought(r, v, false) as real, records[..n], r);
    }
  }

  lemma SumLast<T>(f: T -> real, s: seq<T>, x: T)
    ensures Sum(f, s + [x]) == Sum(f, s) + f(x)
  {
    SumAppend(f, s, [x]);
    assert Sum(f, [x][1..]) == 0.0;
  }

  lemma TellsTable(task: TaskSpec, records: seq<TrialRecord>)
    requires records != []
    ensures TableTold(records, Report(task, records))
  {
    var report := Report(task, records);
    forall text ensures report.escalationReasons[text] as real == Sum((r: TrialRecord) => Said(r, text) as real, records) {
      ReasonsCounted(records, text);
    }
    forall v: string
      ensures v in report.vendorOutcomes <==> TimesBought(records, v, true) + TimesBought(records, v, false) > 0.0
      ensures v in report.vendorOutcomes ==>
                && report.vendorOutcomes[v].successes as real == TimesBought(records, v, true)
                && report.vendorOutcomes[v].failures as real == TimesBought(records, v, false)
    {
      VendorCounted(records, v);
      OutcomesConserve(AllExecuted(records), v);
    }
  }

  // ----- settled hashes

  /** Execution j of trial i carries a hash. */
  predicate HasHash(records: seq<TrialRecord>, i: int, j: int) {
    && 0 <= i < |records| && 0 <= j < |records[i].executed|
    && records[i].executed[j].txHash.Some? && records[i].executed[j].txHash.value != ""
  }

  predicate Before(a: (nat, nat), b: (nat, nat)) {
    a.0 < b.0 || (a.0 == b.0 && a.1 < b.1)
  }

  /** The hashes are those of the executions at these places, which are all that carry one, in the
      order of the trials and of the payments in a trial. */
  ghost predicate HashesAt(records: seq<TrialRecord>, hashes: seq<string>, at: seq<(nat, nat)>) {
    && |at| == |hashes|
    && (forall k :: 0 <= k < |at| ==>
          && HasHash(records, at[k].0, at[k].1)
          && hashes[k] == records[at[k].0].executed[at[k].1].txHash.value)
    && (forall k, l :: 0 <= k < l < |at| ==> Before(at[k], at[l]))
    && (forall i: nat, j: nat :: HasHash(records, i, j) ==> (i, j) in at)
  }

  lemma {:induction false} HashesAppend(a: seq<ExecutedPurchase>, b: seq<ExecutedPurchase>)
    ensures Hashes(a + b) == Hashes(a) + Hashes(b)
  {
    if a == [] {
      assert a + b == b;
    } else {
      assert (a + b)[1..] == a[1..] + b;
      HashesAppend(a[1..], b);
    }
  }

  function WithPurchase(records: seq<TrialRecord>, e: ExecutedPurchase): seq<TrialRecord>
    requires records != []
  {
    var n := |records| - 1;
    records[n := records[n].(executed := records[n].executed + [e])]
  }

  /** One more payment in the last trial. */
  lemma OneMoreHash(records: seq<TrialRecord>, e: ExecutedPurchase, hashes: seq<string>, at: seq<(nat, nat)>)
    returns (at': seq<(nat, nat)>)
    requires records != [] && HashesAt(records, hashes, at)
    ensures HashesAt(WithPurchase(records, e), hashes + Hashes([e]), at')
  {
    var n := |records| - 1;
    var m := |records[n].executed|;
    var after := WithPurchase(records, e);
    assert Hashes([e]) == if e.txHash.Some? && e.txHash.value != "" then [e.txHash.value] else [] by {
      assert Hashes([e][1..]) == [];
    }
    forall i: nat, j: nat ensures HasHash(after, i, j) <==> HasHash(records, i, j) || ((i, j) == (n, m) && Hashes([e]) != []) {
    }
    at' := if Hashes([e]) == [] then at else at + [(n, m)];
  }

  /** A new trial that has not paid yet. */
  lemma OneMoreTrial(records: seq<TrialRecord>, r: TrialRecord, hashes: seq<string>, at: seq<(nat, nat)>)
    requires r.executed == [] && HashesAt(records, hashes, at)
    ensures HashesAt(records + [r], hashes, at)
  {
    forall i: nat, j: nat ensures HasHash(records + [r], i, j) <==> HasHash(records, i, j) {
    }
  }

  lemma {:induction false} TrialHashes(records: seq<TrialRecord>, r: TrialRecord, m: nat, hashes: seq<string>, at: seq<(nat, nat)>)
    returns (at': seq<(nat, nat)>)
    requires m <= |r.executed| && HashesAt(records, hashes, at)
    ensures HashesAt(records + [r.(executed := r.executed[..m])], hashes + Hashes(r.executed[..m]), at')
  {
    if m == 0 {
      OneMoreTrial(records, r.(executed := []), hashes, at);
      assert r.executed[..0] == [] && hashes + [] == hashes;
      at' := at;
    } else {
      var e, front := r.executed[m - 1], records + [r.(executed := r.executed[..m - 1])];
      var before := TrialHashes(records, r, m - 1, hashes, at);
      at' := OneMoreHash(front, e, hashes + Hashes(r.executed[..m - 1]), before);
      assert r.executed[..m] == r.executed[..m - 1] + [e];
      HashesAppend(r.executed[..m - 1], [e]);
      assert WithPurchase(front, e) == records + [r.(executed := r.executed[..m])];
      assert hashes + Hashes(r.executed[..m - 1]) + Hashes([e]) == hashes + Hashes(r.executed[..m]);
    }
  }

  lemma {:induction false} RunHashes(records: seq<TrialRecord>) returns (at: seq<(nat, nat)>)
    ensures HashesAt(records, Hashes(AllExecuted(records)), at)
  {
    if records == [] {
      at := [];
    } else {
      var n := |records| - 1;
      var r := records[n];
      var before := RunHashes(records[..n]);
      at := TrialHashes(records[..n], r, |r.executed|, Hashes(AllExecuted(records[..n])), before);
      assert r.executed[..|r.executed|] == r.executed;
      HashesAppend(AllExecuted(records[..n]), r.executed);
      assert records == records[..n] + [r];
    }
  }

  ghost predicate HashesTold(records: seq<TrialRecord>, report: EvalReport) {
    exists at :: HashesAt(records, report.settledTxHashes, at)
  }

  lemma TellsHashes(task: TaskSpec, records: seq<TrialRecord>)
    requires records != []
    ensures HashesTold(records, Report(task, records))
  {
    var at := RunHashes(records);
  }

  // ----- every evaluation

  /** Each field of the report, counted over the trials. */
  ghost predicate ReportTells(task: TaskSpec, records: seq<TrialRecord>, report: EvalReport) {
    && VerdictsTold(records, report)
    && EffortTold(records, report)
    && GuardTold(task, records, report)
    && CaptureTold(task, records, report)
    && TableTold(records, report)
    && HashesTold(records, report)
  }

  lemma TellsAll(task: TaskSpec, records: seq<TrialRecord>)
    requires records != []
    ensures ReportTells(task, records, Report(task, records))
  {
    TellsVerdicts(task, records);
    TellsEffort(task, records);
    TellsGuard(task, records);
    TellsCapture(task, records);
    TellsTable(task, records);
    TellsHashes(task, records);
  }

  /** Whatever the agent and the executor, an evaluation reports on exactly its trials. */
  lemma EvaluationTells(task: TaskSpec, agent: AgentFn, nTrials: int, b: int, shared: Option<ExecutorState>)
    ensures var r := Evaluate(task, agent, nTrials, b, shared);
            && (nTrials < 1 ==> r == Err(ValueError))
            && (nTrials >= 1 ==>
                  match Trials(task, agent, b, shared, nTrials).records
                  case Err(e) => r == Err(e)
                  case Ok(records) => r.Ok? && |records| == nTrials && ReportTells(task, records, r.value))
  {
    if nTrials >= 1 && Trials(task, agent, b, shared, nTrials).records.Ok? {
      TrialsLength(task, agent, b, shared, nTrials);
      TellsAll(task, Trials(task, agent, b, shared, nTrials).records.value);
    }
  }

  /** Trial i of a default evaluation from seed b. */
  ghost function TrialNumber(task: TaskSpec, agent: AgentFn, b: int, i: nat): Result<TrialRecord> {
    DefaultTrial(task, agent)(b + i)
  }

  ghost predicate NoneRaises(task: TaskSpec, agent: AgentFn, b: int, n: int) {
    forall i :: 0 <= i < n ==> TrialNumber(task, agent, b, i).Ok?
  }

  ghost function DefaultRecords(task: TaskSpec, agent: AgentFn, b: int, n: nat): seq<TrialRecord>
    requires NoneRaises(task, agent, b, n)
  {
    seq(n, i requires 0 <= i < n => TrialNumber(task, agent, b, i).value)
  }

  /** The trials whose claims no pairing with their own executions explains. */
  ghost function Unexplained(records: seq<TrialRecord>): set<nat> {
    set i: nat | i < |records| && !Pairable(records[i].result.purchases, records[i].executed)
  }

  /** For every agent a default evaluation returns exactly if no trial raises, and then it reports on
      those trials and counts the ones with unexplained claims: none exactly if every trial's claims
      are explained. */
  lemma DefaultEvaluation(task: TaskSpec, agent: AgentFn, nTrials: int, b: int)
    ensures Evaluate(task, agent, nTrials, b, None).Ok? <==> nTrials >= 1 && NoneRaises(task, agent, b, nTrials)
    ensures Evaluate(task, agent, nTrials, b, None).Ok? ==>
              var records, report := DefaultRecords(task, agent, b, nTrials), Evaluate(task, agent, nTrials, b, None).value;
              && ReportTells(task, records, report)
              && report.unverifiedClaims == |Unexplained(records)|
              && (report.unverifiedClaims == 0 <==>
                    forall i :: 0 <= i < nTrials ==> Pairable(records[i].result.purchases, records[i].executed))
  {
    if nTrials >= 1 {
      EvaluationTells(task, agent, nTrials, b, None);
      RunIsDefault(task, agent, b, nTrials, Trials(task, agent, b, None, nTrials).records);
      if NoneRaises(task, agent, b, nTrials) {
        DefaultRunGuarded(task, agent, b, nTrials);
        ClaimsCounted(task, DefaultRecords(task, agent, b, nTrials), Evaluate(task, agent, nTrials, b, None).value);
      }
    }
  }

  lemma RunIsDefault(task: TaskSpec, agent: AgentFn, b: int, n: nat, run: Result<seq<TrialRecord>>)
    requires run == Trials(task, agent, b, None, n).records
    ensures run.Ok? <==> NoneRaises(task, agent, b, n)
    ensures run.Ok? ==> run.value == DefaultRecords(task, agent, b, n)
  {
    DefaultRunTrialwise(task, agent, b, n);
    if run.Ok? {
      forall i: nat | i < n ensures TrialNumber(task, agent, b, i) == Ok(run.value[i]) {
        assert DefaultTrial(task, agent)(b + i) == Ok(run.value[i]);
      }
    } else {
      var seed :| b <= seed < b + n && DefaultTrial(task, agent)(seed) == Err(run.error);
      assert !TrialNumber(task, agent, b, seed - b).Ok?;
    }
  }

  lemma ClaimsCounted(task: TaskSpec, records: seq<TrialRecord>, report: EvalReport)
    requires GuardTold(task, records, report) && forall r :: r in records ==> GuardedRecord(task, r)
    ensures report.unverifiedClaims == |Unexplained(records)|
    ensures report.unverifiedClaims == 0 <==>
            forall i :: 0 <= i < |records| ==> Pairable(records[i].result.purchases, records[i].executed)
  {
    var unverified := set i: nat | i < |records| && records[i].outcome == UNVERIFIED_CLAIM;
    forall i: nat | i < |records|
      ensures records[i].outcome == UNVERIFIED_CLAIM <==> !Pairable(records[i].result.purchases, records[i].executed)
    {
      assert GuardedRecord(task, records[i]);
    }
    assert unverified == Unexplained(records);
    if |Unexplained(records)| == 0 {
      forall i: nat | i < |records| ensures Pairable(records[i].result.purchases, records[i].executed) {
        assert i !in Unexplained(records);
      }
    } else {
      var i: nat :| i in Unexplained(records);
    }
  }
}
