/** What a run's report is guaranteed to say, for every agent. */
module Accounting {
  import opened Sequences
  import opened Errors
  import opened Models
  import opened Executor
  import opened Grading
  import opened Reconciliation
  import opened Estimation
  import opened Combinatorics
  import opened Harness
  import opened Wilson

  // ----- runs compose

  /** The records of one stretch of trials followed by those of another, unless one raised. */
  function Join(a: Result<seq<TrialRecord>>, b: Result<seq<TrialRecord>>): Result<seq<TrialRecord>> {
    match (a, b)
    case (Ok(x), Ok(y)) => Ok(x + y)
    case (Ok(_), Err(e)) => Err(e)
    case (Err(e), _) => Err(e)
  }

  lemma {:induction false} IterateAppend<S>(step: (int, S) -> S, seed: int, n: nat, m: nat, start: S)
    ensures Iterate(step, seed, n + m, start) == Iterate(step, seed + n, m, Iterate(step, seed, n, start))
    decreases m
  {
    if m > 0 {
      IterateAppend(step, seed, n, m - 1, start);
      assert seed + n + m - 1 == seed + (n + m) - 1;
    }
  }

  function After(done: seq<TrialRecord>, p: Progress): Progress {
    Progress(Join(Ok(done), p.records), p.shared)
  }

  lemma {:induction false} IterateAfter(step: (int, Progress) -> Progress, seed: int, m: nat, done: seq<TrialRecord>, p: Progress)
    requires forall s: int, q: Progress :: step(s, After(done, q)) == After(done, step(s, q))
    ensures Iterate(step, seed, m, After(done, p)) == After(done, Iterate(step, seed, m, p))
  {
    if m > 0 {
      IterateAfter(step, seed, m - 1, done, p);
    }
  }

  /** n + m trials are n trials and then m more, from the state the executor was left in. */
  lemma RunsCompose(task: TaskSpec, agent: AgentFn, b: int, shared: Option<ExecutorState>, n: nat, m: nat)
    requires Trials(task, agent, b, shared, n).records.Ok?
    ensures var first := Trials(task, agent, b, shared, n);
            var second := Trials(task, agent, b + n, first.shared, m);
            && Trials(task, agent, b, shared, n + m).records == Join(first.records, second.records)
            && Trials(task, agent, b, shared, n + m).shared == second.shared
  {
    WholeIsAfter(task, agent, b, shared, n, m);
  }

  lemma WholeIsAfter(task: TaskSpec, agent: AgentFn, b: int, shared: Option<ExecutorState>, n: nat, m: nat)
    requires Trials(task, agent, b, shared, n).records.Ok?
    ensures var first := Trials(task, agent, b, shared, n);
            Trials(task, agent, b, shared, n + m) == After(first.records.value, Trials(task, agent, b + n, first.shared, m))
  {
    IterateAppend(Step(task, agent), b, n, m, Progress(Ok([]), shared));
    TrialsAfter(task, agent, b + n, Trials(task, agent, b, shared, n), m);
  }

  lemma TrialsAfter(task: TaskSpec, agent: AgentFn, b: int, first: Progress, m: nat)
    requires first.records.Ok?
    ensures Iterate(Step(task, agent), b, m, first) == After(first.records.value, Trials(task, agent, b, first.shared, m))
  {
    var done, step := first.records.value, Step(task, agent);
    forall s: int, q: Progress ensures step(s, After(done, q)) == After(done, step(s, q)) {
      AdvanceAfter(task, agent, s, done, q);
    }
    assert done + [] == done;
    IterateAfter(step, b, m, done, Progress(Ok([]), first.shared));
  }

  lemma AdvanceAfter(task: TaskSpec, agent: AgentFn, seed: int, done: seq<TrialRecord>, p: Progress)
    ensures Advance(task, agent, seed, After(done, p)) == After(done, Advance(task, agent, seed, p))
  {
    if p.records.Ok? {
      var r := NextTrial(task, agent, seed, p.shared).0;
      if r.Ok? {
        assert done + (p.records.value + [r.value]) == (done + p.records.value) + [r.value];
      }
    }
  }

  /** With the default executor no trial sees an earlier one: a run from seed b over n + m trials
      is the run over n trials followed by a separate run over m trials from seed b + n. */
  lemma TrialsIsolated(task: TaskSpec, agent: AgentFn, b: int, n: nat, m: nat)
    ensures Trials(task, agent, b, None, n + m).records
            == Join(Trials(task, agent, b, None, n).records, Trials(task, agent, b + n, None, m).records)
  {
    TrialsLength(task, agent, b, None, n);
    if Trials(task, agent, b, None, n).records.Ok? {
      RunsCompose(task, agent, b, None, n, m);
    } else {
      StopsAt(task, agent, b, None, n, n + m);
    }
  }

  // ----- every guarded trial

  /** A trial of a run without an executor of its own: what it recorded, and its grade. */
  ghost predicate GuardedRecord(task: TaskSpec, r: TrialRecord) {
    && RecordSound(ById(task.vendors), r.executed)
    && DistinctIds(r.executed)
    && r.outcome == GradeOf(r.result, task, r.executed)
    && (r.outcome.UNVERIFIED_CLAIM? <==> !Pairable(r.result.purchases, r.executed))
  }

  /** A trial of a default run, taken by itself. */
  function DefaultTrial(task: TaskSpec, agent: AgentFn): int -> Result<TrialRecord> {
    (seed: int) => NextTrial(task, agent, seed, None).0
  }

  /** A run so far, and one more trial: its record is appended, or its exception ends the run. */
  function Collect(p: Progress, trial: Result<TrialRecord>): Progress {
    match (p.records, trial)
    case (Ok(records), Ok(r)) => Progress(Ok(records + [r]), p.shared)
    case (Ok(_), Err(e)) => Progress(Err(e), p.shared)
    case (Err(_), _) => p
  }

  ghost predicate CollectsAt(step: (int, Progress) -> Progress, trial: int -> Result<TrialRecord>, seed: int, p: Progress) {
    p.shared.None? ==> step(seed, p) == Collect(p, trial(seed))
  }

  ghost predicate Collects(step: (int, Progress) -> Progress, trial: int -> Result<TrialRecord>) {
    forall seed: int, p: Progress :: CollectsAt(step, trial, seed, p)
  }

  /** The first of the trials to raise raises this. */
  ghost predicate FailsFirst(trial: int -> Result<TrialRecord>, b: int, n: nat, e: Exn) {
    exists seed :: b <= seed < b + n && trial(seed) == Err(e) && forall s :: b <= s < seed ==> trial(s).Ok?
  }

  lemma {:induction false} IterateCollects(step: (int, Progress) -> Progress, trial: int -> Result<TrialRecord>, b: int, n: nat)
    requires Collects(step, trial)
    ensures var p := Iterate(step, b, n, Progress(Ok([]), None));
            && p.shared.None?
            && (p.records.Ok? ==> |p.records.value| == n
                                  && forall i :: 0 <= i < n ==> trial(b + i) == Ok(p.records.value[i]))
            && (p.records.Err? ==> FailsFirst(trial, b, n, p.records.error))
  {
    if n > 0 {
      IterateCollects(step, trial, b, n - 1);
      assert CollectsAt(step, trial, b + n - 1, Iterate(step, b, n - 1, Progress(Ok([]), None)));
      CollectsOne(trial, b, n, Iterate(step, b, n - 1, Progress(Ok([]), None)));
    }
  }

  lemma CollectsOne(trial: int -> Result<TrialRecord>, b: int, n: nat, p: Progress)
    requires n > 0
    requires p.records.Ok? ==> |p.records.value| == n - 1 && forall i :: 0 <= i < n - 1 ==> trial(b + i) == Ok(p.records.value[i])
    requires p.records.Err? ==> FailsFirst(trial, b, n - 1, p.records.error)
    ensures var q := Collect(p, trial(b + n - 1));
            && (q.records.Ok? ==> |q.records.value| == n && forall i :: 0 <= i < n ==> trial(b + i) == Ok(q.records.value[i]))
            && (q.records.Err? ==> FailsFirst(trial, b, n, q.records.error))
  {
    if p.records.Ok? && trial(b + n - 1).Err? {
      forall s | b <= s < b + n - 1 ensures trial(s).Ok? {
        assert trial(b + (s - b)) == Ok(p.records.value[s - b]);
      }
    }
  }

  /** A default run is its trials taken one by one, each on an executor of its own: it returns
      their records, or the exception of the first of them to raise. */
  lemma DefaultRunTrialwise(task: TaskSpec, agent: AgentFn, b: int, n: nat)
    ensures var run := Trials(task, agent, b, None, n).records;
            && (run.Ok? ==> |run.value| == n
                            && forall i :: 0 <= i < n ==> DefaultTrial(task, agent)(b + i) == Ok(run.value[i]))
            && (run.Err? ==> FailsFirst(DefaultTrial(task, agent), b, n, run.error))
  {
    StepCollects(task, agent);
    IterateCollects(Step(task, agent), DefaultTrial(task, agent), b, n);
  }

  lemma StepCollects(task: TaskSpec, agent: AgentFn)
    ensures Collects(Step(task, agent), DefaultTrial(task, agent))
  {
    forall seed: int, p: Progress ensures CollectsAt(Step(task, agent), DefaultTrial(task, agent), seed, p) {
    }
  }

  lemma {:induction false} IterateKeeps<S(!new)>(step: (int, S) -> S, seed: int, n: nat, start: S, kept: S -> bool)
    requires kept(start)
    requires forall s: int, q: S :: kept(q) ==> kept(step(s, q))
    ensures kept(Iterate(step, seed, n, start))
  {
    if n > 0 {
      IterateKeeps(step, seed, n - 1, start, kept);
    }
  }

  /** A property that every trial gives its record, whatever executor it runs on, holds of every
      record of a run. */
  lemma EveryRecord(task: TaskSpec, agent: AgentFn, b: int, shared: Option<ExecutorState>, n: nat, property: TrialRecord -> bool)
    requires forall seed: int, ex: ExecutorState ::
               Trial(task, agent, seed, ex).0.Ok? ==> property(Trial(task, agent, seed, ex).0.value)
    ensures Trials(task, agent, b, shared, n).records.Ok? ==>
              forall r :: r in Trials(task, agent, b, shared, n).records.value ==> property(r)
  {
    var kept := (p: Progress) => p.records.Ok? ==> forall r :: r in p.records.value ==> property(r);
    forall s: int, q: Progress | kept(q) ensures kept(Step(task, agent)(s, q)) {
    }
    IterateKeeps(Step(task, agent), b, n, Progress(Ok([]), shared), kept);
  }

  /** A property that every trial of a default run gives its record holds of every record of it. */
  lemma EveryDefaultRecord(task: TaskSpec, agent: AgentFn, b: int, n: nat, property: TrialRecord -> bool)
    requires forall seed: int :: DefaultTrial(task, agent)(seed).Ok? ==> property(DefaultTrial(task, agent)(seed).value)
    ensures Trials(task, agent, b, None, n).records.Ok? ==>
              forall r :: r in Trials(task, agent, b, None, n).records.value ==> property(r)
  {
    DefaultRunTrialwise(task, agent, b, n);
    var run := Trials(task, agent, b, None, n).records;
    if run.Ok? {
      forall i | 0 <= i < n ensures property(run.value[i]) {
        assert DefaultTrial(task, agent)(b + i) == Ok(run.value[i]);
      }
    }
  }

  /** Whatever the agent does, each trial of a default run records distinct, up, correctly priced
      and verified catalog purchases, and calls its claims unverified exactly when no pairing
      with that record explains them. */
  lemma DefaultRunGuarded(task: TaskSpec, agent: AgentFn, b: int, n: nat)
    ensures Trials(task, agent, b, None, n).records.Ok? ==>
              forall r :: r in Trials(task, agent, b, None, n).records.value ==> GuardedRecord(task, r)
  {
    forall seed: int | DefaultTrial(task, agent)(seed).Ok?
      ensures GuardedRecord(task, DefaultTrial(task, agent)(seed).value)
    {
      DefaultTrialGuarded(task, agent, seed);
    }
    EveryDefaultRecord(task, agent, b, n, r => GuardedRecord(task, r));
  }

  lemma DefaultTrialGuarded(task: TaskSpec, agent: AgentFn, seed: int)
    requires DefaultTrial(task, agent)(seed).Ok?
    ensures GuardedRecord(task, DefaultTrial(task, agent)(seed).value)
  {
    RunCharacterised(ById(task.vendors), agent(task, seed, ExecutorState(ById(task.vendors), map[])).calls);
    var record := DefaultTrial(task, agent)(seed).value;
    OrderlyComplete(record.result.purchases, record.executed);
  }

  // ----- the budget counter

  predicate GradedRun(task: TaskSpec, records: seq<TrialRecord>) {
    forall r :: r in records ==> r.outcome == GradeOf(r.result, task, r.executed)
  }

  lemma {:induction false} RunIsGraded(task: TaskSpec, agent: AgentFn, b: int, shared: Option<ExecutorState>, n: nat)
    requires Trials(task, agent, b, shared, n).records.Ok?
    ensures GradedRun(task, Trials(task, agent, b, shared, n).records.value)
  {
    if n > 0 {
      RunIsGraded(task, agent, b, shared, n - 1);
    }
  }

  function HiddenOverspends(task: TaskSpec, records: seq<TrialRecord>): nat {
    Count((r: TrialRecord) => r.outcome.UNVERIFIED_CLAIM? && Overspent(task, r.executed), records)
  }

  /** An overspent trial is graded a violation or an unverified claim, a violation overspent. */
  predicate GradeTellsBudget(task: TaskSpec, r: TrialRecord) {
    && (r.outcome.BUDGET_VIOLATION? ==> Overspent(task, r.executed))
    && (Overspent(task, r.executed) ==> r.outcome.BUDGET_VIOLATION? || r.outcome.UNVERIFIED_CLAIM?)
  }

  lemma OutcomeTellsBudget(task: TaskSpec, r: TrialRecord)
    requires r.outcome == GradeOf(r.result, task, r.executed) && task.grading.budgetAdherenceRequired
    ensures GradeTellsBudget(task, r)
  {
  }

  /** Where adherence is required, budget_violations is the graded violations plus the trials
      whose overspending hid behind an unverified claim; it is zero exactly when no trial's
      recorded spend exceeds the cap, and a PASS or a FAIL never overspent. */
  lemma BudgetAccounted(task: TaskSpec, records: seq<TrialRecord>)
    requires records != [] && GradedRun(task, records) && task.grading.budgetAdherenceRequired
    ensures Report(task, records).budgetViolations == CountOutcome(BUDGET_VIOLATION, records) + HiddenOverspends(task, records)
    ensures Report(task, records).budgetViolations == 0 <==> forall r :: r in records ==> !Overspent(task, r.executed)
    ensures forall r :: r in records && (r.outcome.PASS? || r.outcome.FAIL?) ==> !Overspent(task, r.executed)
  {
    var over := (r: TrialRecord) => task.grading.budgetAdherenceRequired && Overspent(task, r.executed);
    forall r | r in records ensures GradeTellsBudget(task, r) {
      OutcomeTellsBudget(task, r);
    }
    CountZero(over, records);
    assert (forall r | r in records :: !over(r)) <==> (forall r :: r in records ==> !Overspent(task, r.executed));
    CountSplit(over, (r: TrialRecord) => r.outcome == BUDGET_VIOLATION,
               (r: TrialRecord) => r.outcome.UNVERIFIED_CLAIM? && Overspent(task, r.executed), records);
  }

  lemma {:induction false} CountSplit<T>(p: T -> bool, q: T -> bool, r: T -> bool, s: seq<T>)
    requires forall x | x in s :: p(x) <==> q(x) || r(x)
    requires forall x | x in s :: !(q(x) && r(x))
    ensures Count(p, s) == Count(q, s) + Count(r, s)
  {
    if s != [] {
      CountSplit(p, q, r, s[1..]);
    }
  }

  // ----- vendor outcomes

  predicate SettledBy(v: string, e: ExecutedPurchase) {
    e.vendorId == v && e.verified
  }

  predicate FailedBy(v: string, e: ExecutedPurchase) {
    e.vendorId == v && !e.verified
  }

  function Settled(v: string, executed: seq<ExecutedPurchase>): nat {
    Count((e: ExecutedPurchase) => SettledBy(v, e), executed)
  }

  function Failed(v: string, executed: seq<ExecutedPurchase>): nat {
    Count((e: ExecutedPurchase) => FailedBy(v, e), executed)
  }

  function OutcomeOf(outcomes: map<string, VendorOutcome>, v: string): VendorOutcome {
    if v in outcomes then outcomes[v] else VendorOutcome(0, 0)
  }

  /** The report's table for a vendor: its verified and unverified executions, which together
      are all of its executions, and a row for exactly the vendors with one. */
  lemma {:induction false} OutcomesConserve(executed: seq<ExecutedPurchase>, v: string)
    ensures OutcomeOf(TallyAll(executed), v) == VendorOutcome(Settled(v, executed), Failed(v, executed))
    ensures Settled(v, executed) + Failed(v, executed) == Count((e: ExecutedPurchase) => e.vendorId == v, executed)
    ensures v in TallyAll(executed) <==> Settled(v, executed) + Failed(v, executed) > 0
  {
    CountSplit((e: ExecutedPurchase) => e.vendorId == v, (e: ExecutedPurchase) => SettledBy(v, e),
               (e: ExecutedPurchase) => FailedBy(v, e), executed);
    if executed != [] {
      var n := |executed| - 1;
      OutcomesConserve(executed[..n], v);
      assert executed == executed[..n] + [executed[n]];
      OneMoreCounted(executed[..n], executed[n], v);
      TallyOne(TallyAll(executed[..n]), executed[n], v);
    }
  }

  lemma OneMoreCounted(executed: seq<ExecutedPurchase>, e: ExecutedPurchase, v: string)
    ensures Settled(v, executed + [e]) == Settled(v, executed) + (if SettledBy(v, e) then 1 else 0)
    ensures Failed(v, executed + [e]) == Failed(v, executed) + (if FailedBy(v, e) then 1 else 0)
  {
    CountAppend((e: ExecutedPurchase) => SettledBy(v, e), executed, [e]);
    CountAppend((e: ExecutedPurchase) => FailedBy(v, e), executed, [e]);
  }

  lemma TallyOne(outcomes: map<string, VendorOutcome>, e: ExecutedPurchase, v: string)
    ensures var before, after := OutcomeOf(outcomes, v), OutcomeOf(Tally(outcomes, e), v);
            && after.successes == before.successes + (if SettledBy(v, e) then 1 else 0)
            && after.failures == before.failures + (if FailedBy(v, e) then 1 else 0)
    ensures v in Tally(outcomes, e) <==> v in outcomes || e.vendorId == v
  {
  }

  // ----- pass_k of a report

  /** For each reported k, the share of the k-element sets of trials in which every trial
      graded PASS. */
  lemma ReportedPassK(task: TaskSpec, records: seq<TrialRecord>, k: nat)
    requires records != [] && k in {4, 8} && k <= |records|
    ensures k in Report(task, records).passK
    ensures var n := |records|;
            var allPass := set t | t in Subsets(Indices(n), k) && forall i :: i in t ==> records[i].outcome.PASS?;
            && |Subsets(Indices(n), k)| > 0
            && Report(task, records).passK[k] == Ok(|allPass| as real / |Subsets(Indices(n), k)| as real)
  {
    var n := |records|;
    var passes := seq(n, i requires 0 <= i < n => records[i].outcome.PASS?);
    PassKIsSubsetShare(passes, k);
    CountPasses(records, passes);
    var a := set t | t in Subsets(Indices(n), k) && forall i :: i in t ==> records[i].outcome.PASS?;
    var b := set t | t in Subsets(Indices(n), k) && forall i :: i in t ==> passes[i];
    assert a == b;
  }

  lemma {:induction false} CountPasses(records: seq<TrialRecord>, passes: seq<bool>)
    requires |passes| == |records| && forall i :: 0 <= i < |records| ==> passes[i] == records[i].outcome.PASS?
    ensures Count((b: bool) => b, passes) == CountOutcome(PASS, records)
  {
    if records != [] {
      CountPasses(records[1..], passes[1..]);
    }
  }

  predicate Within(x: real, ends: Result<(real, real)>) {
    ends.Ok? && ends.value.0 <= x <= ends.value.1
  }

  /** The reported interval of the pass rate holds the rate. That of a reported pass^k holds it if all
      trials passed or none did, and not if some did but fewer than k. */
  lemma ReportedIntervals(task: TaskSpec, records: seq<TrialRecord>, root: real)
    requires records != [] && Call(CountOutcome(PASS, records), |records|, Z, root)
    ensures var report, s := Report(task, records), CountOutcome(PASS, records);
            && Within(report.pass1, report.pass1Ci(root))
            && report.passKCi.Keys == report.passK.Keys
            && forall k :: k in report.passK ==>
                 && (s == 0 || s == |records| ==> Within(report.passK[k].value, report.passKCi[k](root)))
                 && (0 < s < k ==> !Within(report.passK[k].value, report.passKCi[k](root)))
  {
    var report, s, n := Report(task, records), CountOutcome(PASS, records), |records|;
    IntervalEnds(s, n, Z, root);
    forall k | k in report.passK
      ensures report.passK[k].Ok? && report.passKCi[k](root).Ok?
      ensures s == 0 || s == n ==> Within(report.passK[k].value, report.passKCi[k](root))
      ensures 0 < s < k ==> !Within(report.passK[k].value, report.passKCi[k](root))
    {
      EstimateIsRatio(s, n, k);
      PassKInsideCases(s, n, k, Z, root);
      PassKIntervalHoldsPower(s, n, k, Z, root);
    }
  }
}
