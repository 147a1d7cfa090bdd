# Agentic procurement, verified

A Dafny model of the repository's evaluation harness, its statistics, its spend-permission
signatures and its x402 payment path, with proofs of what they guarantee.

`dafny verify dfyconfig.toml` checks the whole project.

## What is modelled

**The trial machine** (`Models`, `Policy`, `Executor`, `Grading`, `Reconciliation`, `Harness`, `Strategies`,
`Accounting`, `ReportLaws`, `Isolation`, `Planner`, `PlannerPolicy`, `Recovery`, `Retrying`). The synthetic executor
and the recording view are classes whose counters and record change call by call. `run_eval`'s loops are methods over
them, each proved against a function of the state before. An agent is any function from its arguments and the executor's
state to the payments it asks for and the way it ends (a result, some other value, an exception). The state settles
every reply, so an agent that looks at the replies is one of these too (`StrategyIsAgent`). The planner's language
model is an arbitrary oracle. Python exceptions are the `Err` side of a result and abort a run as they do there.

**The statistics** (`Combinatorics`, `Estimation`, `Wilson`, `Reliability`). `pass_k`, the Wilson interval
and the Beta fold over exact reals. The square root in the interval is a value `r >= 0` with `r * r` equal to
the radicand.

**Signing and encoding** (`Abi`, `Eip712`, `TypedData`, `DigestBinding`, `Registration`). Byte strings, 32-byte words,
the hand-written encodings, the two-level digest of EIP-712 under an arbitrary hash function, and the registration of a
permission against a chain that other parties also write to. Nothing is assumed about collisions of the hash: two
signings with one digest hand over a collision.

**The settlement path** (`Json`, `Offers`, `Settlement`, `LogBytes`, `PayFlow`, `PaymentLaws`, `RealExecutor`,
`RealPlanner`). Reading untrusted
JSON terms, offer selection, the retry loop over RPC endpoints, the log scan and `pay()` itself, over every script of
replies: the terms, the facilitator's report, what each endpoint says at each try, and the receipt.

`Sequences` and `Errors` hold what they share.

## Main results

- **Greedy reconciliation.** It is sound for every input (`ReconcileSound`). It is complete, and blind to the
  order of the claims, exactly when the recorded amounts are orderly (`OrderlyExactly`); distinct vendors make
  them so, and the duplicate gate makes the vendors distinct (`DefaultRunGuarded`, `RealRecordReconciles`).
- **Fault injection.** After any calls in any order a vendor's counter and its place in the record are a closed
  form of the number of its effective calls (`RunCharacterised`).
- **Trial isolation.** Default runs split into separate runs (`TrialsIsolated`); runs on a shared executor do
  exactly when no vendor that is up has a refusal left, for all agents with one script on such executors
  (`IsolatesExactly`). Agents that only look at replies have one (`StrategyOneScript`), the retrying loops among them
  (`RecovererIsolated`).
- **The planner.** No answer of the model makes it overspend or misreport, on the synthetic executor
  (`PlannerKeepsBudget`) or on the x402 one (`RealPlannerKeepsBudget`). On the synthetic one it pays within policy
  exactly on the catalogs where no candidate leads outside it (`PlannerPaysInPolicy`). For every reply it does as the
  model says at the cost of its tokens (`PlannerObeys`, `ModelEscalates`, `NoCandidateEscalates`, `ReplyRaises`,
  `RealTrialObeys`).
- **The report.** For every agent each field of the report is counted over the trials themselves, and a trial counts
  as unverified exactly if no pairing explains its claims (`DefaultEvaluation`).
- **Recovery.** For every price-sorted loop the first cheapest candidate that it does not pass over decides the trial
  (`RecoveryExactly`). A loop that can deal with a task's faults buys exactly the cheapest purchasable
  vendor and passes exactly the self-consistent tasks (`RecoveryWins`), and every self-consistent task has such a loop
  (`SelfConsistentWinnable`). Its reported best-price capture is zero whenever the cheapest vendor in policy cannot
  be bought (`RecoveryMetrics`).
- **`pass_k`.** It is unbiased (`PassKUnbiased`) and equals the share of the k-subsets of trials that passed
  throughout (`ReportedPassK`).
- **The Wilson interval** is the accepted set of the score test, its ends are that test's two roots, and the
  clamps change nothing (`IntervalInvertsScoreTest`). The interval for pass^k holds its point estimate exactly when
  that test accepts the estimate's k-th root (`PassKInsideExactly`).
- **Digest binding** by collision extraction, in both directions and for addresses of any length
  (`ExtractCollision`, `AgreeingDigests`); up to 32 bytes it binds the addresses as numbers (`ComparableAgree`).
- **Digests by the standard.** The code signs what EIP-712 defines for one list of members (`DigestIsTyped`).
- **The payment.** No hash is lost on any path through `pay()` (`NoHashLost`), every exit has its exact condition
  (`PayExits`), and the call returns exactly if the bytes of the first Transfer in the receipt pay the cheapest offer
  (`PayReturnsExactly`, `MatchMeans`), with the amount bounded by the cap (`SettledAmountBound`).
- **Reliability rows** hold the posterior of the verified and unverified executions (`VendorReliability`,
  `RowsConserveRecord`).
- **The read-back** after a registration is as good as one atomic look, in the order the code reads and not in
  the other (`ReadBackIsSnapshot`, `OrderMatters`).

## Worth knowing about the code

- `evals/executor.py:82-84` says the sentinel for an unmapped target can never equal a catalog id. It can, if a
  catalog id is `unmapped:` followed by an unmapped target (`SentinelClash`); `SentinelExact` gives the exact
  condition.
- `evals/stats.py:45-60` reports an interval for `p**k`, and its own point estimate can lie outside. It is inside
  exactly when the score test accepts the estimate's k-th root (`PassKInsideExactly`). It is outside whenever some
  trials passed but fewer than `k`, and for other inputs too, such as 8 of 100 trials with `k = 8`
  (`EightOfAHundred`).
- `evals/harness.py:108-114` rebuilds the default executor for each trial and reuses a given one. A given one keeps
  the trials of every agent with one script apart exactly when no vendor that is up has a refusal left
  (`IsolatesExactly`).
- `evals/agents/claude_planner.py:7-16` calls paying an out-of-policy vendor structurally impossible. On a synthetic
  task it is possible if a candidate's url is the id of such a vendor (`UrlLeadsOutside`); `PlannerPaysInPolicy` gives
  the exact condition, which distinct ids and urls that are no other vendor's id rule out (`ApartStaysInside`).
- `payments/client.py:150-151` says inspect_offer only ever raises two exceptions. For decoded terms it raises others
  exactly where parse_terms does (`InspectRaises`): for an infinite version or timeout, since `_int_or` does not catch
  OverflowError (`InfiniteVersionRaises`); for a truthy `accepts` that is not a list (`AcceptsNoList`); and for an entry
  that is no object, has a truthy `extra` that is none, or has an amount that is NaN or overflows (`ParseTermsRaises`).
- `payments/spend_permission.py:78-79` pads an address of any length, so the digest binds the wallet's word and the run
  of the three others (`DigestBinds`, `AgreeingDigests`). Up to 32 bytes that is the numbers, and at 20 bytes the
  digits; texts of one number share a digest (`ShortAddressesAmbiguous`), and beyond 32 bytes different numbers can
  (`LongAddressesAmbiguous`).

## Model

| member | source | states |
|---|---|---|
| Policy.CandidateIff | evals/harness.py:60-82 | a candidate is exactly a catalog vendor that the mandate allows, of the goal category and within the cap |
| Policy.CandidatesDistinct | evals/harness.py:60-82 | filtering keeps vendor ids distinct |
| Policy.CheckPurchaseExactly | evals/guardrail.py:52-77 | for every catalog: VendorNotOffered is raised exactly when the target names no candidate by id or url, and otherwise the price of the first candidate it names decides |
| Policy.CheckPurchaseOffers | evals/guardrail.py:52-77 | whatever passes the check is a sane-priced candidate that the target names by id or url |
| Policy.CheckPurchaseById | evals/guardrail.py:52-77 | where ids name one vendor each, an id passes exactly when it is that of a sane-priced candidate, which is returned, and raises PriceAnomaly exactly for an anomalous one |
| Sequences.FirstMinIsFirst | evals/harness.py:85-89 | min by price is the first of the cheapest, and absent only from an empty list |
| Policy.CheapestExactly | evals/harness.py:85-89 | the cheapest vendor in policy is no dearer than any candidate and cheaper than every one before it, and missing exactly where there is no candidate |
| Executor.ById | evals/executor.py:33 | the dictionary holds catalog vendors only, under every catalog id |
| Executor.ByIdKeepsLast | evals/executor.py:33 | under each id it holds the last vendor listed with it |
| Executor.SyntheticExecutor.constructor | evals/executor.py:32-38 | a new executor indexes the catalog and has no attempts on record |
| Executor.SyntheticExecutor.Pay | evals/executor.py:40-57 | reply and counters after a call are the specified function of the counters before; the catalog stays |
| Executor.RecordingView.constructor | evals/harness.py:26-48 | a new view records nothing |
| Executor.RecordingView.Pay | evals/harness.py:41-46 | the duplicate gate runs before the executor, and exactly the payments that return are appended to the record |
| Executor.RunCharacterised | evals/executor.py:40-57 | after any list of calls the record holds distinct catalog vendors, up, at catalog price, verified; a vendor's counter is its number of affordable calls while up, cut off at one more than its failures, and it is recorded exactly when those calls outnumber its failures |
| Grading.MatchIndex | evals/grading.py:28-33 | the first verified execution of the claim's vendor within one atomic unit, or none where there is none |
| Grading.Grade | evals/grading.py:36-68 | the loop that pops matched executions computes the specified grade |
| Grading.ReconcileSound | evals/grading.py:42-47 | an accepted list of claims has an injective map to verified executions of the same vendor within one atomic unit |
| Grading.OrderlyIsNoSteal | evals/grading.py:28-33 | the condition on recorded amounts says exactly that no execution can be taken by a claim that leaves another claim without one |
| Grading.ReconcileComplete | evals/grading.py:42-47 | under that condition every list of claims that some pairing explains is accepted |
| Reconciliation.OrderlyExactly | evals/grading.py:42-47 | orderly amounts, completeness of greedy, and a verdict blind to the order of the claims are one and the same |
| Reconciliation.OutOfOrder | evals/grading.py:42-47 | on any other record some list of claims is accepted and a reordering of it refused |
| Reconciliation.GreedyIncomplete | evals/grading.py:42-47 | two executions of one vendor for 0 and 2 units refuse claims of 1 and 0 units that a pairing explains |
| Reconciliation.GradeIgnoresOrder | evals/grading.py:36-68 | with distinct recorded vendors the grade ignores the order of claims and of executions |
| Reconciliation.PassMeans | evals/grading.py:36-68 | a PASS certifies that every claim is paired, that a required cap was kept, and that exactly the expected purchase was made, or none with an escalation |
| Reconciliation.GradeExactly | evals/grading.py:36-68 | the exact condition of each outcome: unexplained claims, a required cap overspent, the expected purchase or escalation made, or not |
| Harness.DriveAgent | evals/harness.py:41-46 | any list of payments through the view leaves executor and record as the specified fold says |
| Strategies.PlaysOnce | evals/harness.py:41-46 | an agent that looks at the replies plays one script on an executor at most |
| Strategies.StrategyIsAgent | evals/harness.py:107-117 | every such agent that ends on every executor is an agent of this model |
| Strategies.PlayOn | evals/harness.py:41-46 | asking and looking at the replies through the view leaves the state that the script does |
| Harness.RunTrial | evals/harness.py:116-124 | one trial on a given executor: its record or exception, and the counters it leaves |
| Harness.RunNextTrial | evals/harness.py:115-124 | a given executor is reused, a missing one is built anew for the trial |
| Harness.RunTrials | evals/harness.py:107-124 | the trial loop returns the records of all trials or the first exception |
| Harness.RunEval | evals/harness.py:92-223 | the whole evaluation with its agent id check and the filed report, against its specification function |
| Harness.TallyTrial | evals/harness.py:144-149 | one trial's executions added to the vendor outcomes |
| Harness.CountVendorOutcomes | evals/harness.py:142-149 | the nested loops tally the executions of all trials in order |
| Accounting.RunsCompose | evals/harness.py:107-124 | n + m trials are n trials and then m more from the state the executor was left in |
| Accounting.TrialsIsolated | evals/harness.py:107-124 | with the default executor the m later trials are those of a separate run from seed b + n |
| Isolation.SpentIsolates | evals/harness.py:107-124 | on a shared executor whose vendors that are up have used up their refusals, every run of an agent with one script splits into separate runs |
| Isolation.UnspentLeaks | evals/harness.py:107-124 | a vendor with a refusal left breaks the equation: it serves the next trial of the run and refuses the first of a separate one |
| Isolation.IsolatesExactly | evals/harness.py:108-115 | so a shared executor keeps the trials of all such agents apart exactly when it is spent |
| Isolation.StrategyOneScript | evals/harness.py:41-46 | every agent that sees no more of the executor than its replies has one script on spent executors |
| Retrying.RecovererPlays | tests/test_week8_recovery.py:72-178 | each recovery loop is such an agent |
| Retrying.RecovererIsolated | tests/test_week8_recovery.py:64-89 | so a spent shared executor keeps its trials apart |
| Isolation.SharedExecutorLeaks | evals/harness.py:108-115 | the instance: a vendor that refuses once, and two trials |
| Accounting.DefaultRunTrialwise | evals/harness.py:107-124 | a default run returns the records of its trials taken one by one, or the exception of the first of them to raise |
| Accounting.EveryRecord | evals/harness.py:107-124 | what every trial gives its record on any executor holds of every record of a run |
| Accounting.EveryDefaultRecord | evals/harness.py:107-124 | what every default trial gives its record holds of every record of a default run |
| Accounting.DefaultRunGuarded | evals/harness.py:39-48 | for every agent each default trial's record is sound with distinct vendors, and its claims are called unverified exactly when no pairing explains them |
| Accounting.RunIsGraded | evals/harness.py:124 | every record of a run carries the grade of its result and executions |
| Accounting.BudgetAccounted | evals/harness.py:126-139 | budget_violations is the graded violations plus the overspends behind an unverified claim, is zero exactly when no trial overspent, and no PASS or FAIL overspent |
| Accounting.OutcomesConserve | evals/harness.py:142-149 | a vendor's successes and failures are its verified and unverified executions, which are all of them, and exactly the vendors with one have a row |
| Accounting.ReportedPassK | evals/harness.py:195-199 | each reported pass^k is the share of the k-element sets of trials in which every trial graded PASS |
| Accounting.ReportedIntervals | evals/harness.py:193-204 | the reported interval of the pass rate holds the rate; that of a reported pass^k holds it if all or no trials passed, and not if some did but fewer than k |
| ReportLaws.DefaultEvaluation | evals/harness.py:92-223 | for every agent a default evaluation returns exactly if no trial raises, reports on exactly those trials, and counts as unverified those whose claims no pairing explains: none exactly if every trial's claims are explained |
| ReportLaws.EvaluationTells | evals/harness.py:92-223 | on any executor an evaluation raises ValueError without trials, the exception of its run, or reports on the run's records field by field |
| ReportLaws.TellsVerdicts | evals/harness.py:186-204 | the number of trials, the outcome of each, the share that passed, and the intervals and pass^k of that number at z = 1.96 for k of 4 and 8 |
| ReportLaws.TellsEffort | evals/harness.py:175-218 | touchpoints per trial, the share of trials with an escalation, and the mean cost of the trials that passed, none without one |
| ReportLaws.TellsGuard | evals/harness.py:133-139 | overspending trials are counted where adherence is required and not elsewhere, unverified claims everywhere |
| ReportLaws.TellsCapture | evals/harness.py:151-168 | capture is reported exactly where a purchase is expected and a candidate exists, as the share of PASS and FAIL trials whose one purchase is from the first cheapest candidate |
| ReportLaws.TellsTable | evals/harness.py:142-149 | each reason and each vendor outcome is the sum over the trials of how often it occurs in them |
| ReportLaws.TellsHashes | evals/harness.py:140 | the hashes are those of exactly the executions that carry one, in the order of trials and payments |
| Planner.TokenCost | evals/agents/claude_planner.py:170-186 | the rounded token cost is exact at the listed prices, and an unknown model with usage raises |
| Planner.RunTask | evals/agents/claude_planner.py:63-118 | run_task pays through the view and ends as its plan says, for any answer of the model |
| Planner.EveryPlannerRecord | evals/agents/claude_planner.py:63-118 | every planner trial is honest and within the cap, with either one purchase or one escalation, and one touchpoint more than escalations |
| Planner.PlannerKeepsBudget | evals/agents/claude_planner.py:63-118 | for every task, oracle and executor state the report shows no budget violation, no unverified claim and touchpoints of one plus the escalation rate, unless an exception propagates |
| PlannerPolicy.PlannerPaysInPolicy | evals/agents/claude_planner.py:86-112 | every run under every answer pays only in-policy candidates within the price-sanity multiplier, at catalog price, exactly when no candidate that a target can name leads to a vendor outside policy |
| PlannerPolicy.ApartStaysInside | evals/agents/claude_planner.py:86-112 | none does where ids are distinct and no vendor's url is another's id |
| PlannerPolicy.UrlLeadsOutside | evals/agents/claude_planner.py:106-112 | a catalog where one does: a candidate whose url is the id of a vendor of another category |
| PlannerPolicy.PlannerObeys | evals/agents/claude_planner.py:77-118 | for every catalog: naming a candidate buys the vendor of its target, escalates its anomalous price, or aborts on the refusal that applies; naming none aborts with VendorNotOffered; what returns costs what the tokens cost |
| PlannerPolicy.NoCandidateEscalates | evals/agents/claude_planner.py:65-72 | without a candidate every reply, a failed call too, comes to the same escalation with two touchpoints, free of charge |
| PlannerPolicy.ReplyRaises | evals/agents/claude_planner.py:121-139 | with candidates a failed call raises as it is, an answer that does not parse raises, and usage without a price raises ValueError |
| PlannerPolicy.ModelEscalates | evals/agents/claude_planner.py:74-84 | a model that escalates or names nobody is obeyed: nothing is paid, two touchpoints, its own reason unless empty, and the cost of the tokens |
| PlannerPolicy.ApartNamesItself | evals/agents/claude_planner.py:86-112 | where ids name one vendor each, a candidate's id names it and only it can be bought for it |
| Recovery.TryVendor | tests/test_week8_recovery.py:72-85 | the retry loop on one vendor ends, and leaves the view, as the specified tries do |
| Recovery.RunSorted | tests/test_week8_recovery.py:144-155 | the price-sorted loop with its inner retries, against the specified fallback |
| Recovery.RunLoop | tests/test_week8_recovery.py:121-132 | the fallback over the task's in-policy candidates, cheapest first, ends and leaves the view as specified |
| Recovery.SortSorts | tests/test_week8_recovery.py:122 | sorting by price orders and permutes the candidates |
| Recovery.FirstInOrder | tests/test_task_specs.py:40-44 | the first purchasable candidate in the stable price order is the first cheapest purchasable one |
| Recovery.TryDown | tests/test_week8_recovery.py:145-152 | a vendor that is down outlasts every try and leaves no trace |
| Recovery.TryServes | tests/test_week8_recovery.py:99-106 | a vendor that is up serves once the tries outnumber its refusals |
| Recovery.TryRefused | tests/test_week8_recovery.py:72-85 | and exhausts them otherwise, leaving only its own counter behind |
| Recovery.LoopsEquipped | tests/test_week8_recovery.py:121-178 | without transient faults the fallback loops are equipped for every task without a price multiplier, and the screening loop for every task without down vendors |
| Recovery.ScriptedLoops | tests/test_week8_recovery.py:117-178 | the two fallback loops pass over exactly the vendors that are down, the screening one exactly the anomalous prices, and each gives up with its own reason |
| Recovery.ResilientEquipped | tests/test_week8_recovery.py:72-178 | the loop that screens, catches both faults and tries once more than any candidate fails is equipped for every such task |
| Recovery.RecoveryBuysCheapest | tests/test_week8_recovery.py:121-178 | an equipped loop buys exactly the cheapest purchasable candidate, ties to the first listed, or escalates where there is none |
| Recovery.RecoveryExactly | tests/test_week8_recovery.py:121-178 | for every loop, equipped or not: the first cheapest candidate that is not passed over is bought or aborts the run with its fault, and without one the loop gives up with its reason |
| Recovery.RecoveryTrial | tests/test_task_specs.py:47-77 | its trial passes exactly when the task is self-consistent |
| Recovery.RecoveryWins | tests/test_task_specs.py:47-77 | so does every trial of every run |
| Recovery.SelfConsistentWinnable | tests/test_task_specs.py:47-77 | every self-consistent task, with whatever mix of faults, has a loop that passes every trial |
| Recovery.RecoveryReport | tests/test_week8_recovery.py:134-136 | the reported pass rate is one on a self-consistent task and zero on any other |
| Recovery.RecoveryMetrics | evals/harness.py:151-168 | the escalation rate is all or nothing, and best-price capture is full exactly when the cheapest vendor in policy is the one bought |
| Combinatorics.CombFactorial | evals/harness.py:57 | the recursive binomial coefficient is the quotient of factorials that math.comb stands for |
| Combinatorics.SubsetCount | evals/harness.py:57 | it counts the k-element subsets of a set |
| Combinatorics.OneMoreTrial | evals/harness.py:51-57 | the binomial sum for one more trial mixes the two sums without it by p and q |
| Combinatorics.ExpectationIsTreeMean | evals/harness.py:51-57 | the binomial sum is the mean over the tree of independent trials |
| Combinatorics.ExpectedComb | evals/harness.py:51-57 | the expected number of k-subsets of the successes is C(n,k) p^k |
| Estimation.PassKUnbiased | evals/harness.py:51-57 | for 0 <= k <= n and p in [0,1] the expectation of pass_k is exactly p^k |
| Estimation.PassKIsSubsetShare | evals/harness.py:51-57 | pass_k of a list of outcomes is the share of its k-subsets that passed throughout |
| Estimation.EstimateStep | evals/harness.py:51-57 | one more required attempt scales the estimate by (s - k) / (n - k) |
| Estimation.EstimateBounds | evals/harness.py:51-57 | the estimate lies in [0,1] and is positive exactly when k successes exist |
| Estimation.EstimateMonotone | evals/harness.py:51-57 | it rises with the successes |
| Estimation.EstimateAntitone | evals/harness.py:51-57 | it falls with the required attempts |
| Estimation.EstimateBelowPower | evals/harness.py:51-57 | it never exceeds the k-th power of the observed rate |
| Wilson.WilsonFits | evals/stats.py:35-39 | the code's centre and half width satisfy the quadratic of the score test |
| Wilson.AcceptedSet | evals/stats.py:21-42 | an interval that satisfies it is the accepted set of the score test, with the two roots as ends |
| Wilson.IntervalInvertsScoreTest | evals/stats.py:21-42 | the returned interval is that set, its ends are those roots, and neither clamp changed them |
| Wilson.IntervalEnds | evals/stats.py:21-42 | 0 <= lo <= rate <= hi <= 1, lo is 0 exactly without successes, hi is 1 exactly without failures, and the width is zero exactly for z = 0 |
| Wilson.NegativeExchanges | evals/stats.py:21-42 | a negative z-score returns the same two ends, exchanged |
| Wilson.IntervalForAnyZ | evals/stats.py:21-42 | for every z-score the returned ends are the roots of the score test and enclose what it accepts, the lower first unless z is negative |
| Wilson.IntervalSymmetric | evals/stats.py:21-42 | swapping successes and failures reflects the interval |
| Wilson.IntervalMonotone | evals/stats.py:21-42 | both ends rise with the successes |
| Wilson.IntervalNests | evals/stats.py:21-42 | at one observed rate more trials give an interval inside |
| Wilson.PassKIntervalHoldsPower | evals/stats.py:45-60 | the reported interval is the k-th powers of the ends and holds the k-th power of the observed rate |
| Wilson.PassKAgainstInterval | evals/stats.py:45-60 | pass_k never exceeds the upper end, and is zero and strictly below the lower end for 0 < s < k |
| Wilson.PassKInsideExactly | evals/stats.py:45-60 | the interval holds the point estimate exactly when the score test accepts the rate whose k-th power the estimate is |
| Wilson.PassKInsideCases | evals/stats.py:45-60 | it does without successes, without failures and for k <= 1, and does not for 0 < s < k |
| Wilson.EightOfAHundred | evals/stats.py:45-60 | nor does it for 8 successes in 100 trials, k = 8 and the default z-score |
| Reliability.ObserveOutcome | evals/ml/reliability.py:58-62 | the update loops add the successes to alpha and the failures to beta |
| Reliability.FoldOneReport | evals/ml/reliability.py:57-63 | one report updates exactly its vendors, in whatever order |
| Reliability.VendorReliability | evals/ml/reliability.py:40-75 | exactly the vendors of a readable report get a row, and with s and f their summed counts it holds 1 + s, 1 + f, the mean (1 + s) / (2 + s + f), s, f and s + f |
| Reliability.FoldExact | evals/ml/reliability.py:50-63 | a posterior is the prior plus all counts, and exactly the vendors of a readable report have one |
| Reliability.MeanExact | evals/ml/reliability.py:36-37 | the mean is (1 + s) / (2 + s + f), strictly between 0 and 1 |
| Reliability.FoldIgnoresOrder | evals/ml/reliability.py:40-75 | the order of the reports does not matter |
| Reliability.PosteriorConservesRecord | evals/ml/reliability.py:40-75 | over runs of the harness alpha - 1 and beta - 1 are the vendor's verified and unverified executions |
| Reliability.RowsConserveRecord | evals/ml/reliability.py:65-75 | over runs of the harness a row's successes and failures are the vendor's verified and unverified executions, and its mean follows from them |
| Reliability.FoldIgnoresSplit | evals/ml/reliability.py:40-75 | nor does it matter how the executions are split into runs |
| Abi.FromToBytes | payments/spend_permission.py:82-83 | reading back a big-endian word gives the number |
| Abi.ToFromBytes | payments/spend_permission.py:82-83 | writing back the number of a byte string gives the bytes |
| Abi.UintBijection | payments/spend_permission.py:82-83 | _uint is a bijection between [0, 2^256) and the 32-byte words and raises outside |
| Abi.PadsAlikeExactly | payments/spend_permission.py:74-75 | padded words of one length are equal exactly when they hold the same number |
| Abi.AddressBytesExactly | payments/spend_permission.py:78-79 | addresses whose words have one length, as all of at most 32 bytes have, are encoded alike exactly when they are the same number |
| Abi.ComparableIff | payments/spend_permission.py:74-79 | words have one length exactly if both addresses have at most 32 bytes or equally many |
| Abi.SameDigits | payments/spend_permission.py:78-79 | of equally many digits, they are the same number exactly when the digits agree up to case |
| Abi.WrapDecodes | payments/spend_permission.py:291-297 | the wrapper is whole words and decodes to (0, signature) both as two fields and as one dynamic tuple; it raises only beyond 2^256 bytes |
| Abi.ExtraDataDecodes | payments/spend_router.py:70-75 | the 64 bytes decode to the two addresses |
| Eip712.DigestIsHashed | payments/spend_permission.py:86-122 | the code's concatenations hash exactly the listed words, outermost last |
| TypedData.DigestIsTyped | payments/spend_permission.py:86-122 | the digest is the one that EIP-712 defines: one list of members gives the type string and the order of the encoded words, for both domains, the permission and the wallet's message |
| DigestBinding.DomainBinds | payments/spend_permission.py:86-93 | one domain string means one chain and one contract word, whatever the length of the word |
| DigestBinding.StructBinds | payments/spend_permission.py:96-111 | one struct string means one run of address words, the same integers and one hash of extra_data |
| DigestBinding.DigestBinds | payments/spend_permission.py:96-122 | for all signings, two equal digests mean agreement on chain, wallet word, the run of the three address words, every integer and extra_data, or a collision at one of seven places |
| DigestBinding.AgreeingDigests | payments/spend_permission.py:96-122 | conversely signings that agree so have one digest under every hash |
| DigestBinding.ComparableAgree | payments/spend_permission.py:78-79 | where the address words have one length, agreement is agreement with addresses as numbers |
| DigestBinding.ProperAgree | payments/spend_permission.py:78-79 | on 20-byte addresses it is agreement of the digits up to case |
| DigestBinding.ExtractCollision | payments/spend_permission.py:96-122 | from any two signings that disagree and have one digest the method returns two distinct strings with one hash, found among those that were hashed |
| DigestBinding.ShortAddressesAmbiguous | payments/spend_permission.py:78-79 | below 20 bytes two accounts of different text are both signed, with one digest under every hash |
| DigestBinding.LongAddressesAmbiguous | payments/spend_permission.py:99-101 | beyond 32 bytes two permissions whose accounts are different numbers are both signed, with one digest under every hash |
| Eip712.DeployedDigest | payments/spend_permission.py:86-122 | under the texts that are signed there is a digest exactly for integers of 256 bits and hexadecimal addresses |
| DigestBinding.ConstantHashAgrees | payments/spend_permission.py:96-122 | under a constant hash all signings share a digest, so the collision case cannot be dropped |
| Eip712.SignedBlobDecodes | payments/spend_permission.py:283-297 | the signed blob decodes to owner index 0 and the signature of the digest |
| Registration.Manager.Take | payments/spend_permission.py:238-252 | a step sets a flag and never clears one, and a revoked hash is not approved again |
| Registration.Manager.TakeAll | payments/spend_permission.py:238-252 | so does any list of steps |
| Registration.Register | payments/spend_permission.py:300-336 | the call's outcome and the flags it leaves, with other parties' steps at every gap |
| Registration.FlagsStay | payments/spend_permission.py:63-70 | both flags only ever grow |
| Registration.ReadBackIsSnapshot | payments/spend_permission.py:320-336 | the call returns exactly when it was mined, both reads were answered and the permission is approved and not revoked at the instant of the second |
| Registration.RegisterAnswers | payments/spend_permission.py:312-336 | what each fate of the transaction answers: the hash, the exception of what failed, no receipt as unconfirmed under the hash, or the permission as unauthorized |
| Registration.RevokedForGood | payments/spend_permission.py:63-70 | once a hash is revoked no later call for it returns |
| Registration.OrderMatters | payments/spend_permission.py:327-330 | reading the revocation first, or the approval alone, accepts a permission that the code refuses |
| Offers.OfferExactly | payments/client.py:71-113 | an entry that does not raise is quoted field by field; its offer is satisfiable exactly for a price that is not negative, the exact scheme, the token pinned for its network and no other transfer method, and is refused for the first check that fails |
| Offers.FalsyExactly | payments/client.py:82-83 | the values that Python takes for false, for which a default stands in |
| Offers.ChainIdExactly | payments/client.py:51-59 | a network has a chain exactly if it is eip155: and a number, or one of the two known names |
| Offers.IntExactly | payments/client.py:62-68 | an integer is read towards zero, with the default for what is none and OverflowError for infinity |
| Offers.BestIsFirstCheapest | payments/client.py:120-121 | the best offer is the first cheapest satisfiable one, infinite amounts coming last |
| Offers.BestExactly | payments/client.py:116-125 | the best offer is that of the one entry that is the first cheapest that can be paid, and missing exactly if none can |
| Offers.QuoteExactly | payments/client.py:116-125 | a quote holds the version, the offers of the entries in their order and the best of them |
| Offers.NoBestOffer | payments/client.py:120-121 | there is none exactly when no offer is satisfiable |
| Offers.OffersRaiseExactly | payments/client.py:119 | pricing the entries raises exactly if some entry does, and otherwise prices each in its place |
| Offers.ParseTermsRaises | payments/client.py:62-125 | parse_terms raises exactly for an infinite version, an accepts value that is truthy but no list, or an entry that is no object, has a NaN or overflowing amount, a truthy extra that is no object, or an infinite timeout; and then one of five exceptions |
| Settlement.FetchReceipt | payments/settlement.py:49-80 | the nested retry loop computes the specified search in at most five probes per endpoint |
| Settlement.SearchMeans | payments/settlement.py:62-80 | what each of the three ends of the search says about the endpoints, from any point of it |
| Settlement.ReceiptSearchExact | payments/settlement.py:49-80 | the reply is that of the first endpoint that serves within five tries and before a transport error; ConnectionError is raised exactly when every endpoint fails at its first try |
| Settlement.ScanLogs | payments/settlement.py:103-114 | the scan stops at the first Transfer of the pinned token, or finds none |
| Settlement.Compare | payments/settlement.py:99-151 | the mismatches accumulate as specified, and an expected asset that is no address raises |
| Settlement.Verify | payments/settlement.py:94-151 | the verification as a whole, with its exceptions |
| Settlement.NoMismatch | payments/settlement.py:120-136 | there is no mismatch exactly when status, payer, payee, truncated amount and asset all agree |
| LogBytes.MatchMeans | payments/settlement.py:103-151 | a settlement matches exactly when the receipt succeeded, the asset is the token, and the first Transfer of the token has the payer's bytes in its second topic, the payee's in its third and the truncated atoms as its data |
| LogBytes.VerifiesExactly | payments/settlement.py:94-151 | on a pinned network a found receipt is judged if the expected asset is an address; each mismatch is reported exactly if the receipt's bytes show it, and the transfer is quoted as it was logged |
| LogBytes.PinnedExactly | payments/constants.py:17-30 | the tokens that are pinned for the two networks, the Transfer topic, and KeyError for any other network |
| LogBytes.AddressesExactly | payments/settlement.py:135-136 | an asset is accepted exactly if its text writes twenty bytes in hexadecimal, with or without a prefix |
| LogBytes.SameAddress | payments/settlement.py:135-136 | two accepted texts are told apart exactly by their bytes |
| PayFlow.Pay | payments/client.py:179-282 | the pay flow with every exit, against its specification |
| PayFlow.InspectRaises | payments/client.py:132-162 | inspect_offer raises more than EndpointUnreachable and UnexpectedStatus exactly when the decoded terms it settles for make parse_terms raise |
| PayFlow.InfiniteVersionRaises | payments/client.py:62-68 | terms with an infinite x402Version and an empty list raise OverflowError |
| PayFlow.AcceptsNoList | payments/client.py:118-119 | an integer as accepts raises TypeError unless it is zero, and an empty object offers nothing |
| PayFlow.PreFlightPins | payments/client.py:182-198 | past the checks the offer is the first cheapest satisfiable one, within the cap and the balance, on an allowed pinned chain |
| PayFlow.NoHashLost | payments/client.py:231-282 | every exit carries exactly the transaction hash that the facilitator reported, or none if none was |
| PaymentLaws.InspectExactly | payments/client.py:132-162 | terms are parsed wherever they are found, header first; without any, no answer, a 402 and any other status each end in their own way |
| PaymentLaws.PreFlightExactly | payments/client.py:182-198 | the checks pass exactly for the first cheapest entry that can be paid, within the cap, on an allowed chain and with a balance of at least the price; and the exact condition of each refusal |
| PaymentLaws.ConfirmExactly | payments/client.py:251-282 | a report that claims success ends as the receipt says: lost, mismatched for exactly the reasons its bytes show, paid but not delivered, or returned |
| PaymentLaws.ExitsExactly | payments/client.py:216-282 | the exact condition of every exit after the checks, with the hash that it carries |
| PaymentLaws.PayExits | payments/client.py:179-282 | both together for the whole call |
| PaymentLaws.PayReturnsExactly | payments/client.py:179-282 | the call returns exactly when some offer passes every check, the seller answers 200 with a successful report and a hash, and the first Transfer of the receipt found pays the offer, byte for byte |
| PaymentLaws.SettledAmountBound | payments/client.py:251-282 | a return means that the receipt found pays the offer, with 0 <= offer - paid < 10^-6 and paid <= offer <= cap, and paid = offer exactly for whole atomic amounts |
| RealExecutor.BuildUrlMap | evals/executor.py:65-77 | the constructor refuses exactly the catalogs in which two vendors share a url, and otherwise maps each url to its vendor |
| RealExecutor.SentinelExact | evals/executor.py:82-85 | the sentinel differs from every catalog id exactly when no catalog id is the prefix and an unmapped target |
| RealExecutor.SentinelClash | evals/executor.py:82-85 | a catalog with the id `unmapped:u` clashes with the unmapped target `u` |
| RealExecutor.RealPaymentWithinCap | evals/executor.py:79-89 | a recorded x402 payment is between zero and the cap asked for |
| RealExecutor.RealPayRecords | evals/executor.py:79-89 | a call records nothing if its url was paid before or the payment raises, and otherwise exactly the verified amount, payee and hash, at the url paid |
| RealExecutor.RealRunSound | evals/executor.py:79-89 | over every run through the view payments are verified, attributed by url, and no url is paid twice |
| RealExecutor.AttributionInjective | evals/executor.py:85 | different targets are attributed to different ids under that condition |
| RealExecutor.RealRecordReconciles | evals/harness.py:39-48 | the record then has distinct vendors, so its reconciliation is complete and order-blind |
| RealPlanner.RecordsThroughView | evals/agents/claude_planner.py:110-112 | what the planner records on the x402 executor is what its one call through the view records |
| RealPlanner.RealTrialHonest | evals/agents/claude_planner.py:110-118 | for every answer and payment environment the trial is honest and within the cap |
| RealPlanner.RealTrialObeys | evals/agents/claude_planner.py:63-118 | for every reply a trial on the x402 executor does as the model says, raises what the call, the parser, the price list, the check or the payment raises, and costs what the tokens cost |
| RealPlanner.RealTrialInPolicy | evals/agents/claude_planner.py:86-112 | a payment is made at the target of an in-policy, sane-priced candidate, verified, within the cap, and under the candidate's id where its url is mapped |
| RealPlanner.RealTrialSettles | evals/agents/claude_planner.py:110-118 | a trial records and claims its payment as it was settled, or nothing |
| RealPlanner.RealHashesReported | evals/harness.py:140 | the report lists exactly the hashes of the payments, one for each trial that paid, in order |
| RealPlanner.RealPlannerKeepsBudget | evals/agents/claude_planner.py:63-118 | an evaluation through the x402 executor ends in an exception or reports no budget violation, no unverified claim and touchpoints of one plus the escalation rate |

## Left out

- Arithmetic: `Decimal` and `float` are exact reals. NaN, infinities, the 28-digit context and IEEE rounding are
  not modelled outside the reading of offers; the amount of an execution is non-negative, as both executors return it.
- Agents that do not terminate, that keep state between trials, or that are not deterministic in their arguments.
- Executors other than the synthetic one inside `run_eval`; the lemmas about a report hold for any list of graded
  records, and `RealExecutor` covers the x402 one behind the view.
- Harness.RunEval: the date of a report is a parameter, and a reported interval is a function of the square root that it
  takes.
- Planner.RunTask: the prompt, the trace, the quality threshold and the model's temperature are not modelled.
- Recovery.TryVendor: one parameterised loop stands for the scripted agents of the test module; the retry agent's
  hard-coded vendor is the call it is given.
- Recovery.RecoveryWins: needs a loop that can deal with the candidates' faults, distinct ids and no url that is
  another vendor's id.
- Grading.Grade: the last rule of the ladder does not look at `verified` again, and neither does the model.
- Wilson.IntervalMonotone: stated for non-negative z, as are symmetry and nesting; `NegativeExchanges` carries them
  over.
- Wilson.PassKIntervalHoldsPower: the coverage probability of the intervals is not stated.
- DigestBinding.DigestBinds: letter case and leading zero bytes of addresses do not count as a difference. The white
  space that `bytes.fromhex` skips is not modelled.
- Abi.WrapDecodes: decoding is proved, not equality with the canonical encoding of the struct.
- Registration.Register: the contract beyond its two flags, the time window, gas and nonces are not modelled; the
  source of the contract is not part of this model.
- Offers.ParseTermsRaises: Python's `int()` and `Decimal()` on text, and `str()` of what is not text, are arbitrary
  parsers. The copy of the raw terms is omitted, and so are the interpreter's recursion limit on nested terms and the
  rounding of an amount to 28 digits.
- Settlement.Verify: addresses of logs and transactions are lower-case text, as web3 has read them; topics are 32-byte
  words. Which texts are addresses follows web3, which is not part of this repository.
- PayFlow.Pay: HTTP, the x402 SDK session, the wallet and web3 are scripts of replies. The spend control appears as the
  amount that the paid GET is authorized for, on which its reply may depend; how the SDK enforces it is not modelled.
  A transport error of the paid GET propagates as it is and is not a payment error.
- RealExecutor.RealRunSound: the executor's `paid` flag is always true on a return, as in `pay`.
- Provisioning a wallet, `spend`, `revoke`, the router's transactions, the error selectors and the chain guards.
- `evals/ml/price_classifier.py`, `evals/ml/synthetic_data.py`, JSON decoding, pydantic parsing, report printing,
  scripts, the seller and the fixtures.
