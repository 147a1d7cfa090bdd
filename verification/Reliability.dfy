/** The Beta-Binomial vendor reliability fold over evaluation reports. */
module Reliability {
  import opened Sequences
  import opened Models
  import opened Harness
  import opened Accounting

  type Outcomes = map<string, VendorOutcome>

  datatype Posterior = Posterior(alpha: real, beta: real)

  const PRIOR := Posterior(1.0, 1.0)

  function BetaUpdate(p: Posterior, success: bool): Posterior {
    if success then Posterior(p.alpha + 1.0, p.beta) else Posterior(p.alpha, p.beta + 1.0)
  }

  function PosteriorMean(p: Posterior): real
    requires p.alpha + p.beta != 0.0
  {
    p.alpha / (p.alpha + p.beta)
  }

  /** How often range(n) runs its loop. */
  function Times(n: int): nat {
    if n < 0 then 0 else n
  }

  function PosteriorOf(posteriors: map<string, Posterior>, v: string): Posterior {
    if v in posteriors then posteriors[v] else PRIOR
  }

  function Observe(p: Posterior, outcome: VendorOutcome): Posterior {
    Posterior(p.alpha + Times(outcome.successes) as real, p.beta + Times(outcome.failures) as real)
  }

  function FoldReport(posteriors: map<string, Posterior>, outcomes: Outcomes): map<string, Posterior> {
    map v | v in posteriors.Keys + outcomes.Keys ::
      if v in outcomes then Observe(PosteriorOf(posteriors, v), outcomes[v]) else posteriors[v]
  }

  /** A report that does not parse is skipped. */
  function FoldAll(reports: seq<Option<Outcomes>>): map<string, Posterior> {
    if reports == [] then map[] else
      var before := FoldAll(reports[..|reports| - 1]);
      match reports[|reports| - 1]
      case None => before
      case Some(outcomes) => FoldReport(before, outcomes)
  }

  datatype Row = Row(alpha: real, beta: real, mean: real, successes: int, failures: int, nObservations: int)

  function RowOf(p: Posterior): Row
    requires p.alpha + p.beta != 0.0
  {
    Row(p.alpha, p.beta, PosteriorMean(p), (p.alpha - PRIOR.alpha).Floor, (p.beta - PRIOR.beta).Floor,
        (p.alpha + p.beta - PRIOR.alpha - PRIOR.beta).Floor)
  }

  // ----- the loops

  method ObserveOutcome(prior: Posterior, outcome: VendorOutcome) returns (p: Posterior)
    ensures p == Observe(prior, outcome)
  {
    p := prior;
    for i := 0 to Times(outcome.successes)
      invariant p == Posterior(prior.alpha + i as real, prior.beta)
    {
      p := BetaUpdate(p, true);
    }
    for j := 0 to Times(outcome.failures)
      invariant p == Posterior(prior.alpha + Times(outcome.successes) as real, prior.beta + j as real)
    {
      p := BetaUpdate(p, false);
    }
  }

  /** The vendors of a report are folded in any order. */
  method FoldOneReport(before: map<string, Posterior>, outcomes: Outcomes) returns (posteriors: map<string, Posterior>)
    ensures posteriors == FoldReport(before, outcomes)
  {
    posteriors := before;
    var left := outcomes.Keys;
    while left != {}
      invariant left <= outcomes.Keys
      invariant posteriors.Keys == before.Keys + (outcomes.Keys - left)
      invariant forall v :: v in posteriors ==>
        posteriors[v] == if v in outcomes && v !in left then Observe(PosteriorOf(before, v), outcomes[v]) else before[v]
      decreases left
    {
      var v :| v in left;
      var p := ObserveOutcome(PosteriorOf(posteriors, v), outcomes[v]);
      posteriors := posteriors[v := p];
      left := left - {v};
    }
  }

  method VendorReliability(reports: seq<Option<Outcomes>>) returns (rows: map<string, Row>)
    ensures forall v :: v in rows <==> Mentioned(reports, v)
    ensures forall v :: v in rows ==> RowTells(rows[v], TotalSuccesses(reports, v), TotalFailures(reports, v))
  {
    var posteriors: map<string, Posterior> := map[];
    assert reports[..0] == [];
    for i := 0 to |reports|
      invariant posteriors == FoldAll(reports[..i])
    {
      assert reports[..i + 1][..i] == reports[..i];
      if reports[i].Some? {
        posteriors := FoldOneReport(posteriors, reports[i].value);
      }
    }
    assert reports[..|reports|] == reports;
    forall v: string
      ensures v in posteriors <==> Mentioned(reports, v)
      ensures v in posteriors ==> posteriors[v].alpha + posteriors[v].beta != 0.0
      ensures v in posteriors ==> RowTells(RowOf(posteriors[v]), TotalSuccesses(reports, v), TotalFailures(reports, v))
    {
      RowExact(reports, v);
    }
    rows := map v | v in posteriors :: RowOf(posteriors[v]);
  }

  /** A row of a vendor with s successes and f failures: the posterior Beta(1 + s, 1 + f), its mean
      and the counts themselves. */
  predicate RowTells(row: Row, s: real, f: real) {
    && row.alpha == 1.0 + s && row.beta == 1.0 + f
    && 2.0 + s + f > 0.0 && row.mean == (1.0 + s) / (2.0 + s + f) && 0.0 < row.mean < 1.0
    && row.successes as real == s && row.failures as real == f && row.nObservations as real == s + f
  }

  // ----- what the fold computes

  function SuccessesIn(report: Option<Outcomes>, v: string): nat {
    if report.Some? && v in report.value && report.value[v].successes > 0 then report.value[v].successes else 0
  }

  function FailuresIn(report: Option<Outcomes>, v: string): nat {
    if report.Some? && v in report.value && report.value[v].failures > 0 then report.value[v].failures else 0
  }

  function TotalSuccesses(reports: seq<Option<Outcomes>>, v: string): real {
    Sum((r: Option<Outcomes>) => SuccessesIn(r, v) as real, reports)
  }

  function TotalFailures(reports: seq<Option<Outcomes>>, v: string): real {
    Sum((r: Option<Outcomes>) => FailuresIn(r, v) as real, reports)
  }

  predicate Mentions(report: Option<Outcomes>, v: string) {
    report.Some? && v in report.value
  }

  lemma {:induction false} SumNonNegative<T>(f: T -> real, s: seq<T>)
    requires forall x | x in s :: f(x) >= 0.0
    ensures Sum(f, s) >= 0.0
  {
    if s != [] {
      SumNonNegative(f, s[1..]);
    }
  }

  /** A vendor's posterior is the uniform prior plus all its successes and failures, and exactly
      the vendors of a readable report have one. */
  lemma {:induction false} FoldExact(reports: seq<Option<Outcomes>>, v: string)
    ensures PosteriorOf(FoldAll(reports), v) == Posterior(1.0 + TotalSuccesses(reports, v), 1.0 + TotalFailures(reports, v))
    ensures v in FoldAll(reports) <==> Mentioned(reports, v)
    ensures TotalSuccesses(reports, v) >= 0.0 && TotalFailures(reports, v) >= 0.0
  {
    SumNonNegative((r: Option<Outcomes>) => SuccessesIn(r, v) as real, reports);
    SumNonNegative((r: Option<Outcomes>) => FailuresIn(r, v) as real, reports);
    if reports != [] {
      var n := |reports| - 1;
      FoldExact(reports[..n], v);
      assert reports == reports[..n] + [reports[n]];
      assert Mentioned(reports, v) <==> Mentioned(reports[..n], v) || Mentions(reports[n], v);
      SumAppend((r: Option<Outcomes>) => SuccessesIn(r, v) as real, reports[..n], [reports[n]]);
      SumAppend((r: Option<Outcomes>) => FailuresIn(r, v) as real, reports[..n], [reports[n]]);
    }
  }

  /** The mean is (1 + s) / (2 + s + f), strictly between zero and one. */
  lemma MeanExact(reports: seq<Option<Outcomes>>, v: string)
    ensures var s, f := TotalSuccesses(reports, v), TotalFailures(reports, v);
            && 2.0 + s + f > 0.0
            && PosteriorMean(Posterior(1.0 + s, 1.0 + f)) == (1.0 + s) / (2.0 + s + f)
            && PosteriorOf(FoldAll(reports), v) == Posterior(1.0 + s, 1.0 + f)
            && 0.0 < (1.0 + s) / (2.0 + s + f) < 1.0
  {
    FoldExact(reports, v);
    MeanAlgebra(TotalSuccesses(reports, v), TotalFailures(reports, v));
  }

  lemma MeanAlgebra(s: real, f: real)
    requires s >= 0.0 && f >= 0.0
    ensures (1.0 + s) + (1.0 + f) == 2.0 + s + f
    ensures 0.0 < (1.0 + s) / (2.0 + s + f) < 1.0
  {
    var x, d := (1.0 + s) / (2.0 + s + f), 2.0 + s + f;
    assert x * d == 1.0 + s;
    assert (1.0 - x) * d == 1.0 + f;
  }

  /** Exactly the mentioned vendors have a row, and it tells their summed counts. */
  lemma RowExact(reports: seq<Option<Outcomes>>, v: string)
    ensures v in FoldAll(reports) <==> Mentioned(reports, v)
    ensures v in FoldAll(reports) ==>
              var p := FoldAll(reports)[v];
              p.alpha + p.beta != 0.0 && RowTells(RowOf(p), TotalSuccesses(reports, v), TotalFailures(reports, v))
  {
    FoldExact(reports, v);
    WholeSum((r: Option<Outcomes>) => SuccessesIn(r, v) as real, reports);
    WholeSum((r: Option<Outcomes>) => FailuresIn(r, v) as real, reports);
    if v in FoldAll(reports) {
      RowAlgebra(FoldAll(reports)[v], TotalSuccesses(reports, v), TotalFailures(reports, v));
    }
  }

  lemma RowAlgebra(p: Posterior, s: real, f: real)
    requires p == Posterior(1.0 + s, 1.0 + f) && s >= 0.0 && f >= 0.0
    requires s.Floor as real == s && f.Floor as real == f
    ensures p.alpha + p.beta != 0.0 && RowTells(RowOf(p), s, f)
  {
    MeanAlgebra(s, f);
    assert (s + f).Floor == s.Floor + f.Floor;
  }

  lemma {:induction false} WholeSum<T>(f: T -> real, s: seq<T>)
    requires forall x | x in s :: f(x).Floor as real == f(x)
    ensures Sum(f, s).Floor as real == Sum(f, s)
  {
    if s != [] {
      WholeSum(f, s[1..]);
      assert f(s[0]) + Sum(f, s[1..]) == (f(s[0]).Floor + Sum(f, s[1..]).Floor) as real;
    }
  }

  /** The order of the reports does not matter. */
  lemma FoldIgnoresOrder(reports: seq<Option<Outcomes>>, reports': seq<Option<Outcomes>>)
    requires multiset(reports) == multiset(reports')
    ensures FoldAll(reports) == FoldAll(reports')
  {
    forall v: string
      ensures v in FoldAll(reports) <==> v in FoldAll(reports')
      ensures PosteriorOf(FoldAll(reports), v) == PosteriorOf(FoldAll(reports'), v)
    {
      FoldExact(reports, v);
      FoldExact(reports', v);
      SumReorder((r: Option<Outcomes>) => SuccessesIn(r, v) as real, reports, reports');
      SumReorder((r: Option<Outcomes>) => FailuresIn(r, v) as real, reports, reports');
      assert forall r :: r in reports <==> r in reports' by {
        assert forall r :: r in reports <==> r in multiset(reports);
      }
    }
    SameMap(FoldAll(reports), FoldAll(reports'));
  }

  lemma SameMap(m: map<string, Posterior>, m': map<string, Posterior>)
    requires forall v :: v in m <==> v in m'
    requires forall v :: PosteriorOf(m, v) == PosteriorOf(m', v)
    ensures m == m'
  {
    forall v | v in m ensures m[v] == m'[v] {
      assert PosteriorOf(m, v) == PosteriorOf(m', v);
    }
  }

  /** The report tables of several runs. */
  function Tables(runs: seq<seq<ExecutedPurchase>>): seq<Option<Outcomes>> {
    seq(|runs|, i requires 0 <= i < |runs| => Some(TallyAll(runs[i])))
  }

  function Concat(runs: seq<seq<ExecutedPurchase>>): seq<ExecutedPurchase> {
    if runs == [] then [] else runs[0] + Concat(runs[1..])
  }

  /** From the harness's records to the posterior: alpha - 1 and beta - 1 are the vendor's
      verified and unverified executions over all runs. */
  lemma {:induction false} PosteriorConservesRecord(runs: seq<seq<ExecutedPurchase>>, v: string)
    ensures TotalSuccesses(Tables(runs), v) == Settled(v, Concat(runs)) as real
    ensures TotalFailures(Tables(runs), v) == Failed(v, Concat(runs)) as real
  {
    if runs != [] {
      PosteriorConservesRecord(runs[1..], v);
      assert Tables(runs)[1..] == Tables(runs[1..]);
      OutcomesConserve(runs[0], v);
      CountAppend((e: ExecutedPurchase) => SettledBy(v, e), runs[0], Concat(runs[1..]));
      CountAppend((e: ExecutedPurchase) => FailedBy(v, e), runs[0], Concat(runs[1..]));
    }
  }

  /** From the harness's records to the row: successes and failures are the vendor's verified and
      unverified executions over all runs, and the mean is (1 + s) / (2 + s + f). */
  lemma RowsConserveRecord(runs: seq<seq<ExecutedPurchase>>, v: string, row: Row)
    requires RowTells(row, TotalSuccesses(Tables(runs), v), TotalFailures(Tables(runs), v))
    ensures var executed := Concat(runs);
            && row.successes == Count((e: ExecutedPurchase) => e.vendorId == v && e.verified, executed)
            && row.failures == Count((e: ExecutedPurchase) => e.vendorId == v && !e.verified, executed)
            && row.nObservations == Count((e: ExecutedPurchase) => e.vendorId == v, executed)
            && row.mean == (1 + row.successes) as real / (2 + row.nObservations) as real
  {
    var executed := Concat(runs);
    PosteriorConservesRecord(runs, v);
    OutcomesConserve(executed, v);
    CountSame((e: ExecutedPurchase) => SettledBy(v, e), (e: ExecutedPurchase) => e.vendorId == v && e.verified, executed);
    CountSame((e: ExecutedPurchase) => FailedBy(v, e), (e: ExecutedPurchase) => e.vendorId == v && !e.verified, executed);
    assert row.nObservations == row.successes + row.failures;
    assert (1 + row.successes) as real == 1.0 + row.successes as real;
    assert (2 + row.nObservations) as real == 2.0 + row.successes as real + row.failures as real;
  }

  ghost predicate Mentioned(reports: seq<Option<Outcomes>>, v: string) {
    exists r :: r in reports && Mentions(r, v)
  }

  lemma MentionedCons(r: Option<Outcomes>, reports: seq<Option<Outcomes>>, v: string)
    ensures Mentioned([r] + reports, v) <==> Mentions(r, v) || Mentioned(reports, v)
  {
    if Mentions(r, v) {
      assert r in [r] + reports;
    }
    if Mentioned(reports, v) {
      var x :| x in reports && Mentions(x, v);
      assert x in [r] + reports;
    }
  }

  lemma {:induction false} MentionedIffExecuted(runs: seq<seq<ExecutedPurchase>>, v: string)
    ensures Mentioned(Tables(runs), v) <==> Settled(v, Concat(runs)) + Failed(v, Concat(runs)) > 0
  {
    if runs != [] {
      MentionedIffExecuted(runs[1..], v);
      assert Tables(runs) == [Some(TallyAll(runs[0]))] + Tables(runs[1..]);
      MentionedCons(Some(TallyAll(runs[0])), Tables(runs[1..]), v);
      OutcomesConserve(runs[0], v);
      CountAppend((e: ExecutedPurchase) => SettledBy(v, e), runs[0], Concat(runs[1..]));
      CountAppend((e: ExecutedPurchase) => FailedBy(v, e), runs[0], Concat(runs[1..]));
    }
  }

  /** However the same executions are split into runs, the posteriors are the same. */
  lemma FoldIgnoresSplit(runs: seq<seq<ExecutedPurchase>>, runs': seq<seq<ExecutedPurchase>>)
    requires Concat(runs) == Concat(runs')
    ensures FoldAll(Tables(runs)) == FoldAll(Tables(runs'))
  {
    forall v: string
      ensures v in FoldAll(Tables(runs)) <==> v in FoldAll(Tables(runs'))
      ensures PosteriorOf(FoldAll(Tables(runs)), v) == PosteriorOf(FoldAll(Tables(runs')), v)
    {
      FoldExact(Tables(runs), v);
      FoldExact(Tables(runs'), v);
      PosteriorConservesRecord(runs, v);
      PosteriorConservesRecord(runs', v);
      MentionedIffExecuted(runs, v);
      MentionedIffExecuted(runs', v);
    }
    SameMap(FoldAll(Tables(runs)), FoldAll(Tables(runs')));
  }
}
