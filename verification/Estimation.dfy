/** pass_k of evals/harness.py: its subset meaning, its unbiasedness and its order laws. */
module Estimation {
  import opened Sequences
  import opened Errors
  import opened Combinatorics

  function PassK(successes: nat, nTrials: nat, k: nat): Result<real> {
    if k > nTrials then Err(ValueError)
    else if successes < k then Ok(0.0)
    else
      CombSupport(nTrials, k);
      Ok(Comb(successes, k) as real / Comb(nTrials, k) as real)
  }

  /** The estimate, where the call does not raise. */
  function Estimate(nTrials: nat, k: nat): nat -> real
    requires k <= nTrials
  {
    (successes: nat) => PassK(successes, nTrials, k).value
  }

  lemma EstimateIsRatio(s: nat, n: nat, k: nat)
    requires k <= n
    ensures Comb(n, k) > 0
    ensures PassK(s, n, k) == Ok(Comb(s, k) as real / Comb(n, k) as real)
  {
    CombSupport(n, k);
    CombSupport(s, k);
  }

  /** The docstring's claim: over n independent trials of success probability p the estimate's
      mean is the probability that k of k attempts succeed. */
  lemma PassKUnbiased(n: nat, k: nat, p: real)
    requires k <= n && 0.0 <= p <= 1.0
    ensures Expectation(n, p, 1.0 - p, Estimate(n, k)) == Pow(p, k)
  {
    CombPositive(n, k);
    ExpectationScaled(n, k, p);
    ExpectedComb(n, p, 1.0 - p, k);
    ClosedFormScaled(n, k, p);
    SameMultiple(CombAt(k)(n), ClosedForm(p)(n, k), Expectation(n, p, 1.0 - p, Estimate(n, k)), Pow(p, k));
  }

  lemma CombPositive(n: nat, k: nat)
    requires k <= n
    ensures CombAt(k)(n) > 0.0
  {
    CombSupport(n, k);
  }

  lemma SameMultiple(c: real, m: real, x: real, y: real)
    requires c > 0.0 && m == c * x && m == c * y
    ensures x == y
  {
    Cancel(c, x, y);
  }

  lemma ClosedFormScaled(n: nat, k: nat, p: real)
    ensures ClosedForm(p)(n, k) == CombAt(k)(n) * Pow(p, k)
  {
  }

  lemma ExpectationScaled(n: nat, k: nat, p: real)
    requires k <= n
    ensures Expectation(n, p, 1.0 - p, CombAt(k)) == CombAt(k)(n) * Expectation(n, p, 1.0 - p, Estimate(n, k))
  {
    forall s: nat ensures CombAt(k)(s) == CombAt(k)(n) * Estimate(n, k)(s) {
      EstimateScaled(s, n, k);
    }
    MeanScale(n, p, 1.0 - p, CombAt(k)(n), Estimate(n, k), CombAt(k));
  }

  lemma EstimateScaled(s: nat, n: nat, k: nat)
    requires k <= n
    ensures CombAt(k)(s) == CombAt(k)(n) * Estimate(n, k)(s)
  {
    EstimateIsRatio(s, n, k);
  }

  lemma MeanScale(n: nat, p: real, q: real, c: real, f: nat -> real, h: nat -> real)
    requires forall s: nat :: h(s) == c * f(s)
    ensures Expectation(n, p, q, h) == c * Expectation(n, p, q, f)
  {
    TreeMeanScale(n, p, q, c, f, h);
    ExpectationIsTreeMean(n, p, q, f);
    ExpectationIsTreeMean(n, p, q, h);
  }

  lemma Cancel(c: real, x: real, y: real)
    requires c > 0.0 && c * x == c * y
    ensures x == y
  {
  }

  // ----- the estimate as a fraction of subsets

  ghost function Indices(n: nat): (r: set<nat>)
    ensures forall i: nat :: i in r <==> i < n
  {
    if n == 0 then {} else Indices(n - 1) + {n - 1}
  }

  /** The trials that passed. */
  ghost function Passed(outcomes: seq<bool>): set<nat> {
    set i: nat | i < |outcomes| && outcomes[i]
  }

  lemma {:induction false} IndicesSize(n: nat)
    ensures |Indices(n)| == n
  {
    if n > 0 {
      IndicesSize(n - 1);
    }
  }

  lemma {:induction false} PassedCount(outcomes: seq<bool>)
    ensures |Passed(outcomes)| == Count((b: bool) => b, outcomes)
  {
    if outcomes != [] {
      var n := |outcomes| - 1;
      PassedCount(outcomes[..n]);
      assert outcomes == outcomes[..n] + [outcomes[n]];
      CountAppend((b: bool) => b, outcomes[..n], [outcomes[n]]);
      PassedStep(outcomes, n);
    }
  }

  lemma PassedStep(outcomes: seq<bool>, n: nat)
    requires |outcomes| == n + 1
    ensures |Passed(outcomes)| == |Passed(outcomes[..n])| + (if outcomes[n] then 1 else 0)
  {
    assert Passed(outcomes) == Passed(outcomes[..n]) + (if outcomes[n] then {n} else {});
  }

  /** The estimate from a list of outcomes is the share of its k-element sets of trials
      that hold passes only. */
  lemma PassKIsSubsetShare(outcomes: seq<bool>, k: nat)
    requires k <= |outcomes|
    ensures var n := |outcomes|;
            var allPass := set t | t in Subsets(Indices(n), k) && forall i :: i in t ==> outcomes[i];
            && |Subsets(Indices(n), k)| > 0
            && PassK(Count((b: bool) => b, outcomes), n, k)
               == Ok(|allPass| as real / |Subsets(Indices(n), k)| as real)
  {
    var n := |outcomes|;
    var allPass := set t | t in Subsets(Indices(n), k) && forall i :: i in t ==> outcomes[i];
    PassedCount(outcomes);
    IndicesSize(n);
    SubsetCount(Indices(n), k);
    SubsetCount(Passed(outcomes), k);
    assert allPass == Subsets(Passed(outcomes), k);
    EstimateIsRatio(Count((b: bool) => b, outcomes), n, k);
  }

  // ----- order laws

  /** One more required attempt multiplies the estimate by (s - k) / (n - k). */
  lemma EstimateStep(s: nat, n: nat, k: nat)
    requires s <= n && k < n
    ensures PassK(s, n, k + 1).Ok? && PassK(s, n, k).Ok?
    ensures PassK(s, n, k + 1).value * (n - k) as real
            == PassK(s, n, k).value * (if s < k then 0.0 else (s - k) as real)
  {
    EstimateIsRatio(s, n, k);
    EstimateIsRatio(s, n, k + 1);
    Absorption(n, k);
    if s >= k {
      Absorption(s, k);
      RatioAlgebra(k + 1, s - k, n - k, Comb(s, k), Comb(s, k + 1), Comb(n, k), Comb(n, k + 1));
    }
  }

  lemma RatioAlgebra(j: nat, a: nat, b: nat, x: nat, x': nat, y: nat, y': nat)
    requires j > 0 && y > 0 && y' > 0
    requires j * x' == a * x && j * y' == b * y
    ensures (x' as real / y' as real) * b as real == (x as real / y as real) * a as real
  {
    var r, r' := x as real / y as real, x' as real / y' as real;
    assert r * y as real == x as real && r' * y' as real == x' as real;
    var jr, ar, br, yr := j as real, a as real, b as real, y as real;
    assert jr * x' as real == ar * x as real;
    assert jr * y' as real == br * yr;
    assert r' * (br * yr) == r' * (jr * y' as real) == jr * x' as real == ar * (r * yr);
    assert yr * (r' * br) == yr * (r * ar);
    Cancel(yr, r' * br, r * ar);
  }

  lemma EstimateBounds(s: nat, n: nat, k: nat)
    requires s <= n && k <= n
    ensures 0.0 <= PassK(s, n, k).value <= 1.0
    ensures PassK(s, n, k).value > 0.0 <==> k <= s
  {
    EstimateIsRatio(s, n, k);
    CombSupport(s, k);
    CombMonotone(s, n, k);
    ShareBounds(Comb(s, k) as real, Comb(n, k) as real);
  }

  lemma ShareBounds(a: real, b: real)
    requires 0.0 <= a <= b && b > 0.0
    ensures 0.0 <= a / b <= 1.0
    ensures a / b > 0.0 <==> a > 0.0
  {
    var x := a / b;
    assert x * b == a;
    NonNegativeFactor(x, b);
    NonNegativeFactor(1.0 - x, b);
  }

  lemma EstimateMonotone(s: nat, t: nat, n: nat, k: nat)
    requires s <= t <= n && k <= n
    ensures PassK(s, n, k).value <= PassK(t, n, k).value
  {
    EstimateIsRatio(s, n, k);
    EstimateIsRatio(t, n, k);
    CombMonotone(s, t, k);
    DivideMonotone(Comb(s, k) as real, Comb(t, k) as real, Comb(n, k) as real);
  }

  lemma DivideMonotone(a: real, b: real, c: real)
    requires a <= b && c > 0.0
    ensures a / c <= b / c
  {
    var x, y := a / c, b / c;
    assert x * c == a && y * c == b;
    NonNegativeFactor(y - x, c);
  }

  lemma NonNegativeFactor(d: real, c: real)
    requires d * c >= 0.0 && c > 0.0
    ensures d >= 0.0
  {
  }

  lemma EstimateAntitone(s: nat, n: nat, k: nat)
    requires s <= n && k < n
    ensures PassK(s, n, k + 1).value <= PassK(s, n, k).value
  {
    EstimateStep(s, n, k);
    EstimateBounds(s, n, k);
    SmallerFactor(PassK(s, n, k + 1).value, PassK(s, n, k).value, if s < k then 0.0 else (s - k) as real, (n - k) as real);
  }

  lemma SmallerFactor(x: real, y: real, a: real, b: real)
    requires y >= 0.0 && a <= b && b > 0.0 && x * b == y * a
    ensures x <= y
  {
    ProductMonotone(y, a, b);
    assert (y - x) * b == y * b - y * a;
    NonNegativeFactor(y - x, b);
  }

  /** The estimate as a function of the number of required attempts. */
  function AtK(s: nat, n: nat): nat -> real {
    (k: nat) => if k <= n then PassK(s, n, k).value else 0.0
  }

  lemma {:induction false} PowerBound(e: nat -> real, r: real, k: nat)
    requires r >= 0.0 && e(0) == 1.0
    requires forall j: nat :: j < k ==> Shrinks(e, r, j)
    ensures e(k) <= Pow(r, k)
  {
    if k > 0 {
      PowerBound(e, r, k - 1);
      assert Shrinks(e, r, k - 1);
      ProductMonotone(r, e(k - 1), Pow(r, k - 1));
    }
  }

  predicate Shrinks(e: nat -> real, r: real, j: nat) {
    e(j + 1) <= r * e(j)
  }

  /** The estimate never exceeds the k-th power of the observed rate r = s / n. */
  lemma EstimateBelowPower(s: nat, n: nat, k: nat, r: real)
    requires s <= n && 0 < n && k <= n && r * n as real == s as real
    ensures PassK(s, n, k).value <= Pow(r, k)
  {
    AtKStart(s, n);
    forall j: nat | j < k ensures Shrinks(AtK(s, n), r, j) {
      AtKShrinks(s, n, j, r);
    }
    NonNegativeFactor(r, n as real);
    PowerBound(AtK(s, n), r, k);
  }

  lemma AtKShrinks(s: nat, n: nat, k: nat, r: real)
    requires s <= n && k < n && r * n as real == s as real
    ensures Shrinks(AtK(s, n), r, k)
  {
    EstimateShrinks(s, n, k, r);
  }

  lemma AtKStart(s: nat, n: nat)
    ensures AtK(s, n)(0) == 1.0
  {
    EstimateIsRatio(s, n, 0);
  }

  lemma ProductMonotone(r: real, x: real, y: real)
    requires r >= 0.0 && x <= y
    ensures r * x <= r * y
  {
  }

  /** Sampling without replacement only lowers the factor: (s - k) / (n - k) <= s / n. */
  lemma EstimateShrinks(s: nat, n: nat, k: nat, r: real)
    requires s <= n && k < n && r * n as real == s as real
    ensures PassK(s, n, k + 1).Ok? && PassK(s, n, k).Ok?
    ensures PassK(s, n, k + 1).value <= r * PassK(s, n, k).value
  {
    EstimateStep(s, n, k);
    EstimateBounds(s, n, k);
    ShrinkAlgebra(s as real, n as real, k as real, PassK(s, n, k + 1).value, PassK(s, n, k).value, r);
  }

  lemma ShrinkAlgebra(a: real, b: real, c: real, x: real, y: real, r: real)
    requires 0.0 <= a <= b && 0.0 <= c < b && r * b == a
    requires y >= 0.0 && (a < c ==> y == 0.0) && x * (b - c) == y * (if a < c then 0.0 else a - c)
    ensures x <= r * y
  {
    NonNegativeFactor(r, b);
    NonNegativeFactor(1.0 - r, b);
    if a >= c {
      assert a - c <= r * (b - c) by {
        ProductMonotone(c, r, 1.0);
        assert r * (b - c) == a - c * r;
      }
      ProductMonotone(y, a - c, r * (b - c));
    }
    assert y * (r * (b - c)) == (r * y) * (b - c);
    NonNegativeFactor(r * y - x, b - c);
  }
}
