/** Binomial coefficients, subsets of a given size, and binomial expectation. */
module Combinatorics {

  function Comb(n: nat, k: nat): nat {
    if k == 0 then 1 else if n == 0 then 0 else Comb(n - 1, k - 1) + Comb(n - 1, k)
  }

  function Factorial(n: nat): nat {
    if n == 0 then 1 else n * Factorial(n - 1)
  }

  function Pow(x: real, k: nat): real {
    if k == 0 then 1.0 else x * Pow(x, k - 1)
  }

  lemma {:induction false} CombSupport(n: nat, k: nat)
    ensures Comb(n, k) > 0 <==> k <= n
  {
    if k > 0 && n > 0 {
      CombSupport(n - 1, k - 1);
      CombSupport(n - 1, k);
    }
  }

  lemma {:induction false} Absorption(n: nat, k: nat)
    requires k <= n
    ensures (k + 1) * Comb(n, k + 1) == (n - k) * Comb(n, k)
  {
    if k == n {
      CombSupport(n, n + 1);
    } else {
      Absorption(n - 1, k);
      if k > 0 {
        Absorption(n - 1, k - 1);
        AbsorptionAlgebra(n, k, Comb(n - 1, k - 1), Comb(n - 1, k), Comb(n - 1, k + 1));
      }
    }
  }

  lemma AbsorptionAlgebra(n: int, k: int, a: int, b: int, c: int)
    requires (k + 1) * c == (n - 1 - k) * b && k * b == (n - k) * a
    ensures (k + 1) * (b + c) == (n - k) * (a + b)
  {
    assert (k + 1) * (b + c) == (k + 1) * b + (k + 1) * c;
    assert (n - k) * (a + b) == (n - k) * a + (n - k) * b;
  }

  /** Comb is the quotient of factorials that Python's math.comb documents. */
  lemma {:induction false} CombFactorial(n: nat, k: nat)
    requires k <= n
    ensures Comb(n, k) * (Factorial(k) * Factorial(n - k)) == Factorial(n)
    decreases k
  {
    if k > 0 {
      CombFactorial(n, k - 1);
      Absorption(n, k - 1);
      FactorialAlgebra(k, n - k + 1, Comb(n, k), Comb(n, k - 1), Factorial(k - 1), Factorial(n - k));
    }
  }

  lemma FactorialAlgebra(k: int, m: int, a: int, b: int, f: int, g: int)
    requires k * a == m * b
    ensures a * ((k * f) * g) == b * (f * (m * g))
  {
    assert a * ((k * f) * g) == (k * a) * (f * g);
    assert b * (f * (m * g)) == (m * b) * (f * g);
  }

  lemma {:induction false} CombMonotone(m: nat, n: nat, k: nat)
    requires m <= n
    ensures Comb(m, k) <= Comb(n, k)
    decreases n
  {
    if m < n {
      CombMonotone(m, n - 1, k);
    }
  }

  // ----- subsets of a given size

  ghost function Subsets(s: set<nat>, k: nat): set<set<nat>> {
    set t | t <= s && |t| == k
  }

  ghost function WithElement(family: set<set<nat>>, x: nat): set<set<nat>> {
    set t | t in family :: t + {x}
  }

  lemma {:induction false} SubsetCount(s: set<nat>, k: nat)
    ensures |Subsets(s, k)| == Comb(|s|, k)
    decreases |s|
  {
    if k == 0 || s == {} {
      SubsetBase(s, k);
    } else {
      var x :| x in s;
      var rest := s - {x};
      SubsetCount(rest, k);
      SubsetCount(rest, k - 1);
      SubsetPascal(s, k, x);
    }
  }

  lemma SubsetBase(s: set<nat>, k: nat)
    requires k == 0 || s == {}
    ensures |Subsets(s, k)| == Comb(|s|, k)
  {
    if k == 0 {
      assert Subsets(s, 0) == {{}};
    } else {
      assert Subsets(s, k) == {};
    }
  }

  lemma SubsetPascal(s: set<nat>, k: nat, x: nat)
    requires x in s && k > 0
    ensures |Subsets(s, k)| == |Subsets(s - {x}, k)| + |Subsets(s - {x}, k - 1)|
  {
    SubsetSplit(s, k, x);
    AddingKeepsSize(Subsets(s - {x}, k - 1), x);
  }

  lemma SubsetSplit(s: set<nat>, k: nat, x: nat)
    requires x in s && k > 0
    ensures Subsets(s, k) == Subsets(s - {x}, k) + WithElement(Subsets(s - {x}, k - 1), x)
    ensures Subsets(s - {x}, k) !! WithElement(Subsets(s - {x}, k - 1), x)
  {
    forall t | t in Subsets(s, k) && x in t ensures t in WithElement(Subsets(s - {x}, k - 1), x) {
      assert t - {x} in Subsets(s - {x}, k - 1) && t == (t - {x}) + {x};
    }
  }

  lemma {:induction false} AddingKeepsSize(family: set<set<nat>>, x: nat)
    requires forall t :: t in family ==> x !in t
    ensures |WithElement(family, x)| == |family|
    decreases |family|
  {
    if family != {} {
      var u :| u in family;
      var rest := family - {u};
      AddingKeepsSize(rest, x);
      forall t | t in rest ensures t + {x} != u + {x} {
        assert t == (t + {x}) - {x} && u == (u + {x}) - {x};
      }
      assert WithElement(family, x) == WithElement(rest, x) + {u + {x}};
    }
  }

  // ----- expectation of f(S), S successes in n trials that succeed with p and fail with q = 1 - p

  /** The chance of one given order of s successes and n - s failures. */
  function Chance(n: nat, p: real, q: real, s: nat): real
    requires s <= n
  {
    Pow(p, s) * Pow(q, n - s)
  }

  function Weight(n: nat, p: real, q: real, s: nat): real {
    if s > n then 0.0 else Comb(n, s) as real * Chance(n, p, q, s)
  }

  /** The sum over s < m of t(s). */
  function SumTo(t: nat -> real, m: nat): real {
    if m == 0 then 0.0 else SumTo(t, m - 1) + t(m - 1)
  }

  function Weights(n: nat, p: real, q: real): nat -> real {
    (s: nat) => Weight(n, p, q, s)
  }

  function Weighted(w: nat -> real, f: nat -> real): nat -> real {
    (s: nat) => w(s) * f(s)
  }

  function Expectation(n: nat, p: real, q: real, f: nat -> real): real {
    SumTo(Weighted(Weights(n, p, q), f), n + 1)
  }

  /** f seen from one success further on. */
  function Shift(f: nat -> real): nat -> real {
    (s: nat) => f(s + 1)
  }

  /** The number of k-subsets, as a function of the number of successes. */
  function CombAt(k: nat): nat -> real {
    (s: nat) => Comb(s, k) as real
  }

  lemma WeightStart(n: nat, p: real, q: real)
    ensures Weight(n + 1, p, q, 0) == q * Weight(n, p, q, 0)
  {
    assert Pow(q, n + 1) == q * Pow(q, n);
  }

  lemma Regroup(a: real, b: real, c: real)
    ensures a * b * c == a * (b * c)
  {
  }

  lemma ChanceStep(n: nat, p: real, q: real, s: nat)
    requires 0 < s <= n
    ensures Chance(n + 1, p, q, s) == p * Chance(n, p, q, s - 1)
    ensures Chance(n + 1, p, q, s) == q * Chance(n, p, q, s)
  {
    Regroup(p, Pow(p, s - 1), Pow(q, n - s + 1));
    SwapFactor(Pow(p, s), q, Pow(q, n - s));
  }

  lemma SwapFactor(a: real, b: real, c: real)
    ensures a * (b * c) == b * (a * c)
  {
  }

  lemma MoveFactor(q: real, w: real, b: real, y: real, z: real)
    requires w == b * y && z == q * y
    ensures q * w == b * z
  {
    SwapFactor(q, b, y);
  }

  lemma WeightAfterSuccess(n: nat, p: real, q: real, s: nat)
    requires 0 < s <= n
    ensures p * Weight(n, p, q, s - 1) == Comb(n, s - 1) as real * Chance(n + 1, p, q, s)
  {
    ChanceStep(n, p, q, s);
    MoveFactor(p, Weight(n, p, q, s - 1), Comb(n, s - 1) as real, Chance(n, p, q, s - 1), Chance(n + 1, p, q, s));
  }

  lemma WeightAfterFailure(n: nat, p: real, q: real, s: nat)
    requires 0 < s <= n
    ensures q * Weight(n, p, q, s) == Comb(n, s) as real * Chance(n + 1, p, q, s)
  {
    ChanceStep(n, p, q, s);
    MoveFactor(q, Weight(n, p, q, s), Comb(n, s) as real, Chance(n, p, q, s), Chance(n + 1, p, q, s));
  }

  lemma WeightInner(n: nat, p: real, q: real, s: nat)
    requires 0 < s <= n
    ensures Weight(n + 1, p, q, s) == p * Weight(n, p, q, s - 1) + q * Weight(n, p, q, s)
  {
    WeightAfterSuccess(n, p, q, s);
    WeightAfterFailure(n, p, q, s);
    Distribute(Comb(n, s - 1) as real, Comb(n, s) as real, Chance(n + 1, p, q, s));
  }

  lemma Distribute(a: real, b: real, c: real)
    ensures (a + b) * c == a * c + b * c
  {
  }

  lemma WeightLast(n: nat, p: real, q: real)
    ensures Weight(n + 1, p, q, n + 1) == p * Weight(n, p, q, n)
  {
    CombSupport(n, n + 1);
    var c, x := Comb(n, n) as real, Pow(p, n);
    assert Comb(n + 1, n + 1) == Comb(n, n) && Pow(q, 0) == 1.0;
    assert Weight(n, p, q, n) == c * x;
    assert Weight(n + 1, p, q, n + 1) == c * (p * x);
  }

  lemma WeightStep(n: nat, p: real, q: real, s: nat)
    requires 0 < s <= n + 1
    ensures Weight(n + 1, p, q, s) == p * Weight(n, p, q, s - 1) + q * Weight(n, p, q, s)
  {
    if s <= n {
      WeightInner(n, p, q, s);
    } else {
      WeightLast(n, p, q);
    }
  }

  /** w' weighs one more trial than w: the last of them failed, or succeeded and made it s. */
  predicate Follows(w': nat -> real, w: nat -> real, p: real, q: real, s: nat) {
    w'(s) == if s == 0 then q * w(0) else p * w(s - 1) + q * w(s)
  }

  lemma WeightsFollow(n: nat, p: real, q: real, s: nat)
    requires s <= n + 1
    ensures Follows(Weights(n + 1, p, q), Weights(n, p, q), p, q, s)
  {
    if s == 0 {
      WeightStart(n, p, q);
    } else {
      WeightStep(n, p, q, s);
    }
  }

  lemma TermStep(w': nat -> real, w: nat -> real, f: nat -> real, p: real, q: real, s: nat)
    requires Follows(w', w, p, q, s)
    ensures s == 0 ==> Weighted(w', f)(0) == q * Weighted(w, f)(0)
    ensures s > 0 ==> Weighted(w', f)(s) == p * Weighted(w, Shift(f))(s - 1) + q * Weighted(w, f)(s)
  {
    if s == 0 {
      Regroup(q, w(0), f(0));
    } else {
      Distribute(p * w(s - 1), q * w(s), f(s));
      Regroup(p, w(s - 1), f(s));
      Regroup(q, w(s), f(s));
    }
  }

  lemma {:induction false} SumShift(w': nat -> real, w: nat -> real, f: nat -> real, p: real, q: real, m: nat)
    requires forall s: nat :: s <= m ==> Follows(w', w, p, q, s)
    ensures SumTo(Weighted(w', f), m + 1) == p * SumTo(Weighted(w, Shift(f)), m) + q * SumTo(Weighted(w, f), m + 1)
  {
    TermStep(w', w, f, p, q, m);
    if m > 0 {
      SumShift(w', w, f, p, q, m - 1);
    }
  }

  /** One more trial succeeds with probability p, independently of the first n. */
  lemma OneMoreTrial(n: nat, p: real, q: real, f: nat -> real)
    ensures Expectation(n + 1, p, q, f) == p * Expectation(n, p, q, Shift(f)) + q * Expectation(n, p, q, f)
  {
    var w', w := Weights(n + 1, p, q), Weights(n, p, q);
    forall s: nat | s <= n + 1 ensures Follows(w', w, p, q, s) {
      WeightsFollow(n, p, q, s);
    }
    SumShift(w', w, f, p, q, n + 1);
    LastTermZero(n, p, q, f);
  }

  lemma LastTermZero(n: nat, p: real, q: real, f: nat -> real)
    ensures SumTo(Weighted(Weights(n, p, q), f), n + 2) == Expectation(n, p, q, f)
  {
  }

  /** The mean of f over the tree of n independent trials: the first succeeds with p or fails with q. */
  function TreeMean(n: nat, p: real, q: real, f: nat -> real): real {
    if n == 0 then f(0) else p * TreeMean(n - 1, p, q, Shift(f)) + q * TreeMean(n - 1, p, q, f)
  }

  /** The binomial sum is the mean over the tree of trials. */
  lemma {:induction false} ExpectationIsTreeMean(n: nat, p: real, q: real, f: nat -> real)
    ensures Expectation(n, p, q, f) == TreeMean(n, p, q, f)
  {
    if n == 0 {
      assert SumTo(Weighted(Weights(0, p, q), f), 1) == f(0);
    } else {
      OneMoreTrial(n - 1, p, q, f);
      ExpectationIsTreeMean(n - 1, p, q, Shift(f));
      ExpectationIsTreeMean(n - 1, p, q, f);
    }
  }

  lemma {:induction false} TreeMeanAdd(n: nat, p: real, q: real, f: nat -> real, g: nat -> real, h: nat -> real)
    requires forall s: nat :: h(s) == f(s) + g(s)
    ensures TreeMean(n, p, q, h) == TreeMean(n, p, q, f) + TreeMean(n, p, q, g)
  {
    if n > 0 {
      TreeMeanAdd(n - 1, p, q, Shift(f), Shift(g), Shift(h));
      TreeMeanAdd(n - 1, p, q, f, g, h);
    }
  }

  lemma {:induction false} TreeMeanScale(n: nat, p: real, q: real, c: real, f: nat -> real, h: nat -> real)
    requires forall s: nat :: s <= n ==> h(s) == c * f(s)
    ensures TreeMean(n, p, q, h) == c * TreeMean(n, p, q, f)
  {
    if n > 0 {
      TreeMeanScale(n - 1, p, q, c, Shift(f), Shift(h));
      TreeMeanScale(n - 1, p, q, c, f, h);
      ScaleAlgebra(p, q, c, TreeMean(n - 1, p, q, Shift(f)), TreeMean(n - 1, p, q, f));
    }
  }

  lemma ScaleAlgebra(p: real, q: real, c: real, x: real, y: real)
    ensures p * (c * x) + q * (c * y) == c * (p * x + q * y)
  {
    assert p * (c * x) == c * (p * x) && q * (c * y) == c * (q * y);
  }

  /** The expected number of k-subsets of the successes, as a function of n and k. */
  function MeanSubsets(p: real, q: real): (nat, nat) -> real {
    (n: nat, k: nat) => TreeMean(n, p, q, CombAt(k))
  }

  /** The entry of e at n and k follows from the row above it: the last trial fails, or it
      succeeds and each k-subset of successes has it or not. */
  predicate PascalEntry(e: (nat, nat) -> real, p: real, q: real, n: nat, k: nat) {
    e(n, k) ==
      if n == 0 then (if k == 0 then 1.0 else 0.0)
      else if k == 0 then p * e(n - 1, 0) + q * e(n - 1, 0)
      else p * (e(n - 1, k - 1) + e(n - 1, k)) + q * e(n - 1, k)
  }

  ghost predicate Pascal(e: (nat, nat) -> real, p: real, q: real) {
    forall n: nat, k: nat :: PascalEntry(e, p, q, n, k)
  }

  lemma ShiftedSubsets(n: nat, p: real, q: real, k: nat)
    ensures TreeMean(n, p, q, Shift(CombAt(k)))
            == (if k == 0 then 0.0 else TreeMean(n, p, q, CombAt(k - 1))) + TreeMean(n, p, q, CombAt(k))
  {
    if k == 0 {
      TreeMeanScale(n, p, q, 1.0, CombAt(0), Shift(CombAt(0)));
    } else {
      TreeMeanAdd(n, p, q, CombAt(k - 1), CombAt(k), Shift(CombAt(k)));
    }
  }

  lemma MeanSubsetsEntry(n: nat, p: real, q: real, k: nat)
    ensures PascalEntry(MeanSubsets(p, q), p, q, n, k)
  {
    if n > 0 {
      ShiftedSubsets(n - 1, p, q, k);
    }
  }

  /** C(n,k) p^k, the closed form. */
  function ClosedForm(p: real): (nat, nat) -> real {
    (n: nat, k: nat) => Comb(n, k) as real * Pow(p, k)
  }

  lemma ClosedFormEntry(n: nat, p: real, q: real, k: nat)
    requires p + q == 1.0
    ensures PascalEntry(ClosedForm(p), p, q, n, k)
  {
    if n > 0 && k > 0 {
      PascalAlgebra(p, q, Comb(n - 1, k - 1) as real, Comb(n - 1, k) as real, Pow(p, k - 1), Pow(p, k));
    }
  }

  lemma PascalAlgebra(p: real, q: real, a: real, b: real, x: real, y: real)
    requires p + q == 1.0 && y == p * x
    ensures (a + b) * y == p * (a * x + b * y) + q * (b * y)
  {
    var u, v := a * x, b * y;
    assert a * y == p * u;
    assert p * (u + v) + q * v == p * u + (p + q) * v;
  }

  lemma MeanSubsetsPascal(p: real, q: real)
    ensures Pascal(MeanSubsets(p, q), p, q)
  {
    forall n: nat, k: nat ensures PascalEntry(MeanSubsets(p, q), p, q, n, k) {
      MeanSubsetsEntry(n, p, q, k);
    }
  }

  lemma ClosedFormPascal(p: real, q: real)
    requires p + q == 1.0
    ensures Pascal(ClosedForm(p), p, q)
  {
    forall n: nat, k: nat ensures PascalEntry(ClosedForm(p), p, q, n, k) {
      ClosedFormEntry(n, p, q, k);
    }
  }

  /** Pascal's rule from the first row leaves no choice. */
  lemma {:induction false} PascalUnique(e: (nat, nat) -> real, f: (nat, nat) -> real, p: real, q: real, n: nat, k: nat)
    requires Pascal(e, p, q) && Pascal(f, p, q)
    ensures e(n, k) == f(n, k)
    decreases n
  {
    assert PascalEntry(e, p, q, n, k) && PascalEntry(f, p, q, n, k);
    if n > 0 {
      PascalUnique(e, f, p, q, n - 1, k);
      if k > 0 {
        PascalUnique(e, f, p, q, n - 1, k - 1);
      }
    }
  }

  lemma MeanSubsetsClosed(n: nat, p: real, q: real, k: nat)
    requires p + q == 1.0
    ensures MeanSubsets(p, q)(n, k) == ClosedForm(p)(n, k)
  {
    MeanSubsetsPascal(p, q);
    ClosedFormPascal(p, q);
    PascalUnique(MeanSubsets(p, q), ClosedForm(p), p, q, n, k);
  }

  /** The expected number of k-subsets of the successes is C(n,k) p^k. */
  lemma ExpectedComb(n: nat, p: real, q: real, k: nat)
    requires p + q == 1.0
    ensures Expectation(n, p, q, CombAt(k)) == ClosedForm(p)(n, k)
  {
    MeanSubsetsClosed(n, p, q, k);
    ExpectationIsTreeMean(n, p, q, CombAt(k));
  }
}
