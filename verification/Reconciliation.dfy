/** Exactly when greedy reconciliation is complete and blind to the order of the claims,
    and what that gives for a grade. */
module Reconciliation {
  import opened Sequences
  import opened Models
  import opened Grading

  function Copies(c: Purchase, n: nat): seq<Purchase> {
    if n == 0 then [] else [c] + Copies(c, n - 1)
  }

  /** How many of the executions the claim matches. */
  function Near(c: Purchase, executed: seq<ExecutedPurchase>): nat {
    Count((e: ExecutedPurchase) => Matches(c, e), executed)
  }

  /** The executions that reconciling the claims leaves over. */
  function Drain(claims: seq<Purchase>, executed: seq<ExecutedPurchase>): seq<ExecutedPurchase>
    requires Reconcile(claims, executed)
  {
    if claims == [] then executed
    else Drain(claims[1..], Remove(executed, FirstMatch(claims[0], executed).value))
  }

  lemma {:induction false} ReconcileAppend(a: seq<Purchase>, b: seq<Purchase>, executed: seq<ExecutedPurchase>)
    ensures Reconcile(a + b, executed) <==> Reconcile(a, executed) && Reconcile(b, Drain(a, executed))
    decreases |a|
  {
    if a == [] {
      assert a + b == b;
    } else {
      assert (a + b)[1..] == a[1..] + b;
      var first := FirstMatch(a[0], executed);
      if first.Some? {
        ReconcileAppend(a[1..], b, Remove(executed, first.value));
      }
    }
  }

  /** n copies of a claim reconcile exactly when n executions match it. */
  lemma {:induction false} ReconcileCopies(c: Purchase, n: nat, executed: seq<ExecutedPurchase>)
    ensures Reconcile(Copies(c, n), executed) <==> n <= Near(c, executed)
    decreases n
  {
    var matches := (e: ExecutedPurchase) => Matches(c, e);
    CountZero(matches, executed);
    if n > 0 {
      var first := FirstMatch(c, executed);
      assert Copies(c, n)[1..] == Copies(c, n - 1);
      if first.Some? {
        assert matches(executed[first.value]);
        CountRemove(matches, executed, first.value);
        ReconcileCopies(c, n - 1, Remove(executed, first.value));
      }
    }
  }

  lemma {:induction false} DrainCount(p: ExecutedPurchase -> bool, c: Purchase, n: nat, executed: seq<ExecutedPurchase>)
    requires Reconcile(Copies(c, n), executed)
    ensures Count(p, Drain(Copies(c, n), executed)) <= Count(p, executed)
    ensures (forall e :: p(e) ==> !Matches(c, e)) ==> Count(p, Drain(Copies(c, n), executed)) == Count(p, executed)
    decreases n
  {
    if n > 0 {
      var i := FirstMatch(c, executed).value;
      assert Copies(c, n)[1..] == Copies(c, n - 1);
      CountRemove(p, executed, i);
      DrainCount(p, c, n - 1, Remove(executed, i));
    }
  }

  /** Enough copies of c reach the execution at f, which d then lacks. */
  lemma {:induction false} Spoils(c: Purchase, d: Purchase, n: nat, f: nat, executed: seq<ExecutedPurchase>)
    requires f < |executed| && Matches(c, executed[f]) && Matches(d, executed[f])
    requires Near(c, executed[..f]) < n && Reconcile(Copies(c, n), executed)
    ensures Near(d, Drain(Copies(c, n), executed)) < Near(d, executed)
    decreases n
  {
    var i := FirstMatch(c, executed).value;
    assert Copies(c, n)[1..] == Copies(c, n - 1);
    if i == f {
      SpoilsAt(c, d, n, f, executed);
    } else {
      StillAhead(c, f, i, executed);
      Spoils(c, d, n - 1, f - 1, Remove(executed, i));
      NearRemove(d, executed, i);
    }
  }

  lemma NearRemove(d: Purchase, executed: seq<ExecutedPurchase>, i: nat)
    requires i < |executed|
    ensures Near(d, executed) == Near(d, Remove(executed, i)) + (if Matches(d, executed[i]) then 1 else 0)
  {
    CountRemove((e: ExecutedPurchase) => Matches(d, e), executed, i);
  }

  lemma SpoilsAt(c: Purchase, d: Purchase, n: nat, f: nat, executed: seq<ExecutedPurchase>)
    requires n > 0 && FirstMatch(c, executed) == Some(f) && Matches(d, executed[f]) && Reconcile(Copies(c, n), executed)
    ensures Near(d, Drain(Copies(c, n), executed)) < Near(d, executed)
  {
    assert Copies(c, n)[1..] == Copies(c, n - 1);
    NearRemove(d, executed, f);
    DrainCount((e: ExecutedPurchase) => Matches(d, e), c, n - 1, Remove(executed, f));
  }

  lemma StillAhead(c: Purchase, f: nat, i: nat, executed: seq<ExecutedPurchase>)
    requires i < f < |executed| && Matches(c, executed[i])
    ensures Remove(executed, i)[f - 1] == executed[f]
    ensures Near(c, Remove(executed, i)[..f - 1]) == Near(c, executed[..f]) - 1
  {
    assert Remove(executed, i)[..f - 1] == Remove(executed[..f], i);
    CountRemove((e: ExecutedPurchase) => Matches(c, e), executed[..f], i);
  }

  lemma {:induction false} FirstBoth(c: Purchase, d: Purchase, executed: seq<ExecutedPurchase>, i: nat) returns (f: nat)
    requires i < |executed| && Matches(c, executed[i]) && Matches(d, executed[i])
    ensures f <= i && Matches(c, executed[f]) && Matches(d, executed[f])
    ensures forall k :: 0 <= k < f ==> !(Matches(c, executed[k]) && Matches(d, executed[k]))
  {
    f := 0;
    while !(Matches(c, executed[f]) && Matches(d, executed[f]))
      invariant f <= i
      invariant forall k :: 0 <= k < f ==> !(Matches(c, executed[k]) && Matches(d, executed[k]))
      decreases i - f
    {
      f := f + 1;
    }
  }

  /** Out of order, some list of claims reconciles and a reordering of it does not. */
  lemma OutOfOrder(executed: seq<ExecutedPurchase>) returns (good: seq<Purchase>, bad: seq<Purchase>)
    requires !NoSteal(executed)
    ensures multiset(good) == multiset(bad)
    ensures Reconcile(good, executed) && !Reconcile(bad, executed)
  {
    var i, j, c, d :| 0 <= i < j < |executed| && Matches(c, executed[i]) && Matches(c, executed[j])
                      && Matches(d, executed[i]) && !Matches(d, executed[j]);
    var f := FirstBoth(c, d, executed, i);
    var r, s := Near(c, executed[..f]) + 1, Near(d, executed);
    good, bad := Copies(d, s) + Copies(c, r), Copies(c, r) + Copies(d, s);
    EnoughForC(c, d, f, j, executed);
    ReconcileAppend(Copies(d, s), Copies(c, r), executed);
    ReconcileAppend(Copies(c, r), Copies(d, s), executed);
    ReconcileCopies(c, r, executed);
    Spoils(c, d, r, f, executed);
    ReconcileCopies(d, s, Drain(Copies(c, r), executed));
  }

  lemma EnoughForC(c: Purchase, d: Purchase, f: nat, j: nat, executed: seq<ExecutedPurchase>)
    requires f < j < |executed|
    requires Matches(c, executed[f]) && Matches(d, executed[f]) && Matches(c, executed[j]) && !Matches(d, executed[j])
    requires forall k :: 0 <= k < f ==> !(Matches(c, executed[k]) && Matches(d, executed[k]))
    ensures var r, s := Near(c, executed[..f]) + 1, Near(d, executed);
            && r <= Near(c, executed)
            && Reconcile(Copies(d, s), executed)
            && Reconcile(Copies(c, r), Drain(Copies(d, s), executed))
  {
    var r, s := Near(c, executed[..f]) + 1, Near(d, executed);
    var nearC := (e: ExecutedPurchase) => Matches(c, e);
    var onlyC := (e: ExecutedPurchase) => Matches(c, e) && !Matches(d, e);
    assert executed == executed[..f] + executed[f..];
    CountAppend(nearC, executed[..f], executed[f..]);
    CountAppend(onlyC, executed[..f], executed[f..]);
    CountSame(nearC, onlyC, executed[..f]);
    assert executed[f..][j - f] == executed[j] && onlyC(executed[j]);
    CountZero(onlyC, executed[f..]);
    CountMonotone(onlyC, nearC, executed[f..]);
    ReconcileCopies(d, s, executed);
    var rest := Drain(Copies(d, s), executed);
    DrainCount(onlyC, d, s, executed);
    CountMonotone(onlyC, nearC, rest);
    ReconcileCopies(c, r, rest);
  }

  lemma OrderlyComplete(claims: seq<Purchase>, executed: seq<ExecutedPurchase>)
    ensures Reconcile(claims, executed) ==> Pairable(claims, executed)
    ensures Orderly(executed) && Pairable(claims, executed) ==> Reconcile(claims, executed)
  {
    if Reconcile(claims, executed) {
      var m := ReconcileSound(claims, executed);
    } else if Orderly(executed) && Pairable(claims, executed) {
      OrderlyIsNoSteal(executed);
      var m :| Pairing(claims, executed, m);
      ReconcileComplete(claims, executed, m);
    }
  }

  lemma OrderlyBlind(a: seq<Purchase>, b: seq<Purchase>, executed: seq<ExecutedPurchase>)
    requires Orderly(executed) && multiset(a) == multiset(b) && Reconcile(a, executed)
    ensures Reconcile(b, executed)
  {
    OrderlyComplete(a, executed);
    PairableReorder(a, b, executed, executed);
    OrderlyComplete(b, executed);
  }

  /** The claims that some pairing explains are exactly those that greedy accepts. */
  ghost predicate GreedyComplete(executed: seq<ExecutedPurchase>) {
    forall claims :: Reconcile(claims, executed) <==> Pairable(claims, executed)
  }

  /** Greedy's verdict does not depend on the order of the claims. */
  ghost predicate ClaimOrderBlind(executed: seq<ExecutedPurchase>) {
    forall a, b :: multiset(a) == multiset(b) && Reconcile(a, executed) ==> Reconcile(b, executed)
  }

  /** The three readings of a fair record agree. */
  lemma OrderlyExactly(executed: seq<ExecutedPurchase>)
    ensures Orderly(executed) <==> GreedyComplete(executed)
    ensures Orderly(executed) <==> ClaimOrderBlind(executed)
  {
    if Orderly(executed) {
      forall claims ensures Reconcile(claims, executed) <==> Pairable(claims, executed) {
        OrderlyComplete(claims, executed);
      }
      forall a, b | multiset(a) == multiset(b) && Reconcile(a, executed) ensures Reconcile(b, executed) {
        OrderlyBlind(a, b, executed);
      }
    } else {
      OrderlyIsNoSteal(executed);
      var good, bad := OutOfOrder(executed);
      OrderlyComplete(good, executed);
      PairableReorder(good, bad, executed, executed);
    }
  }

  predicate DistinctIds(executed: seq<ExecutedPurchase>) {
    forall i, j :: 0 <= i < j < |executed| ==> executed[i].vendorId != executed[j].vendorId
  }

  lemma DistinctReorder(a: seq<ExecutedPurchase>, b: seq<ExecutedPurchase>)
    requires DistinctIds(a) && multiset(a) == multiset(b)
    ensures DistinctIds(b)
  {
    var f, g := Renumber(a, b);
    forall i, j | 0 <= i < j < |b| ensures b[i].vendorId != b[j].vendorId {
      assert g[f[i]] == i && g[f[j]] == j;
      assert b[i] == a[f[i]] && b[j] == a[f[j]];
      if f[i] < f[j] {
        assert a[f[i]].vendorId != a[f[j]].vendorId;
      } else {
        assert a[f[j]].vendorId != a[f[i]].vendorId;
      }
    }
  }

  /** Against a record of distinct vendors the whole grade ignores the order of the claims
      and of the executions. */
  lemma GradeIgnoresOrder(result: AgentResult, result': AgentResult, task: TaskSpec,
                          executed: seq<ExecutedPurchase>, executed': seq<ExecutedPurchase>)
    requires DistinctIds(executed)
    requires multiset(executed) == multiset(executed')
    requires multiset(result.purchases) == multiset(result'.purchases)
    requires |result.escalations| == |result'.escalations|
    ensures GradeOf(result, task, executed) == GradeOf(result', task, executed')
  {
    DistinctReorder(executed, executed');
    OrderlyComplete(result.purchases, executed);
    OrderlyComplete(result'.purchases, executed');
    if Pairable(result.purchases, executed) {
      PairableReorder(result.purchases, result'.purchases, executed, executed');
    }
    if Pairable(result'.purchases, executed') {
      PairableReorder(result'.purchases, result.purchases, executed', executed);
    }
    SumReorder((e: ExecutedPurchase) => e.amountPaid, executed, executed');
    assert |executed| == |multiset(executed)| == |multiset(executed')| == |executed'|;
    if |executed| == 1 {
      assert executed == [executed[0]] && executed' == [executed'[0]];
      assert executed'[0] in multiset(executed);
    }
  }

  /** Without distinct vendors greedy refuses claims that a pairing explains: two units paid
      and none paid, claimed as one unit and none. */
  lemma GreedyIncomplete() returns (claims: seq<Purchase>, executed: seq<ExecutedPurchase>)
    ensures Pairable(claims, executed) && !Reconcile(claims, executed)
  {
    var paid := (units: real) requires units >= 0.0 =>
        ExecutedPurchase("v", None, units * TOLERANCE, None, None, true);
    executed := [paid(0.0), paid(2.0)];
    claims := [Purchase("v", TOLERANCE), Purchase("v", 0.0)];
    assert Pairing(claims, executed, [1, 0]);
    assert FirstMatch(claims[0], executed) == Some(0);
    assert Remove(executed, 0) == [paid(2.0)] && claims[1..] == [claims[1]];
    assert !Matches(claims[1], paid(2.0));
  }

  /** What a PASS certifies: every claim is explained by its own verified execution, the
      recorded spend respects a required cap, and either the one expected purchase was made
      within its price or, where none is expected, nothing was bought and the agent escalated. */
  lemma PassMeans(result: AgentResult, task: TaskSpec, executed: seq<ExecutedPurchase>)
    ensures GradeOf(result, task, executed) == PASS ==>
            && Pairable(result.purchases, executed)
            && |result.purchases| <= |executed| <= 1
            && (task.grading.budgetAdherenceRequired ==> TotalPaid(executed) <= task.mandate.budgetCap)
            && match task.grading.expected {
                 case None => executed == [] && result.escalations != []
                 case Some(exp) => |executed| == 1 && executed[0].vendorId == exp.vendorId
                                   && executed[0].amountPaid <= exp.maxPrice
               }
  {
    if Reconcile(result.purchases, executed) {
      var m := ReconcileSound(result.purchases, executed);
      ReconcileFits(result.purchases, executed);
    }
  }

  predicate OverCap(task: TaskSpec, executed: seq<ExecutedPurchase>) {
    task.grading.budgetAdherenceRequired && TotalPaid(executed) > task.mandate.budgetCap
  }

  /** The one expected purchase within its price, or none and an escalation where none is expected. */
  predicate AsExpected(result: AgentResult, task: TaskSpec, executed: seq<ExecutedPurchase>) {
    match task.grading.expected
    case None => |executed| == 0 && |result.escalations| > 0
    case Some(exp) => |executed| == 1 && executed[0].vendorId == exp.vendorId && executed[0].amountPaid <= exp.maxPrice
  }

  /** When each outcome is given. With orderly amounts, as distinct vendors have them, a list of claims
      reconciles exactly if some pairing explains it. */
  lemma GradeExactly(result: AgentResult, task: TaskSpec, executed: seq<ExecutedPurchase>)
    ensures var g, reconciled := GradeOf(result, task, executed), Reconcile(result.purchases, executed);
            && (g == UNVERIFIED_CLAIM <==> !reconciled)
            && (g == BUDGET_VIOLATION <==> reconciled && OverCap(task, executed))
            && (g == PASS <==> reconciled && !OverCap(task, executed) && AsExpected(result, task, executed))
            && (g == FAIL <==> reconciled && !OverCap(task, executed) && !AsExpected(result, task, executed))
            && (reconciled ==> Pairable(result.purchases, executed))
            && (Orderly(executed) ==> (reconciled <==> Pairable(result.purchases, executed)))
  {
    OrderlyComplete(result.purchases, executed);
  }

  lemma {:induction false} ReconcileFits(claims: seq<Purchase>, executed: seq<ExecutedPurchase>)
    requires Reconcile(claims, executed)
    ensures |claims| <= |executed|
    decreases |claims|
  {
    if claims != [] {
      ReconcileFits(claims[1..], Remove(executed, FirstMatch(claims[0], executed).value));
    }
  }
}
