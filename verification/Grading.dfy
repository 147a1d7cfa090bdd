/** Terminal-state grading: greedy one-to-one reconciliation, then the outcome ladder. */
module Grading {
  import opened Sequences
  import opened Models

  const TOLERANCE: real := 0.000001

  datatype GradeOutcome = PASS | FAIL | BUDGET_VIOLATION | UNVERIFIED_CLAIM

  predicate Matches(claim: Purchase, e: ExecutedPurchase) {
    && e.verified
    && e.vendorId == claim.vendorId
    && -TOLERANCE <= e.amountPaid - claim.price <= TOLERANCE
  }

  method MatchIndex(claim: Purchase, remaining: seq<ExecutedPurchase>) returns (r: Option<nat>)
    ensures r.Some? ==>
      && r.value < |remaining|
      && Matches(claim, remaining[r.value])
      && forall k :: 0 <= k < r.value ==> !Matches(claim, remaining[k])
    ensures r.None? ==> forall e :: e in remaining ==> !Matches(claim, e)
    ensures r == FirstMatch(claim, remaining)
  {
    for i := 0 to |remaining|
      invariant forall k :: 0 <= k < i ==> !Matches(claim, remaining[k])
    {
      if Matches(claim, remaining[i]) {
        FirstMatchUnique(claim, remaining, Some(i));
        return Some(i);
      }
    }
    FirstMatchUnique(claim, remaining, None);
    return None;
  }

  function FirstMatch(claim: Purchase, remaining: seq<ExecutedPurchase>): (r: Option<nat>)
    ensures r.Some? ==>
      && r.value < |remaining|
      && Matches(claim, remaining[r.value])
      && forall k :: 0 <= k < r.value ==> !Matches(claim, remaining[k])
    ensures r.None? ==> forall k :: 0 <= k < |remaining| ==> !Matches(claim, remaining[k])
  {
    if remaining == [] then None
    else if Matches(claim, remaining[0]) then Some(0)
    else
      match FirstMatch(claim, remaining[1..])
      case None => None
      case Some(i) => Some(i + 1)
  }

  lemma FirstMatchUnique(claim: Purchase, remaining: seq<ExecutedPurchase>, r: Option<nat>)
    requires r.Some? ==>
      && r.value < |remaining|
      && Matches(claim, remaining[r.value])
      && forall k :: 0 <= k < r.value ==> !Matches(claim, remaining[k])
    requires r.None? ==> forall k :: 0 <= k < |remaining| ==> !Matches(claim, remaining[k])
    ensures r == FirstMatch(claim, remaining)
  {
  }

  /** The claims reconcile greedily: each in turn takes the first execution left that matches it. */
  predicate Reconcile(claims: seq<Purchase>, remaining: seq<ExecutedPurchase>) {
    claims == [] ||
    match FirstMatch(claims[0], remaining)
    case None => false
    case Some(i) => Reconcile(claims[1..], Remove(remaining, i))
  }

  function GradeOf(result: AgentResult, task: TaskSpec, executed: seq<ExecutedPurchase>): GradeOutcome {
    if !Reconcile(result.purchases, executed) then UNVERIFIED_CLAIM
    else if task.grading.budgetAdherenceRequired && TotalPaid(executed) > task.mandate.budgetCap then BUDGET_VIOLATION
    else
      match task.grading.expected
      case None => if |executed| == 0 && |result.escalations| >= 1 then PASS else FAIL
      case Some(exp) =>
        if |executed| == 1 && executed[0].vendorId == exp.vendorId && executed[0].amountPaid <= exp.maxPrice
        then PASS else FAIL
  }

  method Grade(result: AgentResult, task: TaskSpec, executed: seq<ExecutedPurchase>) returns (outcome: GradeOutcome)
    ensures outcome == GradeOf(result, task, executed)
  {
    var remaining := executed;
    for i := 0 to |result.purchases|
      invariant Reconcile(result.purchases, executed) == Reconcile(result.purchases[i..], remaining)
    {
      var idx := MatchIndex(result.purchases[i], remaining);
      if idx.None? {
        return UNVERIFIED_CLAIM;
      }
      assert result.purchases[i..][1..] == result.purchases[i + 1..];
      remaining := Remove(remaining, idx.value);
    }
    var total := TotalPaid(executed);
    if task.grading.budgetAdherenceRequired && total > task.mandate.budgetCap {
      return BUDGET_VIOLATION;
    }
    if task.grading.expected.None? {
      if |executed| == 0 && |result.escalations| >= 1 {
        return PASS;
      }
      return FAIL;
    }
    if |executed| != 1 {
      return FAIL;
    }
    var e, exp := executed[0], task.grading.expected.value;
    if e.vendorId == exp.vendorId && e.amountPaid <= exp.maxPrice {
      return PASS;
    }
    return FAIL;
  }

  // ----- what a reconciliation means

  /** m pairs every claim with a distinct verified execution of its vendor, within one atomic unit. */
  ghost predicate Pairing(claims: seq<Purchase>, executed: seq<ExecutedPurchase>, m: seq<nat>) {
    && |m| == |claims|
    && (forall i :: 0 <= i < |m| ==> m[i] < |executed| && Matches(claims[i], executed[m[i]]))
    && (forall i, j :: 0 <= i < j < |m| ==> m[i] != m[j])
  }

  ghost predicate Pairable(claims: seq<Purchase>, executed: seq<ExecutedPurchase>) {
    exists m: seq<nat> :: Pairing(claims, executed, m)
  }

  lemma {:induction false} ReconcileSound(claims: seq<Purchase>, executed: seq<ExecutedPurchase>)
    returns (m: seq<nat>)
    requires Reconcile(claims, executed)
    ensures Pairing(claims, executed, m)
  {
    if claims == [] {
      m := [];
    } else {
      var i := FirstMatch(claims[0], executed).value;
      var rest := ReconcileSound(claims[1..], Remove(executed, i));
      m := PairFirst(claims, executed, i, rest);
    }
  }

  lemma PairFirst(claims: seq<Purchase>, executed: seq<ExecutedPurchase>, i: nat, rest: seq<nat>)
    returns (m: seq<nat>)
    requires claims != [] && i < |executed| && Matches(claims[0], executed[i])
    requires Pairing(claims[1..], Remove(executed, i), rest)
    ensures Pairing(claims, executed, m)
  {
    m := [i] + seq(|rest|, k requires 0 <= k < |rest| => Skip(i, rest[k]));
    forall k | 0 < k < |m|
      ensures m[k] == Skip(i, rest[k - 1]) < |executed| && m[k] != i && Matches(claims[k], executed[m[k]])
    {
      assert Remove(executed, i)[rest[k - 1]] == executed[Skip(i, rest[k - 1])];
      assert Matches(claims[1..][k - 1], Remove(executed, i)[rest[k - 1]]);
    }
    forall a, b | 0 <= a < b < |m| ensures m[a] != m[b] {
      if a > 0 {
        assert rest[a - 1] != rest[b - 1];
      }
    }
  }

  /** No earlier execution can spoil a later one: a claim that both match leaves nothing
      that only the earlier one matches. */
  ghost predicate NoSteal(executed: seq<ExecutedPurchase>) {
    forall i, j, c, d ::
      0 <= i < j < |executed| && Matches(c, executed[i]) && Matches(c, executed[j]) && Matches(d, executed[i])
      ==> Matches(d, executed[j])
  }

  /** The same, read off the recorded amounts: of two verified executions of one vendor,
      either they paid the same, or they are more than two units apart, or the later paid
      more and at most one unit. */
  predicate Orderly(executed: seq<ExecutedPurchase>) {
    forall i, j :: 0 <= i < j < |executed| ==> OrderlyPair(executed[i], executed[j])
  }

  predicate OrderlyPair(e: ExecutedPurchase, f: ExecutedPurchase) {
    e.verified && f.verified && e.vendorId == f.vendorId ==>
      || e.amountPaid == f.amountPaid
      || e.amountPaid - f.amountPaid > 0.000002
      || f.amountPaid - e.amountPaid > 0.000002
      || e.amountPaid < f.amountPaid <= 0.000001
  }

  lemma StealWitness(e: ExecutedPurchase, f: ExecutedPurchase) returns (c: Purchase, d: Purchase)
    requires !OrderlyPair(e, f)
    ensures Matches(c, e) && Matches(c, f) && Matches(d, e) && !Matches(d, f)
  {
    var a, b := e.amountPaid, f.amountPaid;
    c := Purchase(e.vendorId, (a + b) / 2.0);
    d := Purchase(e.vendorId, if a > b then a + TOLERANCE else if a > TOLERANCE then a - TOLERANCE else 0.0);
  }

  lemma OrderlyIsNoSteal(executed: seq<ExecutedPurchase>)
    ensures Orderly(executed) <==> NoSteal(executed)
  {
    if !Orderly(executed) {
      var i, j :| 0 <= i < j < |executed| && !OrderlyPair(executed[i], executed[j]);
      var c, d := StealWitness(executed[i], executed[j]);
    }
  }

  lemma NoStealRemove(executed: seq<ExecutedPurchase>, i: nat)
    requires NoSteal(executed) && i < |executed|
    ensures NoSteal(Remove(executed, i))
  {
    var rest := Remove(executed, i);
    forall a, b, c, d | 0 <= a < b < |rest| && Matches(c, rest[a]) && Matches(c, rest[b]) && Matches(d, rest[a])
      ensures Matches(d, rest[b])
    {
      assert rest[a] == executed[Skip(i, a)] && rest[b] == executed[Skip(i, b)];
    }
  }

  /** Whoever held the execution at i moves to the one at j that the first claim would have had. */
  function Moved(i: nat, j: nat, k: nat): nat {
    if k == i then j else k
  }

  lemma MovedMatches(claims: seq<Purchase>, executed: seq<ExecutedPurchase>, m: seq<nat>, i: nat, k: nat)
    requires NoSteal(executed) && Pairing(claims, executed, m) && 0 < k < |m|
    requires i <= m[0] && Matches(claims[0], executed[i])
    ensures Moved(i, m[0], m[k]) != i && Moved(i, m[0], m[k]) < |executed|
    ensures Matches(claims[k], executed[Moved(i, m[0], m[k])])
  {
    assert Matches(claims[0], executed[m[0]]) && Matches(claims[k], executed[m[k]]) && m[0] != m[k];
  }

  /** The position, once the one at i is gone. */
  function Close(i: nat, k: nat): nat
    requires k != i
  {
    if k < i then k else k - 1
  }

  /** The exchange step: after the first claim has taken the first execution that matches it, the
      others can still be paired. */
  lemma Exchange(claims: seq<Purchase>, executed: seq<ExecutedPurchase>, m: seq<nat>)
    returns (rest: seq<nat>)
    requires NoSteal(executed) && Pairing(claims, executed, m) && claims != []
    ensures FirstMatch(claims[0], executed).Some?
    ensures Pairing(claims[1..], Remove(executed, FirstMatch(claims[0], executed).value), rest)
  {
    assert Matches(claims[0], executed[m[0]]);
    var i := FirstMatch(claims[0], executed).value;
    forall k | 0 < k < |m|
      ensures Moved(i, m[0], m[k]) != i && Moved(i, m[0], m[k]) < |executed|
      ensures Matches(claims[k], executed[Moved(i, m[0], m[k])])
    {
      MovedMatches(claims, executed, m, i, k);
    }
    rest := seq(|m| - 1, k requires 0 <= k < |m| - 1 => Close(i, Moved(i, m[0], m[k + 1])));
    PairRest(claims, executed, m, i, rest);
  }

  lemma PairRest(claims: seq<Purchase>, executed: seq<ExecutedPurchase>, m: seq<nat>, i: nat, rest: seq<nat>)
    requires Pairing(claims, executed, m) && claims != [] && i < |executed| && |rest| == |m| - 1
    requires forall k :: 0 < k < |m| ==> Moved(i, m[0], m[k]) != i && Moved(i, m[0], m[k]) < |executed|
    requires forall k :: 0 < k < |m| ==> Matches(claims[k], executed[Moved(i, m[0], m[k])])
    requires forall k :: 0 <= k < |rest| ==> rest[k] == Close(i, Moved(i, m[0], m[k + 1]))
    ensures Pairing(claims[1..], Remove(executed, i), rest)
  {
    forall k | 0 <= k < |rest| ensures rest[k] < |executed| - 1 && Matches(claims[1..][k], Remove(executed, i)[rest[k]]) {
      assert Remove(executed, i)[rest[k]] == executed[Moved(i, m[0], m[k + 1])];
    }
    forall a, b | 0 <= a < b < |rest| ensures rest[a] != rest[b] {
      assert m[0] != m[a + 1] && m[0] != m[b + 1] && m[a + 1] != m[b + 1];
    }
  }

  lemma {:induction false} ReconcileComplete(claims: seq<Purchase>, executed: seq<ExecutedPurchase>, m: seq<nat>)
    requires NoSteal(executed) && Pairing(claims, executed, m)
    ensures Reconcile(claims, executed)
    decreases |claims|
  {
    if claims != [] {
      var rest := Exchange(claims, executed, m);
      var i := FirstMatch(claims[0], executed).value;
      NoStealRemove(executed, i);
      ReconcileComplete(claims[1..], Remove(executed, i), rest);
    }
  }

  lemma PairableReorder(a: seq<Purchase>, b: seq<Purchase>, ea: seq<ExecutedPurchase>, eb: seq<ExecutedPurchase>)
    requires multiset(a) == multiset(b) && multiset(ea) == multiset(eb)
    requires Pairable(a, ea)
    ensures Pairable(b, eb)
  {
    var m :| Pairing(a, ea, m);
    var f, g := Renumber(a, b);
    var ef, eg := Renumber(ea, eb);
    var n := seq(|b|, k requires 0 <= k < |b| => eg[m[f[k]]]);
    forall i | 0 <= i < |n| ensures n[i] < |eb| && Matches(b[i], eb[n[i]]) {
      assert b[i] == a[f[i]] && ea[m[f[i]]] == eb[n[i]];
    }
    forall i, j | 0 <= i < j < |n| ensures n[i] != n[j] {
      assert g[f[i]] == i && g[f[j]] == j;
      assert ef[n[i]] == m[f[i]] && ef[n[j]] == m[f[j]];
    }
    assert Pairing(b, eb, n);
  }
}
