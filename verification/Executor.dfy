/** The synthetic executor and the recording view the agent pays through. */
module Executor {
  import opened Sequences
  import opened Errors
  import opened Models
  import opened Policy

  type Catalog = m: map<string, Vendor> | forall k :: k in m ==> m[k].vendorId == k
  type Attempts = map<string, nat>

  datatype Reply = Paid(purchase: ExecutedPurchase) | Raised(error: Exn)

  datatype PayCall = PayCall(target: string, maxAmount: real)

  /** What one trial's calls to pay can change: the executor's counters and the harness's record. */
  datatype TrialState = TrialState(attempts: Attempts, calls: seq<ExecutedPurchase>)

  const FRESH := TrialState(map[], [])

  /** The dictionary comprehension over the catalog: a later vendor replaces an earlier one with its id. */
  function ById(vendors: seq<Vendor>): (m: Catalog)
    ensures forall k | k in m :: m[k] in vendors
    ensures forall v | v in vendors :: v.vendorId in m
  {
    if vendors == [] then map[] else
      var last := vendors[|vendors| - 1];
      assert vendors == vendors[..|vendors| - 1] + [last];
      ById(vendors[..|vendors| - 1])[last.vendorId := last]
  }

  predicate LastWithId(vendors: seq<Vendor>, i: nat, k: string) {
    i < |vendors| && vendors[i].vendorId == k && forall j :: i < j < |vendors| ==> vendors[j].vendorId != k
  }

  lemma LastOfFront(vendors: seq<Vendor>, i: nat, k: string)
    requires vendors != [] && vendors[|vendors| - 1].vendorId != k && LastWithId(vendors[..|vendors| - 1], i, k)
    ensures LastWithId(vendors, i, k) && vendors[i] == vendors[..|vendors| - 1][i]
  {
    var front := vendors[..|vendors| - 1];
    forall j | i < j < |vendors| ensures vendors[j].vendorId != k {
      if j < |front| {
        assert front[j] == vendors[j];
      }
    }
  }

  ghost predicate KeepsLast(m: Catalog, vendors: seq<Vendor>, k: string) {
    k in m ==> exists i: nat :: LastWithId(vendors, i, k) && m[k] == vendors[i]
  }

  lemma KeepsLastStep(m: Catalog, vendors: seq<Vendor>, k: string)
    requires vendors != [] && KeepsLast(m, vendors[..|vendors| - 1], k)
    ensures var last := vendors[|vendors| - 1]; KeepsLast(m[last.vendorId := last], vendors, k)
  {
    var n := |vendors| - 1;
    if vendors[n].vendorId == k {
      assert LastWithId(vendors, n, k);
    } else if k in m {
      var i: nat :| LastWithId(vendors[..n], i, k) && m[k] == vendors[..n][i];
      LastOfFront(vendors, i, k);
    }
  }

  /** Under each id the dictionary holds the last vendor listed with it. */
  lemma {:induction false} ByIdKeepsLast(vendors: seq<Vendor>, k: string)
    ensures KeepsLast(ById(vendors), vendors, k)
  {
    if vendors != [] {
      ByIdKeepsLast(vendors[..|vendors| - 1], k);
      KeepsLastStep(ById(vendors[..|vendors| - 1]), vendors, k);
    }
  }

  function SyntheticPurchase(v: Vendor): ExecutedPurchase {
    ExecutedPurchase(v.vendorId, None, v.price, None, None, true)
  }

  function AttemptsOf(attempts: Attempts, target: string): nat {
    if target in attempts then attempts[target] else 0
  }

  /** A call that reaches the vendor's settlement: known, affordable and not down. */
  predicate Effective(byId: Catalog, call: PayCall) {
    && call.target in byId
    && byId[call.target].price <= call.maxAmount
    && !byId[call.target].down
  }

  function SyntheticPay(byId: Catalog, attempts: Attempts, call: PayCall): (Reply, Attempts) {
    if call.target !in byId then (Raised(KeyError), attempts) else
      var vendor := byId[call.target];
      if vendor.price > call.maxAmount then (Raised(OfferOverCap(vendor.price, call.maxAmount)), attempts)
      else if vendor.down then (Raised(EndpointUnreachable), attempts)
      else
        var n := AttemptsOf(attempts, call.target) + 1;
        if n <= vendor.failsNextNAttempts then (Raised(SettlementRejected(None)), attempts[call.target := n])
        else (Paid(SyntheticPurchase(vendor)), attempts[call.target := n])
  }

  function ViewPay(byId: Catalog, st: TrialState, call: PayCall): (Reply, TrialState) {
    if AlreadyPurchased(call.target, st.calls) then (Raised(DuplicatePurchaseAttempt), st) else
      var (reply, attempts) := SyntheticPay(byId, st.attempts, call);
      match reply
      case Raised(_) => (reply, TrialState(attempts, st.calls))
      case Paid(p) => (reply, TrialState(attempts, st.calls + [p]))
  }

  function Payer(byId: Catalog): (TrialState, PayCall) -> TrialState {
    (st: TrialState, call: PayCall) => ViewPay(byId, st, call).1
  }

  function PayAll(byId: Catalog, st: TrialState, calls: seq<PayCall>): TrialState {
    Fold(Payer(byId), st, calls)
  }

  class SyntheticExecutor {
    const byId: Catalog
    var attempts: Attempts

    constructor (task: TaskSpec)
      ensures byId == ById(task.vendors)
      ensures attempts == map[]
    {
      byId := ById(task.vendors);
      attempts := map[];
    }

    method Pay(call: PayCall) returns (reply: Reply)
      modifies this`attempts
      ensures (reply, attempts) == SyntheticPay(byId, old(attempts), call)
    {
      if call.target !in byId {
        return Raised(KeyError);
      }
      var vendor := byId[call.target];
      if vendor.price > call.maxAmount {
        return Raised(OfferOverCap(vendor.price, call.maxAmount));
      }
      if vendor.down {
        return Raised(EndpointUnreachable);
      }
      attempts := attempts[call.target := AttemptsOf(attempts, call.target) + 1];
      if attempts[call.target] <= vendor.failsNextNAttempts {
        return Raised(SettlementRejected(None));
      }
      return Paid(SyntheticPurchase(vendor));
    }
  }

  /** _recording_view: the duplicate gate runs before the inner executor, and only a
      payment that returned is recorded. */
  class RecordingView {
    const inner: SyntheticExecutor
    var calls: seq<ExecutedPurchase>

    constructor (inner: SyntheticExecutor)
      ensures this.inner == inner
      ensures calls == []
    {
      this.inner := inner;
      calls := [];
    }

    function State(): TrialState
      reads this, inner
    {
      TrialState(inner.attempts, calls)
    }

    method Pay(call: PayCall) returns (reply: Reply)
      modifies this`calls, inner`attempts
      ensures (reply, State()) == ViewPay(inner.byId, old(State()), call)
    {
      if AlreadyPurchased(call.target, calls) {
        return Raised(DuplicatePurchaseAttempt);
      }
      reply := inner.Pay(call);
      if reply.Paid? {
        calls := calls + [reply.purchase];
      }
    }
  }

  // ----- what every run of pay calls does

  predicate Recorded(calls: seq<ExecutedPurchase>, target: string) {
    exists p | p in calls :: p.vendorId == target
  }

  function EffectiveCalls(byId: Catalog, target: string, calls: seq<PayCall>): nat {
    Count((c: PayCall) => c.target == target && Effective(byId, c), calls)
  }

  /** The record of a trial: distinct catalog vendors, none of them down, each paid its
      catalog price and verified. */
  ghost predicate RecordSound(byId: Catalog, calls: seq<ExecutedPurchase>) {
    && (forall i, j :: 0 <= i < j < |calls| ==> calls[i].vendorId != calls[j].vendorId)
    && (forall p :: p in calls ==>
          && p.vendorId in byId
          && !byId[p.vendorId].down
          && p == ExecutedPurchase(p.vendorId, None, byId[p.vendorId].price, None, None, true))
  }

  /** Whatever the order of the calls, a vendor's counter is the number of its effective
      calls, cut off at one more than its failures, and the vendor is recorded exactly
      when its effective calls outnumber its failures. */
  ghost predicate CountersExact(byId: Catalog, calls: seq<PayCall>, st: TrialState) {
    && st.attempts.Keys <= byId.Keys
    && forall v :: v in byId ==>
      var fails := byId[v].failsNextNAttempts;
      var effective := EffectiveCalls(byId, v, calls);
      && AttemptsOf(st.attempts, v) == (if effective <= fails then effective else fails + 1)
      && (Recorded(st.calls, v) <==> effective > fails)
  }

  lemma {:induction false} RunCharacterised(byId: Catalog, calls: seq<PayCall>)
    ensures RecordSound(byId, PayAll(byId, FRESH, calls).calls)
    ensures CountersExact(byId, calls, PayAll(byId, FRESH, calls))
  {
    if calls != [] {
      var n := |calls| - 1;
      RunCharacterised(byId, calls[..n]);
      RecordStep(byId, PayAll(byId, FRESH, calls[..n]), calls[n]);
      CountersStep(byId, calls[..n], PayAll(byId, FRESH, calls[..n]), calls[n]);
      assert calls == calls[..n] + [calls[n]];
    }
  }

  lemma CountersStep(byId: Catalog, calls: seq<PayCall>, st: TrialState, last: PayCall)
    requires CountersExact(byId, calls, st) && RecordSound(byId, st.calls)
    ensures CountersExact(byId, calls + [last], ViewPay(byId, st, last).1)
  {
    forall v | v in byId
      ensures var fails, effective := byId[v].failsNextNAttempts, EffectiveCalls(byId, v, calls + [last]);
              && AttemptsOf(ViewPay(byId, st, last).1.attempts, v) == (if effective <= fails then effective else fails + 1)
              && (Recorded(ViewPay(byId, st, last).1.calls, v) <==> effective > fails)
    {
      CountAppend((c: PayCall) => c.target == v && Effective(byId, c), calls, [last]);
      RecordedStep(byId, st, last, v);
      RecordStep(byId, st, last);
    }
  }

  lemma RecordedStep(byId: Catalog, st: TrialState, call: PayCall, v: string)
    ensures Recorded(ViewPay(byId, st, call).1.calls, v) <==>
            Recorded(st.calls, v) || (call.target == v && ViewPay(byId, st, call).0.Paid?)
  {
    var (reply, after) := ViewPay(byId, st, call);
    if reply.Paid? {
      assert after.calls == st.calls + [reply.purchase];
      assert reply.purchase in after.calls && reply.purchase.vendorId == call.target;
      if Recorded(st.calls, v) {
        var p :| p in st.calls && p.vendorId == v;
        assert p in after.calls;
      }
    }
  }

  lemma RecordStep(byId: Catalog, st: TrialState, call: PayCall)
    requires RecordSound(byId, st.calls)
    ensures RecordSound(byId, ViewPay(byId, st, call).1.calls)
    ensures AlreadyPurchased(call.target, st.calls) <==> Recorded(st.calls, call.target)
  {
  }
}
