/** The x402 executor: attribution of a payment to a vendor, and its record behind the view. */
module RealExecutor {
  import opened Sequences
  import opened Errors
  import opened Models
  import opened Policy
  import opened Reconciliation
  import opened PayFlow
  import opened PaymentLaws

  const UNMAPPED := "unmapped:"

  predicate HasUrl(v: Vendor) {
    v.url.Some? && v.url.value != ""
  }

  predicate DistinctUrls(vendors: seq<Vendor>) {
    forall i, j :: 0 <= i < j < |vendors| && HasUrl(vendors[i]) && HasUrl(vendors[j]) ==> vendors[i].url != vendors[j].url
  }

  /** The url map says of each vendor with a url that the url is its, and nothing else. */
  predicate MapsUrls(vendors: seq<Vendor>, m: map<string, string>) {
    && (forall v :: v in vendors && HasUrl(v) ==> v.url.value in m && m[v.url.value] == v.vendorId)
    && (forall u :: u in m ==> exists v :: v in vendors && HasUrl(v) && v.url.value == u)
  }

  /** The constructor's loop: two vendors sharing a url are refused, any others accepted. */
  method BuildUrlMap(vendors: seq<Vendor>) returns (r: Result<map<string, string>>)
    ensures r.Ok? <==> DistinctUrls(vendors)
    ensures r.Ok? ==> MapsUrls(vendors, r.value)
    ensures r.Err? ==> r.error == ValueError
  {
    var m: map<string, string> := map[];
    for i := 0 to |vendors|
      invariant DistinctUrls(vendors[..i]) && MapsUrls(vendors[..i], m)
    {
      var v := vendors[i];
      assert vendors[..i + 1] == vendors[..i] + [v];
      if HasUrl(v) {
        if v.url.value in m {
          var w :| w in vendors[..i] && HasUrl(w) && w.url.value == v.url.value;
          var k :| 0 <= k < i && vendors[k] == w;
          return Err(ValueError);
        }
        m := m[v.url.value := v.vendorId];
      }
    }
    assert vendors[..|vendors|] == vendors;
    return Ok(m);
  }

  predicate Resolved(m: map<string, string>, target: string) {
    target in m && m[target] != ""
  }

  function VendorIdFor(m: map<string, string>, target: string): string {
    if Resolved(m, target) then m[target] else UNMAPPED + target
  }

  /** The sentinel of an unmapped target is no catalog id exactly when no catalog id is itself
      the prefix followed by an unmapped target: the comment's "never" needs that condition. */
  lemma SentinelExact(vendors: seq<Vendor>, m: map<string, string>)
    ensures (forall target: string, v :: !Resolved(m, target) && v in vendors ==> VendorIdFor(m, target) != v.vendorId)
            <==> SentinelFree(vendors, m)
  {
    if !SentinelFree(vendors, m) {
      var v :| v in vendors && UNMAPPED <= v.vendorId && !Resolved(m, v.vendorId[|UNMAPPED|..]);
      var target := v.vendorId[|UNMAPPED|..];
      assert VendorIdFor(m, target) == UNMAPPED + target == v.vendorId;
    }
    forall target: string, v | SentinelFree(vendors, m) && !Resolved(m, target) && v in vendors
      ensures VendorIdFor(m, target) != v.vendorId
    {
      assert (UNMAPPED + target)[|UNMAPPED|..] == target;
    }
  }

  /** A catalog id that is the sentinel of an unmapped target. */
  lemma SentinelClash() returns (v: Vendor, m: map<string, string>)
    ensures MapsUrls([v], m) && !Resolved(m, "u") && VendorIdFor(m, "u") == v.vendorId
    ensures !SentinelFree([v], m)
  {
    v := Vendor("unmapped:u", "c", 0.0, true, None, None, 0, false);
    m := map[];
    assert UNMAPPED + "u" == v.vendorId && v.vendorId[|UNMAPPED|..] == "u";
    assert v in [v];
  }

  predicate SentinelFree(vendors: seq<Vendor>, m: map<string, string>) {
    forall v :: v in vendors && UNMAPPED <= v.vendorId ==> Resolved(m, v.vendorId[|UNMAPPED|..])
  }

  function RealPurchase(m: map<string, string>, target: string, o: PaymentOutcome): ExecutedPurchase
    requires o.amountPaid >= 0.0
  {
    ExecutedPurchase(VendorIdFor(m, target), Some(target), o.amountPaid, Some(o.payTo), Some(o.txHash), true)
  }

  /** What is recorded of a settled payment: the verified amount, payee and hash, at the url that was
      paid, under the id that the map has for it. */
  predicate RecordsSettlement(m: map<string, string>, target: string, o: PaymentOutcome, p: ExecutedPurchase) {
    && p.amountPaid == o.amountPaid && p.payTo == Some(o.payTo) && p.txHash == Some(o.txHash) && p.verified
    && p.url == Some(target)
    && p.vendorId == if target in m && m[target] != "" then m[target] else "unmapped:" + target
  }

  /** A call records nothing if its url was paid before or the payment raises, and otherwise exactly what
      was settled: by a transaction with a hash, for at most the cap. */
  lemma RealPayRecords(m: map<string, string>, calls: seq<ExecutedPurchase>, c: RealCall)
    ensures var after, r := RealViewPay(m, calls, c), PaymentOf(c.world, c.maxAmount, c.allowlist);
            if r.Err? || exists p :: p in calls && (p.vendorId == c.target || p.url == Some(c.target)) then after == calls
            else
              && |after| == |calls| + 1 && after[..|calls|] == calls
              && RecordsSettlement(m, c.target, r.value, after[|calls|])
              && r.value.txHash != "" && PaidFor(c.world, r.value.offer) && 0.0 <= r.value.amountPaid <= c.maxAmount
  {
    var r := PaymentOf(c.world, c.maxAmount, c.allowlist);
    PaidWithHash(c.world, c.maxAmount, c.allowlist, r);
    RealViewPayIs(m, calls, c, r);
    if r.Ok? {
      PurchaseRecords(m, c.target, r.value);
    }
  }

  lemma RealViewPayIs(m: map<string, string>, calls: seq<ExecutedPurchase>, c: RealCall, r: Result<PaymentOutcome>)
    requires r == PaymentOf(c.world, c.maxAmount, c.allowlist) && (r.Ok? ==> r.value.amountPaid >= 0.0)
    ensures RealViewPay(m, calls, c)
            == if AlreadyPurchased(c.target, calls) || r.Err? then calls else calls + [RealPurchase(m, c.target, r.value)]
  {
  }

  lemma PaidWithHash(w: World, maxAmount: real, allowlist: seq<int>, r: Result<PaymentOutcome>)
    requires r == PaymentOf(w, maxAmount, allowlist)
    ensures r.Ok? ==> r.value.txHash != "" && PaidFor(w, r.value.offer) && 0.0 <= r.value.amountPaid <= maxAmount
  {
    PayReturnsExactly(w, maxAmount, allowlist);
  }

  lemma PurchaseRecords(m: map<string, string>, target: string, o: PaymentOutcome)
    requires o.amountPaid >= 0.0
    ensures RecordsSettlement(m, target, o, RealPurchase(m, target, o))
  {
  }

  /** Whatever it meets, a payment through the x402 executor records no more than the cap asked for. */
  lemma RealPaymentWithinCap(w: World, maxAmount: real, allowlist: seq<int>)
    ensures var r := PaymentOf(w, maxAmount, allowlist);
            r.Ok? ==> 0.0 <= r.value.amountPaid <= maxAmount
  {
    SettledAmountBound(w, maxAmount, allowlist);
  }

  /** One call through the view: refused as a duplicate, refused by the flow, or recorded. */
  datatype RealCall = RealCall(target: string, world: World, maxAmount: real, allowlist: seq<int>)

  function RealViewPay(m: map<string, string>, calls: seq<ExecutedPurchase>, c: RealCall): seq<ExecutedPurchase> {
    if AlreadyPurchased(c.target, calls) then calls else
      match PaymentOf(c.world, c.maxAmount, c.allowlist)
      case Err(_) => calls
      case Ok(o) =>
        RealPaymentWithinCap(c.world, c.maxAmount, c.allowlist);
        calls + [RealPurchase(m, c.target, o)]
  }

  function RealRun(m: map<string, string>, calls: seq<RealCall>): seq<ExecutedPurchase> {
    if calls == [] then [] else RealViewPay(m, RealRun(m, calls[..|calls| - 1]), calls[|calls| - 1])
  }

  /** Each recorded payment is verified and attributed by its url, and no url is paid twice. */
  predicate RealRecordSound(m: map<string, string>, record: seq<ExecutedPurchase>) {
    && (forall p :: p in record ==> p.verified && p.url.Some? && p.vendorId == VendorIdFor(m, p.url.value))
    && (forall i, j :: 0 <= i < j < |record| ==> record[i].url != record[j].url)
  }

  lemma {:induction false} RealRunSound(m: map<string, string>, calls: seq<RealCall>)
    ensures RealRecordSound(m, RealRun(m, calls))
  {
    if calls != [] {
      RealRunSound(m, calls[..|calls| - 1]);
      RealStepSound(m, RealRun(m, calls[..|calls| - 1]), calls[|calls| - 1]);
    }
  }

  lemma RealStepSound(m: map<string, string>, record: seq<ExecutedPurchase>, c: RealCall)
    requires RealRecordSound(m, record)
    ensures RealRecordSound(m, RealViewPay(m, record, c))
  {
  }

  lemma AttributionInjective(vendors: seq<Vendor>, m: map<string, string>, s: string, t: string)
    requires MapsUrls(vendors, m) && DistinctVendorIds(vendors) && SentinelFree(vendors, m)
    requires s != t
    ensures VendorIdFor(m, s) != VendorIdFor(m, t)
  {
    SentinelExact(vendors, m);
    if Resolved(m, s) && Resolved(m, t) {
      var v :| v in vendors && HasUrl(v) && v.url.value == s;
      var w :| w in vendors && HasUrl(w) && w.url.value == t;
      if v.vendorId == w.vendorId {
        DistinctById(vendors, v, w);
      }
    } else if !Resolved(m, s) && !Resolved(m, t) {
      assert (UNMAPPED + s)[|UNMAPPED|..] == s && (UNMAPPED + t)[|UNMAPPED|..] == t;
    } else if Resolved(m, s) {
      var v :| v in vendors && HasUrl(v) && v.url.value == s;
    } else {
      var w :| w in vendors && HasUrl(w) && w.url.value == t;
    }
  }

  /** With distinct vendor ids and no id that mimics a sentinel, the record of every run through
      the view has distinct vendors, which makes its reconciliation complete and order-blind. */
  lemma RealRecordReconciles(vendors: seq<Vendor>, m: map<string, string>, calls: seq<RealCall>)
    requires MapsUrls(vendors, m) && DistinctVendorIds(vendors) && SentinelFree(vendors, m)
    ensures DistinctIds(RealRun(m, calls))
    ensures GreedyComplete(RealRun(m, calls)) && ClaimOrderBlind(RealRun(m, calls))
  {
    RealRunSound(m, calls);
    var record := RealRun(m, calls);
    forall i, j | 0 <= i < j < |record| ensures record[i].vendorId != record[j].vendorId {
      AttributionInjective(vendors, m, record[i].url.value, record[j].url.value);
    }
    OrderlyExactly(record);
  }
}
