/** The policy filters of evals/harness.py and the checks of evals/guardrail.py. */
module Policy {
  import opened Sequences
  import opened Errors
  import opened Models

  function InPolicyVendors(task: TaskSpec): seq<Vendor> {
    match task.mandate.vendorAllowlist
    case Some(allowed) => Filter((v: Vendor) => v.vendorId in allowed, task.vendors)
    case None => Filter((v: Vendor) => v.inAllowlist, task.vendors)
  }

  function InPolicyCandidates(task: TaskSpec): seq<Vendor> {
    Filter((v: Vendor) => v.category == task.mandate.goalCategory && v.price <= task.mandate.budgetCap,
           InPolicyVendors(task))
  }

  function CheapestInPolicyVendor(task: TaskSpec): Option<Vendor> {
    FirstMin((v: Vendor) => v.price as real, InPolicyCandidates(task))
  }

  predicate Allowed(task: TaskSpec, v: Vendor) {
    match task.mandate.vendorAllowlist
    case Some(allowed) => v.vendorId in allowed
    case None => v.inAllowlist
  }

  predicate PriceSane(task: TaskSpec, v: Vendor) {
    match (v.referencePrice, task.mandate.priceSanityMultiplier)
    case (Some(reference), Some(multiplier)) => v.price <= reference * multiplier
    case _ => true
  }

  /** check_purchase: the target is matched by id or by url against the candidates. */
  function CheckPurchase(task: TaskSpec, target: string): Result<Vendor> {
    match Find((c: Vendor) => c.vendorId == target || c.url == Some(target), InPolicyCandidates(task))
    case None => Err(VendorNotOffered)
    case Some(chosen) => if PriceSane(task, chosen) then Ok(chosen) else Err(PriceAnomaly)
  }

  /** check_not_duplicate: true when the call would raise. */
  predicate AlreadyPurchased(target: string, calls: seq<ExecutedPurchase>) {
    exists p | p in calls :: p.vendorId == target || p.url == Some(target)
  }

  /** A candidate is exactly a catalog vendor that the mandate allows, sells the
      goal category and is no dearer than the cap. */
  lemma CandidateIff(task: TaskSpec, v: Vendor)
    ensures v in InPolicyCandidates(task) <==>
            && v in task.vendors
            && Allowed(task, v)
            && v.category == task.mandate.goalCategory
            && v.price <= task.mandate.budgetCap
  {
  }

  /** No vendor listed is cheaper, and none before it is as cheap. */
  ghost predicate FirstCheapestVendor(vs: seq<Vendor>, v: Vendor) {
    exists i :: 0 <= i < |vs| && vs[i] == v
                && (forall j :: 0 <= j < |vs| ==> v.price <= vs[j].price)
                && (forall j :: 0 <= j < i ==> v.price < vs[j].price)
  }

  lemma FirstMinVendor(vs: seq<Vendor>)
    ensures FirstMin((v: Vendor) => v.price as real, vs).None? <==> vs == []
    ensures forall v :: FirstMin((v: Vendor) => v.price as real, vs) == Some(v) <==> FirstCheapestVendor(vs, v)
  {
    var price := (v: Vendor) => v.price as real;
    FirstMinIsFirst(price, vs);
    if vs != [] {
      var m := FirstMin(price, vs).value;
      var i :| 0 <= i < |vs| && IsFirstMinAt(price, vs, i) && vs[i] == m;
      assert forall j :: 0 <= j < |vs| ==> price(vs[i]) <= price(vs[j]);
      assert forall j :: 0 <= j < i ==> price(vs[i]) < price(vs[j]);
      assert FirstCheapestVendor(vs, m);
      forall v | FirstCheapestVendor(vs, v) ensures v == m {
        var k :| 0 <= k < |vs| && vs[k] == v && (forall j :: 0 <= j < |vs| ==> v.price <= vs[j].price)
                 && (forall j :: 0 <= j < k ==> v.price < vs[j].price);
        assert i == k;
      }
    }
  }

  /** The cheapest vendor in policy is the first of the cheapest candidates, and missing only where
      there is no candidate. */
  lemma CheapestExactly(task: TaskSpec)
    ensures CheapestInPolicyVendor(task).None? <==> InPolicyCandidates(task) == []
    ensures forall v :: CheapestInPolicyVendor(task) == Some(v) <==> FirstCheapestVendor(InPolicyCandidates(task), v)
  {
    FirstMinVendor(InPolicyCandidates(task));
  }

  lemma {:induction false} FilterKeepsDistinct(p: Vendor -> bool, vs: seq<Vendor>)
    requires DistinctVendorIds(vs)
    ensures DistinctVendorIds(Filter(p, vs))
  {
    if vs != [] {
      assert DistinctVendorIds(vs[1..]);
      FilterKeepsDistinct(p, vs[1..]);
      forall v | v in Filter(p, vs[1..]) ensures v.vendorId != vs[0].vendorId {
        var j :| 0 <= j < |vs[1..]| && vs[1..][j] == v;
        assert vs[j + 1] == v;
      }
    }
  }

  lemma CandidatesDistinct(task: TaskSpec)
    requires DistinctVendorIds(task.vendors)
    ensures DistinctVendorIds(InPolicyCandidates(task))
  {
    match task.mandate.vendorAllowlist {
      case Some(allowed) => FilterKeepsDistinct((v: Vendor) => v.vendorId in allowed, task.vendors);
      case None => FilterKeepsDistinct((v: Vendor) => v.inAllowlist, task.vendors);
    }
    FilterKeepsDistinct(
      (v: Vendor) => v.category == task.mandate.goalCategory && v.price <= task.mandate.budgetCap,
      InPolicyVendors(task));
  }

  lemma DistinctById(vs: seq<Vendor>, v: Vendor, w: Vendor)
    requires DistinctVendorIds(vs) && v in vs && w in vs && v.vendorId == w.vendorId
    ensures v == w
  {
    var i :| 0 <= i < |vs| && vs[i] == v;
    var j :| 0 <= j < |vs| && vs[j] == w;
    if i < j {
      assert false;
    } else if j < i {
      assert false;
    }
  }

  predicate Names(target: string, c: Vendor) {
    c.vendorId == target || c.url == Some(target)
  }

  /** The target is looked up as the first candidate that it names by id or url. */
  ghost predicate FirstNamed(task: TaskSpec, target: string, c: Vendor) {
    exists i :: 0 <= i < |InPolicyCandidates(task)| && InPolicyCandidates(task)[i] == c && Names(target, c)
                && forall j :: 0 <= j < i ==> !Names(target, InPolicyCandidates(task)[j])
  }

  lemma FirstNamedOnce(task: TaskSpec, target: string, c: Vendor, d: Vendor)
    requires FirstNamed(task, target, c) && FirstNamed(task, target, d)
    ensures c == d
  {
    var cs := InPolicyCandidates(task);
    var i :| 0 <= i < |cs| && cs[i] == c && Names(target, c) && forall j :: 0 <= j < i ==> !Names(target, cs[j]);
    var k :| 0 <= k < |cs| && cs[k] == d && Names(target, d) && forall j :: 0 <= j < k ==> !Names(target, cs[j]);
    assert i == k;
  }

  /** For every catalog: a target that names no candidate is not offered, and any other is judged by
      the price of the first candidate it names. */
  lemma CheckPurchaseExactly(task: TaskSpec, target: string)
    ensures CheckPurchase(task, target) == Err(VendorNotOffered) <==>
            forall c :: c in InPolicyCandidates(task) ==> !Names(target, c)
    ensures CheckPurchase(task, target) != Err(VendorNotOffered) ==>
              exists c :: FirstNamed(task, target, c)
                          && CheckPurchase(task, target) == if PriceSane(task, c) then Ok(c) else Err(PriceAnomaly)
  {
    var named := (c: Vendor) => c.vendorId == target || c.url == Some(target);
    var found := Find(named, InPolicyCandidates(task));
    FindIsFirst(named, InPolicyCandidates(task));
    if found.Some? {
      var c := found.value;
      var i :| 0 <= i < |InPolicyCandidates(task)| && named(InPolicyCandidates(task)[i]) && InPolicyCandidates(task)[i] == c
               && forall j :: 0 <= j < i ==> !named(InPolicyCandidates(task)[j]);
      forall j | 0 <= j < i ensures !Names(target, InPolicyCandidates(task)[j]) {
        assert !named(InPolicyCandidates(task)[j]);
      }
      assert FirstNamed(task, target, c);
    } else {
      forall c | c in InPolicyCandidates(task) ensures !Names(target, c) {
        assert !named(c);
      }
    }
  }

  /** Whatever passes is a sane-priced candidate that the target names. */
  lemma CheckPurchaseOffers(task: TaskSpec, target: string, v: Vendor)
    requires CheckPurchase(task, target) == Ok(v)
    ensures v in InPolicyCandidates(task) && v in task.vendors && PriceSane(task, v) && Names(target, v)
  {
    CandidateIff(task, v);
  }

  /** No vendor's url is the id of another. */
  predicate UrlsApart(vendors: seq<Vendor>) {
    forall v, w :: v in vendors && w in vendors && v.url == Some(w.vendorId) ==> v == w
  }

  /** Where ids name one vendor each, an id passes exactly when it is the id of a candidate whose
      price is sane, and that candidate is returned. */
  lemma CheckPurchaseById(task: TaskSpec, v: Vendor)
    requires DistinctVendorIds(task.vendors) && UrlsApart(task.vendors) && v in task.vendors
    ensures CheckPurchase(task, v.vendorId) == Ok(v) <==> v in InPolicyCandidates(task) && PriceSane(task, v)
    ensures CheckPurchase(task, v.vendorId) == Err(PriceAnomaly) <==> v in InPolicyCandidates(task) && !PriceSane(task, v)
  {
    CheckPurchaseExactly(task, v.vendorId);
    forall c | c in InPolicyCandidates(task) && Names(v.vendorId, c) ensures c == v {
      CandidateIff(task, c);
      if c.vendorId == v.vendorId {
        DistinctById(task.vendors, c, v);
      }
    }
    assert Names(v.vendorId, v);
  }
}
