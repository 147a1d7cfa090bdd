/** The harness's records. Decimal amounts are exact reals; an amount that the
    source validates with ge=0 has type Usdc. */
module Models {
  import opened Sequences

  type Usdc = r: real | r >= 0.0
  type Multiplier = r: real | r > 0.0 witness 1.0

  datatype Vendor = Vendor(
    vendorId: string,
    category: string,
    price: Usdc,
    inAllowlist: bool,
    url: Option<string>,
    referencePrice: Option<Usdc>,
    failsNextNAttempts: nat,
    down: bool)

  datatype Mandate = Mandate(
    goalCategory: string,
    budgetCap: Usdc,
    vendorAllowlist: Option<seq<string>>,
    priceSanityMultiplier: Option<Multiplier>)

  datatype ExpectedPurchase = ExpectedPurchase(vendorId: string, maxPrice: Usdc)

  datatype Grading = Grading(expected: Option<ExpectedPurchase>, budgetAdherenceRequired: bool)

  datatype Kind = Synthetic | RealX402

  datatype TaskSpec = TaskSpec(taskId: string, mandate: Mandate, vendors: seq<Vendor>, kind: Kind, grading: Grading)

  datatype Purchase = Purchase(vendorId: string, price: Usdc)

  /** Why an agent escalated: a fixed tag of one of the agents, or free text. */
  datatype Reason =
    | NoInPolicyVendor
    | PlannerEscalated
    | PriceAnomalous
    | NoReachableVendor
    | NoFairPriceVendor
    | SettlementFailed
    | FreeText(text: string)
  {
    function Text(): string {
      match this
      case NoInPolicyVendor => "no_in_policy_vendor"
      case PlannerEscalated => "planner_escalated"
      case PriceAnomalous => "price_anomaly"
      case NoReachableVendor => "no_reachable_vendor"
      case NoFairPriceVendor => "no_fair_price_vendor"
      case SettlementFailed => "settlement_failed"
      case FreeText(text) => text
    }
  }

  datatype AgentResult = AgentResult(
    purchases: seq<Purchase>,
    touchpoints: int,
    escalations: seq<Reason>,
    cost: Usdc)

  datatype ExecutedPurchase = ExecutedPurchase(
    vendorId: string,
    url: Option<string>,
    amountPaid: Usdc,
    payTo: Option<string>,
    txHash: Option<string>,
    verified: bool)

  predicate DistinctVendorIds(vendors: seq<Vendor>) {
    forall i, j :: 0 <= i < j < |vendors| ==> vendors[i].vendorId != vendors[j].vendorId
  }

  function TotalPaid(executed: seq<ExecutedPurchase>): real {
    Sum((e: ExecutedPurchase) => e.amountPaid, executed)
  }
}
