/** The scripted recovery agents: price-sorted fallback with bounded retries, and the
    definition of a self-consistent task. */
module Recovery {
  import opened Sequences
  import opened Errors
  import opened Models
  import opened Policy
  import opened Executor
  import opened Grading
  import opened Harness
  import opened Accounting
  import opened Planner
  import opened PlannerPolicy

  /** The loops differ in how often they try a vendor, whether they screen its price first,
      which refusals they catch and what they say when they give up. */
  datatype Loop = Loop(attempts: nat, screensPrices: bool, catchesUnreachable: bool, catchesRejected: bool, giveUp: Reason)

  const FALLS_BACK_ON_UNREACHABLE := Loop(1, false, true, false, NoReachableVendor)
  const GIVES_UP_AFTER_3_TRIES := Loop(3, false, true, false, NoReachableVendor)
  const SKIPS_ANOMALOUS_PRICE := Loop(1, true, false, false, NoFairPriceVendor)

  predicate Catches(loop: Loop, e: Exn) {
    match e
    case EndpointUnreachable => loop.catchesUnreachable
    case SettlementRejected(_) => loop.catchesRejected
    case _ => false
  }

  function Insert(v: Vendor, sorted: seq<Vendor>): seq<Vendor> {
    if sorted == [] || v.price <= sorted[0].price then [v] + sorted
    else [sorted[0]] + Insert(v, sorted[1..])
  }

  /** sorted(vs, key=price): stable, so equal prices keep their order. */
  function SortByPrice(vs: seq<Vendor>): seq<Vendor> {
    if vs == [] then [] else Insert(vs[0], SortByPrice(vs[1..]))
  }

  function Bought(p: ExecutedPurchase): AgentResult {
    AgentResult([Purchase(p.vendorId, p.amountPaid)], 1, [], 0.0)
  }

  /** One vendor tried: bought, given up on, or a refusal the loop does not catch. */
  datatype Tried = Success(purchase: ExecutedPurchase) | Exhausted | Crashed(error: Exn)

  function Try(loop: Loop, byId: Catalog, st: TrialState, call: PayCall, left: nat): (Tried, seq<PayCall>)
    decreases left
  {
    if left == 0 then (Exhausted, []) else
      var (reply, after) := ViewPay(byId, st, call);
      match reply
      case Paid(p) => (Success(p), [call])
      case Raised(e) =>
        if !Catches(loop, e) then (Crashed(e), [call]) else
          var (tried, calls) := Try(loop, byId, after, call, left - 1);
          (tried, [call] + calls)
  }

  /** The id to pay for a candidate, or the exception that screening its price raises. */
  function Screen(loop: Loop, task: TaskSpec): Vendor -> Result<string> {
    (c: Vendor) =>
      if !loop.screensPrices then Ok(c.vendorId) else
        match CheckPurchase(task, c.vendorId)
        case Ok(chosen) => Ok(chosen.vendorId)
        case Err(e) => Err(e)
  }

  function FallBack(loop: Loop, cap: real, screen: Vendor -> Result<string>, byId: Catalog, st: TrialState, cs: seq<Vendor>): Script
    decreases |cs|
  {
    if cs == [] then Script([], Returned(Escalated(loop.giveUp, 0.0))) else
      match screen(cs[0])
      case Err(PriceAnomaly) => FallBack(loop, cap, screen, byId, st, cs[1..])
      case Err(e) => Script([], Propagated(e))
      case Ok(target) =>
        var (tried, calls) := Try(loop, byId, st, PayCall(target, cap), loop.attempts);
        match tried
        case Success(p) => Script(calls, Returned(Bought(p)))
        case Crashed(e) => Script(calls, Propagated(e))
        case Exhausted =>
          var rest := FallBack(loop, cap, screen, byId, PayAll(byId, st, calls), cs[1..]);
          Script(calls + rest.calls, rest.ending)
  }

  function RecoveryScript(loop: Loop, task: TaskSpec, byId: Catalog, st: TrialState): Script {
    FallBack(loop, task.mandate.budgetCap, Screen(loop, task), byId, st, SortByPrice(InPolicyCandidates(task)))
  }

  function Recoverer(loop: Loop): AgentFn {
    (task: TaskSpec, seed: int, ex: ExecutorState) => RecoveryScript(loop, task, ex.byId, TrialState(ex.attempts, []))
  }

  lemma PayAllAppend(byId: Catalog, st: TrialState, a: seq<PayCall>, b: seq<PayCall>)
    ensures PayAll(byId, st, a + b) == PayAll(byId, PayAll(byId, st, a), b)
  {
    FoldAppend(Payer(byId), st, a, b);
  }

  // ----- the loops

  /** Trying a vendor: how it ends and the state that its calls lead to. */
  function TryRun(loop: Loop, byId: Catalog, st: TrialState, call: PayCall, left: nat): (Tried, TrialState) {
    var (tried, calls) := Try(loop, byId, st, call, left);
    (tried, PayAll(byId, st, calls))
  }

  lemma TryOver(loop: Loop, byId: Catalog, st: TrialState, call: PayCall)
    ensures TryRun(loop, byId, st, call, 0) == (Exhausted, st)
  {
  }

  /** One try: its payment comes first, and a caught refusal goes on from the state it left. */
  lemma TryStep(loop: Loop, byId: Catalog, st: TrialState, call: PayCall, left: nat)
    requires left > 0
    ensures var (reply, after) := ViewPay(byId, st, call);
            TryRun(loop, byId, st, call, left) ==
              match reply {
                case Paid(p) => (Success(p), after)
                case Raised(e) =>
                  if Catches(loop, e) then TryRun(loop, byId, after, call, left - 1) else (Crashed(e), after)
              }
  {
    var after := ViewPay(byId, st, call).1;
    PayOne(byId, st, call);
    PayAllAppend(byId, st, [call], Try(loop, byId, after, call, left - 1).1);
  }

  /** One payment of the loop, on the way to where it is bound to end. */
  method PayAgain(loop: Loop, view: RecordingView, call: PayCall, ghost left: nat, ghost end: (Tried, TrialState))
    returns (reply: Reply)
    requires left > 0 && TryRun(loop, view.inner.byId, view.State(), call, left) == end
    modifies view`calls, view.inner`attempts
    ensures match reply {
              case Paid(p) => end == (Success(p), view.State())
              case Raised(e) =>
                if Catches(loop, e) then TryRun(loop, view.inner.byId, view.State(), call, left - 1) == end
                else end == (Crashed(e), view.State())
            }
  {
    TryStep(loop, view.inner.byId, view.State(), call, left);
    reply := view.Pay(call);
  }

  method TryVendor(loop: Loop, view: RecordingView, call: PayCall) returns (tried: Tried)
    modifies view`calls, view.inner`attempts
    ensures (tried, view.State()) == TryRun(loop, view.inner.byId, old(view.State()), call, loop.attempts)
  {
    ghost var end := TryRun(loop, view.inner.byId, view.State(), call, loop.attempts);
    ghost var left := loop.attempts;
    for i := 0 to loop.attempts
      invariant left == loop.attempts - i
      invariant TryRun(loop, view.inner.byId, view.State(), call, left) == end
    {
      var reply := PayAgain(loop, view, call, left, end);
      left := left - 1;
      match reply {
        case Paid(p) => return Success(p);
        case Raised(e) =>
          if !Catches(loop, e) {
            return Crashed(e);
          }
      }
    }
    TryOver(loop, view.inner.byId, view.State(), call);
    return Exhausted;
  }

  /** Falling back over the vendors: how it ends and the state that its calls lead to. */
  function FallRun(loop: Loop, cap: real, screen: Vendor -> Result<string>, byId: Catalog, st: TrialState, cs: seq<Vendor>)
    : (Ending, TrialState)
  {
    var script := FallBack(loop, cap, screen, byId, st, cs);
    (script.ending, PayAll(byId, st, script.calls))
  }

  lemma FallStep(loop: Loop, cap: real, screen: Vendor -> Result<string>, byId: Catalog, st: TrialState, cs: seq<Vendor>)
    requires cs != []
    ensures FallRun(loop, cap, screen, byId, st, cs) ==
              match screen(cs[0]) {
                case Err(PriceAnomaly) => FallRun(loop, cap, screen, byId, st, cs[1..])
                case Err(e) => (Propagated(e), st)
                case Ok(target) =>
                  var (tried, after) := TryRun(loop, byId, st, PayCall(target, cap), loop.attempts);
                  match tried {
                    case Success(p) => (Returned(Bought(p)), after)
                    case Crashed(e) => (Propagated(e), after)
                    case Exhausted => FallRun(loop, cap, screen, byId, after, cs[1..])
                  }
              }
  {
    if screen(cs[0]).Ok? {
      var calls := Try(loop, byId, st, PayCall(screen(cs[0]).value, cap), loop.attempts).1;
      PayAllAppend(byId, st, calls, FallBack(loop, cap, screen, byId, PayAll(byId, st, calls), cs[1..]).calls);
    }
  }

  lemma FallOver(loop: Loop, cap: real, screen: Vendor -> Result<string>, byId: Catalog, st: TrialState)
    ensures FallRun(loop, cap, screen, byId, st, []) == (Returned(Escalated(loop.giveUp, 0.0)), st)
  {
  }

  method RunLoop(loop: Loop, task: TaskSpec, view: RecordingView) returns (ending: Ending)
    modifies view`calls, view.inner`attempts
    ensures var script := RecoveryScript(loop, task, view.inner.byId, old(view.State()));
            && ending == script.ending
            && view.State() == PayAll(view.inner.byId, old(view.State()), script.calls)
  {
    ending := RunSorted(loop, task.mandate.budgetCap, Screen(loop, task), SortByPrice(InPolicyCandidates(task)), view);
  }

  method RunSorted(loop: Loop, cap: real, screen: Vendor -> Result<string>, cs: seq<Vendor>, view: RecordingView)
    returns (ending: Ending)
    modifies view`calls, view.inner`attempts
    ensures (ending, view.State()) == FallRun(loop, cap, screen, view.inner.byId, old(view.State()), cs)
  {
    ghost var end := FallRun(loop, cap, screen, view.inner.byId, view.State(), cs);
    for i := 0 to |cs|
      invariant FallRun(loop, cap, screen, view.inner.byId, view.State(), cs[i..]) == end
    {
      assert cs[i..][1..] == cs[i + 1..];
      FallStep(loop, cap, screen, view.inner.byId, view.State(), cs[i..]);
      var screened := screen(cs[i]);
      if screened.Ok? {
        var tried := TryVendor(loop, view, PayCall(screened.value, cap));
        match tried {
          case Success(p) => return Returned(Bought(p));
          case Crashed(e) => return Propagated(e);
          case Exhausted =>
        }
      } else if screened.error != PriceAnomaly {
        return Propagated(screened.error);
      }
    }
    FallOver(loop, cap, screen, view.inner.byId, view.State());
    return Returned(Escalated(loop.giveUp, 0.0));
  }

  // ----- self-consistent tasks

  predicate IsUnpurchasable(task: TaskSpec, v: Vendor) {
    v.down || CheckPurchase(task, v.vendorId) == Err(PriceAnomaly)
  }

  function CheapestPurchasable(task: TaskSpec): Option<Vendor> {
    FirstMin((v: Vendor) => v.price as real, Filter((v: Vendor) => !IsUnpurchasable(task, v), InPolicyCandidates(task)))
  }

  /** The expected purchase is the cheapest purchasable candidate within its stated price, and
      none is expected exactly where there is no such candidate. */
  predicate SelfConsistent(task: TaskSpec) {
    match (task.grading.expected, CheapestPurchasable(task))
    case (None, None) => true
    case (Some(exp), Some(target)) => target.vendorId == exp.vendorId && target.price <= exp.maxPrice
    case _ => false
  }

  /** The loop can deal with every fault that the task's candidates can show: it passes over
      each unpurchasable one, and its tries outlast the refusals of each of the others. */
  predicate Equipped(loop: Loop, task: TaskSpec) {
    forall c :: c in InPolicyCandidates(task) ==>
      if IsUnpurchasable(task, c) then
        (loop.screensPrices && !PriceSane(task, c)) || (loop.catchesUnreachable && c.down)
      else
        c.failsNextNAttempts < loop.attempts && (loop.catchesRejected || c.failsNextNAttempts == 0)
  }

  // ----- the first purchasable vendor in price order is the cheapest, ties to the first listed

  predicate SortedByPrice(vs: seq<Vendor>) {
    forall i, j :: 0 <= i < j < |vs| ==> vs[i].price <= vs[j].price
  }

  lemma {:induction false} InsertKeeps(v: Vendor, sorted: seq<Vendor>)
    ensures multiset(Insert(v, sorted)) == multiset(sorted) + multiset{v}
  {
    if sorted != [] {
      assert sorted == [sorted[0]] + sorted[1..];
      InsertKeeps(v, sorted[1..]);
    }
  }

  lemma {:induction false} InsertSorts(v: Vendor, sorted: seq<Vendor>)
    requires SortedByPrice(sorted)
    ensures SortedByPrice(Insert(v, sorted))
  {
    if sorted != [] && v.price > sorted[0].price {
      InsertSorts(v, sorted[1..]);
      InsertAbove(v, sorted[1..], sorted[0].price);
      LeastFirst(sorted[0], Insert(v, sorted[1..]));
    } else {
      LeastFirst(v, sorted);
    }
  }

  lemma LeastFirst(w: Vendor, sorted: seq<Vendor>)
    requires SortedByPrice(sorted) && forall i :: 0 <= i < |sorted| ==> w.price <= sorted[i].price
    ensures SortedByPrice([w] + sorted)
  {
  }

  lemma {:induction false} InsertAbove(v: Vendor, sorted: seq<Vendor>, x: real)
    requires x <= v.price && forall i :: 0 <= i < |sorted| ==> x <= sorted[i].price
    ensures forall i :: 0 <= i < |Insert(v, sorted)| ==> x <= Insert(v, sorted)[i].price
  {
    if sorted != [] && v.price > sorted[0].price {
      InsertAbove(v, sorted[1..], x);
    }
  }

  lemma {:induction false} SortSorts(vs: seq<Vendor>)
    ensures SortedByPrice(SortByPrice(vs))
    ensures multiset(SortByPrice(vs)) == multiset(vs)
  {
    if vs != [] {
      SortSorts(vs[1..]);
      InsertSorts(vs[0], SortByPrice(vs[1..]));
      InsertKeeps(vs[0], SortByPrice(vs[1..]));
      assert vs == [vs[0]] + vs[1..];
    }
  }

  lemma {:induction false} FindInsert(p: Vendor -> bool, v: Vendor, sorted: seq<Vendor>)
    requires SortedByPrice(sorted)
    ensures var found := Find(p, sorted);
            Find(p, Insert(v, sorted)) == if p(v) && (found.None? || v.price <= found.value.price) then Some(v) else found
  {
    if sorted != [] && v.price > sorted[0].price {
      FindInsert(p, v, sorted[1..]);
    }
  }

  lemma {:induction false} FirstInOrder(p: Vendor -> bool, vs: seq<Vendor>)
    ensures Find(p, SortByPrice(vs)) == FirstMin((v: Vendor) => v.price as real, Filter(p, vs))
  {
    if vs != [] {
      FirstInOrder(p, vs[1..]);
      SortSorts(vs[1..]);
      FindInsert(p, vs[0], SortByPrice(vs[1..]));
      var rest := Filter(p, vs[1..]);
      if p(vs[0]) {
        assert Filter(p, vs)[1..] == rest;
      } else {
        assert Filter(p, vs) == rest;
      }
    }
  }

  // ----- winning

  /** A vendor that is down outlasts every try and leaves no trace. */
  lemma {:induction false} TryDown(loop: Loop, byId: Catalog, st: TrialState, call: PayCall, left: nat)
    requires loop.catchesUnreachable && st.calls == []
    requires call.target in byId && byId[call.target].price <= call.maxAmount && byId[call.target].down
    ensures TryRun(loop, byId, st, call, left) == (Exhausted, st)
    decreases left
  {
    if left > 0 {
      TryDown(loop, byId, st, call, left - 1);
      TryStep(loop, byId, st, call, left);
    }
  }

  /** A vendor that is up serves once the tries outnumber its remaining refusals. */
  lemma {:induction false} TryServes(loop: Loop, byId: Catalog, st: TrialState, call: PayCall, left: nat)
    requires Effective(byId, call) && st.calls == []
    requires var fails := byId[call.target].failsNextNAttempts;
             && AttemptsOf(st.attempts, call.target) <= fails < AttemptsOf(st.attempts, call.target) + left
             && (fails == 0 || loop.catchesRejected)
    ensures var (tried, end) := TryRun(loop, byId, st, call, left);
            tried == Success(SyntheticPurchase(byId[call.target])) && end.calls == [SyntheticPurchase(byId[call.target])]
    decreases left
  {
    TryStep(loop, byId, st, call, left);
    EffectiveCall(byId, st, call);
    if AttemptsOf(st.attempts, call.target) < byId[call.target].failsNextNAttempts {
      TryServes(loop, byId, ViewPay(byId, st, call).1, call, left - 1);
    }
  }

  lemma EffectiveCall(byId: Catalog, st: TrialState, call: PayCall)
    requires Effective(byId, call) && st.calls == []
    ensures var (reply, after) := ViewPay(byId, st, call);
            && AttemptsOf(after.attempts, call.target) == AttemptsOf(st.attempts, call.target) + 1
            && if AttemptsOf(st.attempts, call.target) < byId[call.target].failsNextNAttempts
               then reply == Raised(SettlementRejected(None)) && after.calls == []
               else reply == Paid(SyntheticPurchase(byId[call.target])) && after.calls == [reply.purchase]
  {
  }

  /** A vendor that is up and refuses as long as the loop tries leaves only its own counter behind. */
  lemma {:induction false} TryRefused(loop: Loop, byId: Catalog, st: TrialState, call: PayCall, left: nat)
    requires Effective(byId, call) && st.calls == [] && loop.catchesRejected
    requires AttemptsOf(st.attempts, call.target) + left <= byId[call.target].failsNextNAttempts
    ensures var (tried, end) := TryRun(loop, byId, st, call, left);
            && tried == Exhausted && end.calls == []
            && forall k :: k != call.target ==> AttemptsOf(end.attempts, k) == AttemptsOf(st.attempts, k)
    decreases left
  {
    if left > 0 {
      TryStep(loop, byId, st, call, left);
      EffectiveCall(byId, st, call);
      TryRefused(loop, byId, ViewPay(byId, st, call).1, call, left - 1);
    }
  }

  /** The loop's tries of a vendor all end in refusals that it catches. */
  predicate GivesUpOn(loop: Loop, c: Vendor) {
    || loop.attempts == 0
    || (c.down && loop.catchesUnreachable)
    || (!c.down && loop.catchesRejected && c.failsNextNAttempts >= loop.attempts)
  }

  /** The loop passes over the candidate: its price is screened out, or it is given up on. */
  predicate Skips(loop: Loop, dear: bool, c: Vendor) {
    (loop.screensPrices && dear) || GivesUpOn(loop, c)
  }

  /** The exception that the loop meets at a vendor and does not catch, if any. */
  function Crash(c: Vendor): Option<Exn> {
    if c.down then Some(EndpointUnreachable) else if c.failsNextNAttempts > 0 then Some(SettlementRejected(None)) else None
  }

  predicate CatchesRefusals(loop: Loop, c: Vendor) {
    if c.down then loop.catchesUnreachable else loop.catchesRejected
  }

  /** How trying a vendor for the first time ends. */
  ghost predicate TriedAs(loop: Loop, st: TrialState, c: Vendor, tried: Tried, end: TrialState) {
    if GivesUpOn(loop, c) then
      && tried == Exhausted && end.calls == []
      && forall k :: k != c.vendorId ==> AttemptsOf(end.attempts, k) == AttemptsOf(st.attempts, k)
    else if Crash(c).Some? && !CatchesRefusals(loop, c) then tried == Crashed(Crash(c).value) && end.calls == []
    else tried == Success(SyntheticPurchase(c)) && end.calls == [SyntheticPurchase(c)]
  }

  lemma TriesOnce(loop: Loop, byId: Catalog, st: TrialState, c: Vendor, cap: real)
    requires st.calls == [] && c.vendorId in byId && byId[c.vendorId] == c && c.price <= cap
    requires AttemptsOf(st.attempts, c.vendorId) == 0
    ensures var (tried, end) := TryRun(loop, byId, st, PayCall(c.vendorId, cap), loop.attempts);
            TriedAs(loop, st, c, tried, end)
  {
    var call := PayCall(c.vendorId, cap);
    if loop.attempts == 0 {
      TryOver(loop, byId, st, call);
    } else if c.down && loop.catchesUnreachable {
      TryDown(loop, byId, st, call, loop.attempts);
    } else if !c.down && loop.catchesRejected && c.failsNextNAttempts >= loop.attempts {
      TryRefused(loop, byId, st, call, loop.attempts);
    } else if !c.down && (loop.catchesRejected || c.failsNextNAttempts == 0) {
      TryServes(loop, byId, st, call, loop.attempts);
    } else {
      TryStep(loop, byId, st, call, loop.attempts);
    }
  }

  /** The candidates that are still to come have not been tried. */
  ghost predicate Untried(cap: real, byId: Catalog, st: TrialState, cs: seq<Vendor>) {
    && st.calls == []
    && (forall i :: 0 <= i < |cs| ==>
          && cs[i].vendorId in byId && byId[cs[i].vendorId] == cs[i] && cs[i].price <= cap
          && AttemptsOf(st.attempts, cs[i].vendorId) == 0)
    && (forall i, j :: 0 <= i < j < |cs| ==> cs[i].vendorId != cs[j].vendorId)
  }

  ghost predicate Screened(loop: Loop, dear: Vendor -> bool, screen: Vendor -> Result<string>, cs: seq<Vendor>) {
    forall c :: c in cs ==> screen(c) == if loop.screensPrices && dear(c) then Err(PriceAnomaly) else Ok(c.vendorId)
  }

  /** The first candidate that is not passed over decides. */
  ghost predicate EndsAs(loop: Loop, decider: Option<Vendor>, ending: Ending, calls: seq<ExecutedPurchase>) {
    match decider
    case None => ending == Returned(Escalated(loop.giveUp, 0.0)) && calls == []
    case Some(v) =>
      if Crash(v).Some? && !CatchesRefusals(loop, v) then ending == Propagated(Crash(v).value)
      else ending == Returned(Bought(SyntheticPurchase(v))) && calls == [SyntheticPurchase(v)]
  }

  lemma {:induction false} FallBackDecides(loop: Loop, dear: Vendor -> bool, cap: real, screen: Vendor -> Result<string>,
                                           byId: Catalog, st: TrialState, cs: seq<Vendor>)
    requires Untried(cap, byId, st, cs) && Screened(loop, dear, screen, cs)
    ensures var (ending, end) := FallRun(loop, cap, screen, byId, st, cs);
            EndsAs(loop, Find((c: Vendor) => !Skips(loop, dear(c), c), cs), ending, end.calls)
    decreases |cs|
  {
    if cs == [] {
      FallOver(loop, cap, screen, byId, st);
    } else {
      var c := cs[0];
      FallStep(loop, cap, screen, byId, st, cs);
      assert forall i :: 0 <= i < |cs[1..]| ==> cs[1..][i] == cs[i + 1];
      if loop.screensPrices && dear(c) {
        FallBackDecides(loop, dear, cap, screen, byId, st, cs[1..]);
      } else {
        TriesOnce(loop, byId, st, c, cap);
        if GivesUpOn(loop, c) {
          FallBackDecides(loop, dear, cap, screen, byId, TryRun(loop, byId, st, PayCall(c.vendorId, cap), loop.attempts).1, cs[1..]);
        }
      }
    }
  }

  /** The first cheapest of these candidates that is not passed over. */
  function Decider(loop: Loop, dear: Vendor -> bool, candidates: seq<Vendor>): Option<Vendor> {
    FirstMin((v: Vendor) => v.price as real, Filter((c: Vendor) => !Skips(loop, dear(c), c), candidates))
  }

  lemma SortedDecides(loop: Loop, dear: Vendor -> bool, cap: real, screen: Vendor -> Result<string>, byId: Catalog,
                      candidates: seq<Vendor>)
    requires DistinctVendorIds(candidates) && Screened(loop, dear, screen, candidates)
    requires forall c :: c in candidates ==> c.vendorId in byId && byId[c.vendorId] == c && c.price <= cap
    ensures var (ending, end) := FallRun(loop, cap, screen, byId, FRESH, SortByPrice(candidates));
            EndsAs(loop, Decider(loop, dear, candidates), ending, end.calls)
  {
    var cs := SortByPrice(candidates);
    SortSorts(candidates);
    SortedDistinct(candidates, cs);
    forall c | c in cs ensures c in candidates {
      assert c in multiset(cs);
    }
    FallBackDecides(loop, dear, cap, screen, byId, FRESH, cs);
    FirstInOrder((c: Vendor) => !Skips(loop, dear(c), c), candidates);
  }

  /** The first cheapest candidate that is not passed over decides, for every loop and every task in
      which ids name one vendor each. */
  lemma RecoveryDecides(loop: Loop, task: TaskSpec, dear: Vendor -> bool)
    requires DistinctVendorIds(task.vendors) && UrlsApart(task.vendors)
    requires forall c :: c in InPolicyCandidates(task) ==> (dear(c) <==> TooDear(task, c))
    ensures var script := RecoveryScript(loop, task, ById(task.vendors), FRESH);
            EndsAs(loop, Decider(loop, dear, InPolicyCandidates(task)), script.ending,
                   PayAll(ById(task.vendors), FRESH, script.calls).calls)
  {
    CandidatesDistinct(task);
    forall c | c in InPolicyCandidates(task)
      ensures c.vendorId in ById(task.vendors) && ById(task.vendors)[c.vendorId] == c && c.price <= task.mandate.budgetCap
      ensures Screen(loop, task)(c) == if loop.screensPrices && dear(c) then Err(PriceAnomaly) else Ok(c.vendorId)
    {
      CandidateInCatalog(task, c);
      CandidateScreened(loop, task, c, dear(c));
    }
    SortedDecides(loop, dear, task.mandate.budgetCap, Screen(loop, task), ById(task.vendors), InPolicyCandidates(task));
  }

  lemma CandidateInCatalog(task: TaskSpec, c: Vendor)
    requires DistinctVendorIds(task.vendors) && c in InPolicyCandidates(task)
    ensures c.vendorId in ById(task.vendors) && ById(task.vendors)[c.vendorId] == c && c.price <= task.mandate.budgetCap
  {
    CandidateIff(task, c);
    DistinctById(task.vendors, ById(task.vendors)[c.vendorId], c);
  }

  /** A candidate's own id is checked against its own price. */
  lemma ChecksItself(task: TaskSpec, c: Vendor)
    requires DistinctVendorIds(task.vendors) && UrlsApart(task.vendors) && c in InPolicyCandidates(task)
    ensures CheckPurchase(task, c.vendorId) == if TooDear(task, c) then Err(PriceAnomaly) else Ok(c)
  {
    CandidateIff(task, c);
    CheckPurchaseById(task, c);
    DearExactly(task, c);
  }

  lemma ScreensAs(loop: Loop, task: TaskSpec, c: Vendor, dear: bool)
    requires CheckPurchase(task, c.vendorId) == if dear then Err(PriceAnomaly) else Ok(c)
    ensures Screen(loop, task)(c) == if loop.screensPrices && dear then Err(PriceAnomaly) else Ok(c.vendorId)
  {
  }

  lemma CandidateScreened(loop: Loop, task: TaskSpec, c: Vendor, dear: bool)
    requires DistinctVendorIds(task.vendors) && UrlsApart(task.vendors) && c in InPolicyCandidates(task)
    requires dear <==> TooDear(task, c)
    ensures Screen(loop, task)(c) == if loop.screensPrices && dear then Err(PriceAnomaly) else Ok(c.vendorId)
  {
    ChecksItself(task, c);
    ScreensAs(loop, task, c, dear);
  }

  lemma SortedDistinct(vs: seq<Vendor>, ws: seq<Vendor>)
    requires DistinctVendorIds(vs) && multiset(vs) == multiset(ws)
    ensures DistinctVendorIds(ws)
  {
    var f, g := Renumber(vs, ws);
    forall i, j | 0 <= i < j < |ws| ensures ws[i].vendorId != ws[j].vendorId {
      assert g[f[i]] == i && g[f[j]] == j;
      assert ws[i] == vs[f[i]] && ws[j] == vs[f[j]];
      if f[i] < f[j] {
        assert vs[f[i]].vendorId != vs[f[j]].vendorId;
      } else {
        assert vs[f[j]].vendorId != vs[f[i]].vendorId;
      }
    }
  }

  /** Which tasks the three loops are equipped for: without transient faults, the fallback loops
      for a task without a price multiplier, and the screening loop for one without down vendors. */
  lemma LoopsEquipped(task: TaskSpec)
    requires DistinctVendorIds(task.vendors) && UrlsApart(task.vendors)
    requires forall c :: c in InPolicyCandidates(task) ==> c.failsNextNAttempts == 0
    ensures task.mandate.priceSanityMultiplier.None? ==>
              Equipped(FALLS_BACK_ON_UNREACHABLE, task) && Equipped(GIVES_UP_AFTER_3_TRIES, task)
    ensures (forall c :: c in InPolicyCandidates(task) ==> !c.down) ==> Equipped(SKIPS_ANOMALOUS_PRICE, task)
  {
    forall c | c in InPolicyCandidates(task)
      ensures IsUnpurchasable(task, c) <==> c.down || !PriceSane(task, c)
    {
      CheckPurchaseById(task, c);
    }
  }

  /** What the three scripted loops pass over, and what they say when they give up; none of them catches
      a refusal. */
  lemma ScriptedLoops(dear: bool, c: Vendor)
    ensures Skips(FALLS_BACK_ON_UNREACHABLE, dear, c) <==> c.down
    ensures Skips(GIVES_UP_AFTER_3_TRIES, dear, c) <==> c.down
    ensures Skips(SKIPS_ANOMALOUS_PRICE, dear, c) <==> dear
    ensures forall l :: l in {FALLS_BACK_ON_UNREACHABLE, GIVES_UP_AFTER_3_TRIES, SKIPS_ANOMALOUS_PRICE} ==> !l.catchesRejected
    ensures FALLS_BACK_ON_UNREACHABLE.giveUp.Text() == GIVES_UP_AFTER_3_TRIES.giveUp.Text() == "no_reachable_vendor"
    ensures SKIPS_ANOMALOUS_PRICE.giveUp.Text() == "no_fair_price_vendor"
  {
  }

  function MaxFails(vs: seq<Vendor>): (m: nat)
    ensures forall v :: v in vs ==> v.failsNextNAttempts <= m
  {
    if vs == [] then 0 else
      var rest := MaxFails(vs[1..]);
      assert vs == [vs[0]] + vs[1..];
      if vs[0].failsNextNAttempts > rest then vs[0].failsNextNAttempts else rest
  }

  /** The loop that screens prices, catches both faults and tries once more than any candidate fails. */
  function Resilient(task: TaskSpec): Loop {
    Loop(MaxFails(InPolicyCandidates(task)) + 1, true, true, true, NoReachableVendor)
  }

  lemma ResilientEquipped(task: TaskSpec)
    requires DistinctVendorIds(task.vendors) && UrlsApart(task.vendors)
    ensures Equipped(Resilient(task), task)
  {
    forall c | c in InPolicyCandidates(task)
      ensures IsUnpurchasable(task, c) <==> c.down || !PriceSane(task, c)
    {
      CheckPurchaseById(task, c);
    }
  }

  /** An equipped loop passes over exactly the candidates that cannot be bought, and crashes at none. */
  lemma EquippedSkips(loop: Loop, task: TaskSpec, c: Vendor, dear: bool)
    requires DistinctVendorIds(task.vendors) && UrlsApart(task.vendors)
    requires Equipped(loop, task) && c in InPolicyCandidates(task) && (dear <==> TooDear(task, c))
    ensures Skips(loop, dear, c) <==> IsUnpurchasable(task, c)
    ensures !Skips(loop, dear, c) ==> Crash(c).None? || CatchesRefusals(loop, c)
  {
    ChecksItself(task, c);
    DearExactly(task, c);
    EquippedFor(loop, c, dear, IsUnpurchasable(task, c));
  }

  lemma EquippedFor(loop: Loop, c: Vendor, dear: bool, unpurchasable: bool)
    requires unpurchasable <==> c.down || dear
    requires if unpurchasable then (loop.screensPrices && dear) || (loop.catchesUnreachable && c.down)
             else c.failsNextNAttempts < loop.attempts && (loop.catchesRejected || c.failsNextNAttempts == 0)
    ensures Skips(loop, dear, c) <==> unpurchasable
    ensures !Skips(loop, dear, c) ==> Crash(c).None? || CatchesRefusals(loop, c)
  {
  }

  lemma {:induction false} FilterSame(p: Vendor -> bool, q: Vendor -> bool, vs: seq<Vendor>)
    requires forall v | v in vs :: p(v) <==> q(v)
    ensures Filter(p, vs) == Filter(q, vs)
  {
    if vs != [] {
      FilterSame(p, q, vs[1..]);
    }
  }

  /** The loop buys the cheapest purchasable candidate and nothing else, or escalates where there is
      none. */
  lemma RecoveryBuysCheapest(loop: Loop, task: TaskSpec)
    requires DistinctVendorIds(task.vendors) && UrlsApart(task.vendors)
    requires Equipped(loop, task)
    ensures var script := RecoveryScript(loop, task, ById(task.vendors), FRESH);
            match CheapestPurchasable(task)
            case Some(v) =>
              && script.ending == Returned(Bought(SyntheticPurchase(v)))
              && PayAll(ById(task.vendors), FRESH, script.calls).calls == [SyntheticPurchase(v)]
            case None =>
              && script.ending == Returned(Escalated(loop.giveUp, 0.0))
              && PayAll(ById(task.vendors), FRESH, script.calls).calls == []
  {
    var dear := (c: Vendor) => TooDear(task, c);
    RecoveryDecides(loop, task, dear);
    EquippedDecider(loop, task, dear);
  }

  lemma EquippedDecider(loop: Loop, task: TaskSpec, dear: Vendor -> bool)
    requires DistinctVendorIds(task.vendors) && UrlsApart(task.vendors) && Equipped(loop, task)
    requires forall c :: c in InPolicyCandidates(task) ==> (dear(c) <==> TooDear(task, c))
    ensures var v := Decider(loop, dear, InPolicyCandidates(task));
            v == CheapestPurchasable(task) && (v.Some? ==> Crash(v.value).None? || CatchesRefusals(loop, v.value))
  {
    var kept, fine := (c: Vendor) => !Skips(loop, dear(c), c), (v: Vendor) => !IsUnpurchasable(task, v);
    forall c | c in InPolicyCandidates(task)
      ensures kept(c) <==> fine(c)
      ensures kept(c) ==> Crash(c).None? || CatchesRefusals(loop, c)
    {
      EquippedSkips(loop, task, c, dear(c));
    }
    FilterSame(kept, fine, InPolicyCandidates(task));
    FirstMinIsFirst((v: Vendor) => v.price as real, Filter(kept, InPolicyCandidates(task)));
  }

  lemma CheapestIsCandidate(task: TaskSpec)
    ensures CheapestPurchasable(task).Some? ==> CheapestPurchasable(task).value in InPolicyCandidates(task)
  {
    FirstMinIsFirst((v: Vendor) => v.price as real, Filter((v: Vendor) => !IsUnpurchasable(task, v), InPolicyCandidates(task)));
  }

  lemma GradesSelfConsistency(task: TaskSpec, target: Option<Vendor>, reason: Reason)
    requires target.Some? ==> target.value.price <= task.mandate.budgetCap
    ensures match target {
              case Some(v) =>
                var p := SyntheticPurchase(v);
                GradeOf(Bought(p), task, [p]) == PASS <==>
                  task.grading.expected.Some? && v.vendorId == task.grading.expected.value.vendorId
                  && v.price <= task.grading.expected.value.maxPrice
              case None =>
                GradeOf(Escalated(reason, 0.0), task, []) == PASS <==> task.grading.expected.None?
            }
  {
    if target.Some? {
      HonestPurchase(SyntheticPurchase(target.value));
    } else {
      assert TotalPaid([]) == 0.0;
    }
  }

  /** An equipped loop on a synthetic task with distinct ids buys exactly the cheapest purchasable
      candidate, or buys nothing and escalates where there is none. */
  predicate RecoveredRecord(loop: Loop, task: TaskSpec, r: TrialRecord) {
    match CheapestPurchasable(task)
    case Some(v) => Buys(v, Ok(r)) && r.result.cost == 0.0
    case None => AsksHuman(Ok(r), loop.giveUp.Text()) && r.result.cost == 0.0
  }

  /** The candidates that the loop does not pass over. */
  function NotSkipped(loop: Loop, task: TaskSpec): seq<Vendor> {
    Filter((c: Vendor) => !Skips(loop, TooDear(task, c), c), InPolicyCandidates(task))
  }

  /** What a trial comes to when this candidate decides: a fault that is not caught aborts the run. */
  predicate Decides(loop: Loop, v: Vendor, r: Result<TrialRecord>) {
    if v.down then r == Err(EndpointUnreachable)
    else if v.failsNextNAttempts > 0 && !loop.catchesRejected then r == Err(SettlementRejected(None))
    else Buys(v, r) && r.value.result.cost == 0.0
  }

  /** For every loop and every task in which ids name one vendor each: the first cheapest candidate that
      is not passed over decides the trial, and without one the loop gives up. */
  lemma RecoveryExactly(loop: Loop, task: TaskSpec, seed: int)
    requires task.kind.Synthetic? && DistinctVendorIds(task.vendors) && UrlsApart(task.vendors)
    ensures var r := DefaultTrial(task, Recoverer(loop))(seed);
            && (NotSkipped(loop, task) == [] ==> AsksHuman(r, loop.giveUp.Text()) && r.value.result.cost == 0.0)
            && (forall v :: FirstCheapestVendor(NotSkipped(loop, task), v) ==> Decides(loop, v, r))
  {
    var script := RecoveryScript(loop, task, ById(task.vendors), FRESH);
    var dear := (c: Vendor) => TooDear(task, c);
    RecoveryDecides(loop, task, dear);
    ScriptTrial(task, Recoverer(loop), seed, script);
    FirstMinVendor(NotSkipped(loop, task));
    FilterSame((c: Vendor) => !Skips(loop, dear(c), c), (c: Vendor) => !Skips(loop, TooDear(task, c), c), InPolicyCandidates(task));
    var decider := Decider(loop, dear, InPolicyCandidates(task));
    if decider.Some? {
      NotSkippedDecides(loop, task, decider.value);
    }
    EndingRecorded(loop, decider, DefaultTrial(task, Recoverer(loop))(seed), script.ending,
                   PayAll(ById(task.vendors), FRESH, script.calls).calls);
  }

  lemma NotSkippedDecides(loop: Loop, task: TaskSpec, v: Vendor)
    requires FirstCheapestVendor(NotSkipped(loop, task), v)
    ensures !GivesUpOn(loop, v)
  {
    assert v in NotSkipped(loop, task);
  }

  lemma EndingRecorded(loop: Loop, decider: Option<Vendor>, r: Result<TrialRecord>, ending: Ending, calls: seq<ExecutedPurchase>)
    requires EndsAs(loop, decider, ending, calls) && RecordsEnding(ending, calls, r)
    requires decider.Some? ==> !GivesUpOn(loop, decider.value)
    ensures match decider
            case None => AsksHuman(r, loop.giveUp.Text()) && r.value.result.cost == 0.0
            case Some(v) => Decides(loop, v, r)
  {
  }

  /** What a trial makes of its script's ending. */
  predicate RecordsEnding(ending: Ending, calls: seq<ExecutedPurchase>, r: Result<TrialRecord>) {
    match ending
    case Returned(result) => r.Ok? && r.value.result == result && r.value.executed == calls
    case ReturnedOther => r == Err(TypeError)
    case Propagated(e) => r == Err(e)
  }

  lemma ScriptTrial(task: TaskSpec, agent: AgentFn, seed: int, script: Script)
    requires task.kind.Synthetic? && agent(task, seed, ExecutorState(ById(task.vendors), map[])) == script
    ensures RecordsEnding(script.ending, PayAll(ById(task.vendors), FRESH, script.calls).calls, DefaultTrial(task, agent)(seed))
  {
  }

  lemma ReturningTrial(task: TaskSpec, agent: AgentFn, seed: int, script: Script)
    requires task.kind.Synthetic? && script.ending.Returned?
    requires agent(task, seed, ExecutorState(ById(task.vendors), map[])) == script
    ensures var executed := PayAll(ById(task.vendors), FRESH, script.calls).calls;
            DefaultTrial(task, agent)(seed)
            == Ok(TrialRecord(script.ending.result, executed, GradeOf(script.ending.result, task, executed)))
  {
  }

  lemma RecoveryTrial(loop: Loop, task: TaskSpec, seed: int)
    requires task.kind.Synthetic? && Equipped(loop, task)
    requires DistinctVendorIds(task.vendors) && UrlsApart(task.vendors)
    ensures var r := DefaultTrial(task, Recoverer(loop))(seed);
            && r.Ok?
            && RecoveredRecord(loop, task, r.value)
            && (r.value.outcome == PASS <==> SelfConsistent(task))
  {
    RecoveryBuysCheapest(loop, task);
    ReturningTrial(task, Recoverer(loop), seed, RecoveryScript(loop, task, ById(task.vendors), FRESH));
    TargetAffordable(task);
    GradesSelfConsistency(task, CheapestPurchasable(task), loop.giveUp);
  }

  lemma TargetAffordable(task: TaskSpec)
    ensures CheapestPurchasable(task).Some? ==> CheapestPurchasable(task).value.price <= task.mandate.budgetCap
  {
    CheapestIsCandidate(task);
    if CheapestPurchasable(task).Some? {
      CandidateIff(task, CheapestPurchasable(task).value);
    }
  }

  /** Every trial of such a loop passes exactly when the task is self-consistent. */
  lemma RecoveryWins(loop: Loop, task: TaskSpec, b: int, n: nat)
    requires task.kind.Synthetic? && Equipped(loop, task)
    requires DistinctVendorIds(task.vendors) && UrlsApart(task.vendors)
    ensures var run := Trials(task, Recoverer(loop), b, None, n).records;
            && run.Ok? && |run.value| == n
            && forall r :: r in run.value ==> RecoveredRecord(loop, task, r) && (r.outcome == PASS <==> SelfConsistent(task))
  {
    DefaultRunTrialwise(task, Recoverer(loop), b, n);
    forall seed: int
      ensures var r := DefaultTrial(task, Recoverer(loop))(seed);
              r.Ok? && RecoveredRecord(loop, task, r.value) && (r.value.outcome == PASS <==> SelfConsistent(task))
    {
      RecoveryTrial(loop, task, seed);
    }
  }

  /** Every self-consistent task can be won, whatever its mix of transient faults, down vendors and
      anomalous prices. */
  lemma SelfConsistentWinnable(task: TaskSpec, b: int, n: nat) returns (loop: Loop)
    requires task.kind.Synthetic? && SelfConsistent(task)
    requires DistinctVendorIds(task.vendors) && UrlsApart(task.vendors)
    ensures var run := Trials(task, Recoverer(loop), b, None, n).records;
            run.Ok? && |run.value| == n && forall r :: r in run.value ==> r.outcome == PASS
  {
    loop := Resilient(task);
    ResilientEquipped(task);
    RecoveryWins(loop, task, b, n);
  }

  /** The reported rate is one on a self-consistent task and zero on any other. */
  lemma RecoveryReport(loop: Loop, task: TaskSpec, nTrials: int, b: int)
    requires nTrials >= 1 && task.kind.Synthetic? && Equipped(loop, task)
    requires DistinctVendorIds(task.vendors) && UrlsApart(task.vendors)
    ensures Evaluate(task, Recoverer(loop), nTrials, b, None).Ok?
    ensures Evaluate(task, Recoverer(loop), nTrials, b, None).value.pass1 == if SelfConsistent(task) then 1.0 else 0.0
  {
    RecoveryWins(loop, task, b, nTrials);
    AllAlike(task, Recoverer(loop), nTrials, b, SelfConsistent(task));
  }

  /** On a self-consistent task the loop escalates in every trial or in none. Its best-price capture
      is full only if the cheapest vendor in policy can be bought: where that vendor is down or
      anomalous, a perfect recovery is reported as capturing nothing. */
  lemma RecoveryMetrics(loop: Loop, task: TaskSpec, nTrials: int, b: int)
    requires nTrials >= 1 && task.kind.Synthetic? && Equipped(loop, task) && SelfConsistent(task)
    requires DistinctVendorIds(task.vendors) && UrlsApart(task.vendors)
    ensures Evaluate(task, Recoverer(loop), nTrials, b, None).Ok?
    ensures var report, target := Evaluate(task, Recoverer(loop), nTrials, b, None).value, CheapestPurchasable(task);
            && report.escalationRate == (if target.None? then 1.0 else 0.0)
            && report.bestPriceCaptureRate ==
                 (if target.None? then None
                  else if CheapestInPolicyVendor(task) == target then Some(1.0) else Some(0.0))
  {
    RecoveryWins(loop, task, b, nTrials);
    RecoveryReport(loop, task, nTrials, b);
    MetricsOfAlike(loop, task, Trials(task, Recoverer(loop), b, None, nTrials).records.value);
  }

  lemma MetricsOfAlike(loop: Loop, task: TaskSpec, records: seq<TrialRecord>)
    requires records != [] && SelfConsistent(task) && DistinctVendorIds(task.vendors)
    requires forall r :: r in records ==> RecoveredRecord(loop, task, r) && r.outcome == PASS
    ensures var report, target := Report(task, records), CheapestPurchasable(task);
            && report.escalationRate == (if target.None? then 1.0 else 0.0)
            && report.bestPriceCaptureRate ==
                 (if target.None? then None
                  else if CheapestInPolicyVendor(task) == target then Some(1.0) else Some(0.0))
  {
    var target := CheapestPurchasable(task);
    var escalated := (r: TrialRecord) => r.result.escalations != [];
    AllOrNone(escalated, target.None?, records);
    FullOrEmptyRate(Count(escalated, records), |records|, target.None?);
    if target.Some? {
      TargetBeside(task);
      var cheapest := CheapestInPolicyVendor(task).value;
      var captured := (r: TrialRecord) => Captured(cheapest, r);
      AllOrNone(captured, cheapest == target.value, records);
      FullOrEmptyRate(Count(captured, records), |records|, cheapest == target.value);
    }
  }

  /** Where a candidate can be bought there is a cheapest one in policy, told apart by its id. */
  lemma TargetBeside(task: TaskSpec)
    requires CheapestPurchasable(task).Some? && DistinctVendorIds(task.vendors)
    ensures CheapestInPolicyVendor(task).Some?
    ensures CheapestInPolicyVendor(task).value.vendorId == CheapestPurchasable(task).value.vendorId
            <==> CheapestInPolicyVendor(task) == CheapestPurchasable(task)
  {
    CheapestIsCandidate(task);
    FirstMinIsFirst((v: Vendor) => v.price as real, InPolicyCandidates(task));
    CandidatesDistinct(task);
    if CheapestInPolicyVendor(task).value.vendorId == CheapestPurchasable(task).value.vendorId {
      DistinctById(InPolicyCandidates(task), CheapestInPolicyVendor(task).value, CheapestPurchasable(task).value);
    }
  }

  lemma AllAlike(task: TaskSpec, agent: AgentFn, nTrials: int, b: int, pass: bool)
    requires nTrials >= 1
    requires var run := Trials(task, agent, b, None, nTrials).records;
             run.Ok? && forall r :: r in run.value ==> (r.outcome == PASS <==> pass)
    ensures Evaluate(task, agent, nTrials, b, None).Ok?
    ensures Evaluate(task, agent, nTrials, b, None).value.pass1 == if pass then 1.0 else 0.0
  {
    TrialsLength(task, agent, b, None, nTrials);
    RateOfAlike(task, Trials(task, agent, b, None, nTrials).records.value, pass);
  }

  lemma RateOfAlike(task: TaskSpec, records: seq<TrialRecord>, pass: bool)
    requires records != [] && forall r :: r in records ==> (r.outcome == PASS <==> pass)
    ensures Report(task, records).pass1 == if pass then 1.0 else 0.0
  {
    AllOrNone((r: TrialRecord) => r.outcome == PASS, pass, records);
    FullOrEmptyRate(CountOutcome(PASS, records), |records|, pass);
  }

  lemma FullOrEmptyRate(count: nat, n: nat, all: bool)
    requires n > 0 && count == if all then n else 0
    ensures count as real / n as real == if all then 1.0 else 0.0
  {
  }

  lemma {:induction false} AllOrNone<T>(p: T -> bool, all: bool, s: seq<T>)
    requires forall x | x in s :: p(x) <==> all
    ensures Count(p, s) == if all then |s| else 0
  {
    if s != [] {
      AllOrNone(p, all, s[1..]);
    }
  }
}
