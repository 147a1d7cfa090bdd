/** When pay() returns and when it raises what: the exact condition of every exit. */
module PaymentLaws {
  import opened Sequences
  import opened Errors
  import opened Abi
  import opened Json
  import opened Offers
  import opened Settlement
  import opened LogBytes
  import opened PayFlow

  // ----- the terms

  /** The response carries these terms: an object in the header, or else one in the body that has
      accepts. */
  predicate TermsIn(probed: Probed, fields: map<string, Json>) {
    && probed.Response?
    && if probed.header.Some? && probed.header.value.Object? then fields == probed.header.value.fields
       else probed.body.Some? && probed.body.value.Object? && fields == probed.body.value.fields && "accepts" in fields
  }

  ghost predicate NoTerms(probed: Probed) {
    forall fields :: !TermsIn(probed, fields)
  }

  lemma OfferedExactly(probed: Probed)
    ensures forall fields :: Offered(probed) == Some(fields) <==> TermsIn(probed, fields)
    ensures Offered(probed).None? <==> NoTerms(probed)
  {
    if Offered(probed).Some? {
      assert TermsIn(probed, Offered(probed).value);
    }
  }

  /** Terms are parsed wherever they are found; without any, 402 is an empty quote and any other
      status raises. */
  lemma InspectExactly(p: Parsers, probed: Probed)
    ensures Inspect(p, probed) == Err(EndpointUnreachable) <==> probed.Unreachable?
    ensures forall status :: Inspect(p, probed) == Err(UnexpectedStatus(status))
                             <==> probed.Response? && NoTerms(probed) && probed.status == status && status != 402
    ensures forall fields :: TermsIn(probed, fields) ==> Inspect(p, probed) == ParseTerms(p, fields)
    ensures probed.Response? && NoTerms(probed) && probed.status == 402 ==> Inspect(p, probed) == Ok(Quote(1, [], None))
  {
    OfferedExactly(probed);
    if Offered(probed).Some? {
      ParseTermsRaises(p, Offered(probed).value);
    }
  }

  /** The probe was answered with terms that can be read and list these entries, or with a bare 402. */
  ghost predicate Lists(p: Parsers, probed: Probed, items: seq<Json>) {
    || (exists fields :: TermsIn(probed, fields) && !TermsRaise(p, fields) && items == ItemsIn(fields))
    || (probed.Response? && NoTerms(probed) && probed.status == 402 && items == [])
  }

  lemma ListsExactly(p: Parsers, probed: Probed)
    ensures forall items :: Lists(p, probed, items) <==> Inspect(p, probed).Ok? && items == Listed(probed)
  {
    OfferedExactly(probed);
    if Offered(probed).Some? {
      ParseTermsRaises(p, Offered(probed).value);
    }
  }

  // ----- before any money can move

  /** The offer of the first cheapest entry that the terms list and that can be paid. */
  ghost predicate Best(w: World, o: Offer) {
    exists items :: Lists(w.parsers, w.probed, items) && FirstCheapestOf(w.parsers, items, o)
  }

  ghost predicate NothingSold(w: World) {
    exists items :: Lists(w.parsers, w.probed, items) && forall i :: 0 <= i < |items| ==> !CanBePaid(w.parsers, items[i])
  }

  lemma BestQuoted(w: World)
    ensures forall o :: Best(w, o) <==> Inspect(w.parsers, w.probed).Ok? && Inspect(w.parsers, w.probed).value.best == Some(o)
    ensures NothingSold(w) <==> Inspect(w.parsers, w.probed).Ok? && Inspect(w.parsers, w.probed).value.best == None
  {
    ListsExactly(w.parsers, w.probed);
    if Inspect(w.parsers, w.probed).Ok? {
      InspectedBest(w.parsers, w.probed);
      assert Lists(w.parsers, w.probed, Listed(w.probed));
    }
  }

  predicate WithinCap(o: Offer, maxAmount: real) {
    !o.unbounded && o.amount <= maxAmount
  }

  predicate OnAllowed(o: Offer, allowlist: seq<int>) {
    o.chainId.Some? && o.chainId.value in allowlist
  }

  function BalanceFor(w: World, o: Offer): Option<real> {
    if o.chainId.Some? then w.balance(o.chainId.value) else None
  }

  /** Everything that has to hold before the paid GET. */
  ghost predicate Cleared(w: World, maxAmount: real, allowlist: seq<int>, o: Offer) {
    && Best(w, o) && WithinCap(o, maxAmount) && OnAllowed(o, allowlist)
    && BalanceFor(w, o).Some? && BalanceFor(w, o).value >= o.amount
  }

  /** When the checks pass, and when each refusal of the best offer is raised. */
  ghost predicate Ends(w: World, maxAmount: real, allowlist: seq<int>, r: Result<Offer>) {
    && (forall o :: r == Ok(o) <==> Cleared(w, maxAmount, allowlist, o))
    && (r == Err(InfiniteOfferOverCap(maxAmount)) <==> exists o :: Best(w, o) && o.unbounded)
    && (forall price :: r == Err(OfferOverCap(price, maxAmount))
                        <==> exists o :: Best(w, o) && !o.unbounded && o.amount == price > maxAmount)
    && (r == Err(NetworkNotAllowed) <==> exists o :: Best(w, o) && WithinCap(o, maxAmount) && !OnAllowed(o, allowlist))
    && (r == Err(BalanceCheckUnavailable) <==>
          exists o :: Best(w, o) && WithinCap(o, maxAmount) && OnAllowed(o, allowlist) && BalanceFor(w, o).None?)
    && (r == Err(InsufficientBalance) <==>
          exists o :: Best(w, o) && WithinCap(o, maxAmount) && OnAllowed(o, allowlist)
                      && BalanceFor(w, o).Some? && BalanceFor(w, o).value < o.amount)
  }

  /** The exact condition of each end of the checks. */
  lemma PreFlightExactly(w: World, maxAmount: real, allowlist: seq<int>)
    ensures Ends(w, maxAmount, allowlist, PreFlight(w, maxAmount, allowlist))
    ensures PreFlight(w, maxAmount, allowlist) == Err(NoSatisfiableOffer) <==> NothingSold(w)
    ensures (forall items :: !Lists(w.parsers, w.probed, items)) ==>
              PreFlight(w, maxAmount, allowlist).Err? && Inspect(w.parsers, w.probed) == Err(PreFlight(w, maxAmount, allowlist).error)
  {
    BestQuoted(w);
    ListsExactly(w.parsers, w.probed);
    var inspected := Inspect(w.parsers, w.probed);
    if inspected.Ok? {
      assert Lists(w.parsers, w.probed, Listed(w.probed));
      ClimbsLadder(w, maxAmount, allowlist);
      LadderEnds(w, maxAmount, allowlist, inspected.value.best, PreFlight(w, maxAmount, allowlist));
    } else {
      InspectErrors(w.parsers, w.probed);
    }
  }

  /** The checks on the best offer, in their order. */
  predicate Ladder(w: World, maxAmount: real, allowlist: seq<int>, best: Option<Offer>, r: Result<Offer>) {
    match best
    case None => r == Err(NoSatisfiableOffer)
    case Some(o) =>
      if o.unbounded then r == Err(InfiniteOfferOverCap(maxAmount))
      else if o.amount > maxAmount then r == Err(OfferOverCap(o.amount, maxAmount))
      else if !OnAllowed(o, allowlist) then r == Err(NetworkNotAllowed)
      else if BalanceFor(w, o).None? then r == Err(BalanceCheckUnavailable)
      else if BalanceFor(w, o).value < o.amount then r == Err(InsufficientBalance)
      else r == Ok(o)
  }

  lemma ClimbsLadder(w: World, maxAmount: real, allowlist: seq<int>)
    requires Inspect(w.parsers, w.probed).Ok?
    ensures Ladder(w, maxAmount, allowlist, Inspect(w.parsers, w.probed).value.best, PreFlight(w, maxAmount, allowlist))
  {
  }

  lemma InspectErrors(p: Parsers, probed: Probed)
    ensures Inspect(p, probed).Err? ==>
              var e := Inspect(p, probed).error;
              || e.EndpointUnreachable? || e.UnexpectedStatus?
              || e in {OverflowError, DecimalOverflow, InvalidOperation, AttributeError, TypeError}
  {
    if Offered(probed).Some? {
      ParseTermsRaises(p, Offered(probed).value);
    }
  }

  lemma LadderEnds(w: World, maxAmount: real, allowlist: seq<int>, best: Option<Offer>, r: Result<Offer>)
    requires forall o :: Best(w, o) <==> best == Some(o)
    requires Ladder(w, maxAmount, allowlist, best, r)
    ensures Ends(w, maxAmount, allowlist, r)
    ensures best.Some? ==> r != Err(NoSatisfiableOffer)
  {
    if best.Some? {
      assert Best(w, best.value);
    }
  }

  // ----- the receipt

  /** The receipt succeeded, and byte for byte its first Transfer of the pinned token pays the offer's
      amount from the wallet to the offer's payee. */
  ghost predicate SettledBy(w: World, offer: Offer, receipt: Receipt) {
    && receipt.status == 1 && offer.chainId.Some? && PinFor(offer.chainId.value).Ok?
    && FirstPays(PinFor(offer.chainId.value).value, w.walletAddress, offer.payTo, offer.amount, receipt.logs)
  }

  /** The first endpoint that serves within five tries and before a transport error, and its try. */
  ghost predicate FirstServer(w: World, v: nat, t: nat) {
    v < w.urls && ServesAt(w.probes, v, t) && forall u :: 0 <= u < v ==> !Serves(w.probes, u)
  }

  /** The receipt that is found is the one that the first serving endpoint serves. */
  ghost predicate Found(w: World, receipt: Receipt) {
    exists v: nat, t: nat :: FirstServer(w, v, t) && w.probes(v, t).receipt == receipt
  }

  lemma OneServer(w: World, v: nat, t: nat, v': nat, t': nat)
    requires FirstServer(w, v, t) && FirstServer(w, v', t')
    ensures v == v' && t == t'
  {
    assert Serves(w.probes, v) && Serves(w.probes, v');
  }

  lemma FoundExactly(w: World)
    ensures var fetched := ReceiptAndTx(w.probes, w.urls);
            forall receipt :: Found(w, receipt) <==> fetched.Ok? && fetched.value.Some? && fetched.value.value.0 == receipt
  {
    SearchMeans(w.probes, w.urls, 0, false);
    var fetched := ReceiptAndTx(w.probes, w.urls);
    if fetched.Ok? && fetched.value.Some? {
      var v, t :| 0 <= v < w.urls && ServesAt(w.probes, v, t)
                  && fetched.value.value == (w.probes(v, t).receipt, w.probes(v, t).tx)
                  && forall u :: 0 <= u < v ==> !Serves(w.probes, u);
      forall v': nat, t': nat | FirstServer(w, v', t') ensures v' == v && t' == t {
        OneServer(w, v, t, v', t');
      }
      assert FirstServer(w, v, t);
    } else {
      forall v: nat, t: nat ensures !FirstServer(w, v, t) {
        if FirstServer(w, v, t) {
          assert Serves(w.probes, v);
          if w.probes(v, 0).Transport? {
            TransportNeverServes(w.probes, v);
          }
        }
      }
    }
  }

  ghost predicate Lost(w: World) {
    forall receipt :: !Found(w, receipt)
  }

  /** The receipt that is found pays the offer. */
  ghost predicate PaidFor(w: World, o: Offer) {
    exists receipt :: Found(w, receipt) && SettledBy(w, o, receipt)
  }

  /** The receipt that is found does not, for exactly these reasons. */
  ghost predicate NotPaidFor(w: World, o: Offer, mismatches: seq<Mismatch>)
    requires Payable(o)
  {
    exists receipt :: Found(w, receipt) && !SettledBy(w, o, receipt)
                      && forall m :: m in mismatches
                           <==> Reports(PinFor(o.chainId.value).value, ExpectedOf(w, o), receipt, m)
  }

  // ----- after the paid GET

  /** The payee is the offer's, and the amount falls short of it by less than an atom: by nothing
      exactly when the advertised amount is a whole number of atoms. */
  ghost predicate AmountAgreed(offer: Offer, o: PaymentOutcome) {
    && o.offer == offer && o.payTo == Lower(offer.payTo)
    && 0.0 <= o.amountPaid <= offer.amount && offer.amount - o.amountPaid < 0.000001
    && (o.amountPaid == offer.amount <==> (offer.amount * 1000000.0).Floor as real == offer.amount * 1000000.0)
  }

  /** The report names this transaction. */
  predicate Carries(reply: PaidGet, txHash: string) {
    reply.PaidReply? && reply.settle.Some? && reply.settle.value.transaction == txHash != ""
  }

  predicate Succeeded(reply: PaidGet, txHash: string) {
    Carries(reply, txHash) && reply.settle.value.success
  }

  /** The judgement of a report that names a transaction and claims success. */
  ghost predicate Confirmed(w: World, o: Offer, status: int, txHash: string, r: Result<PaymentOutcome>)
    requires Payable(o)
  {
    match r
    case Ok(outcome) => PaidFor(w, o) && status == 200 && AmountAgreed(o, outcome) && outcome.txHash == txHash
    case Err(SettlementNotConfirmed(h)) => Lost(w) && h == txHash
    case Err(SettlementMismatch(mismatches, h)) => NotPaidFor(w, o, mismatches) && h == Some(txHash)
    case Err(SettlementRejected(h)) => PaidFor(w, o) && status != 200 && h == Some(txHash)
    case Err(_) => false
  }

  lemma ConfirmExactly(w: World, o: Offer, status: int, txHash: string)
    requires Payable(o)
    ensures Confirmed(w, o, status, txHash, Confirm(w, o, status, txHash))
  {
    var fetched := ReceiptAndTx(w.probes, w.urls);
    var verified := VerifySettlement(txHash, ExpectedOf(w, o), o.chainId.value, w.probes, w.urls);
    PinnedNetwork(o);
    FoundExactly(w);
    if fetched.Ok? && fetched.value.Some? {
      var (receipt, tx) := fetched.value.value;
      var pin := PinFor(o.chainId.value).value;
      SettlesExactly(txHash, pin, ExpectedOf(w, o), receipt, tx);
      assert verified == Ok(Settle(txHash, pin, ExpectedOf(w, o), receipt, tx));
      JudgeExactly(w, o, status, txHash, pin, receipt, verified.value);
    } else {
      SearchMeans(w.probes, w.urls, 0, false);
      JudgeLost(o, status, txHash, verified);
    }
  }

  lemma JudgeLost(o: Offer, status: int, txHash: string, verified: Result<VerifiedSettlement>)
    requires verified == Err(ConnectionError) || verified == Err(SettlementNotConfirmed(txHash))
    ensures Judge(o, status, txHash, verified) == Err(SettlementNotConfirmed(txHash))
  {
  }

  lemma JudgeExactly(w: World, o: Offer, status: int, txHash: string, pin: Pinned, receipt: Receipt, v: VerifiedSettlement)
    requires Payable(o) && PinFor(o.chainId.value) == Ok(pin) && Digits(o.asset) == Digits(pin.token)
    requires Found(w, receipt) && forall other :: Found(w, other) ==> other == receipt
    requires v.mismatches == [] <==> Matches(pin, ExpectedOf(w, o), receipt)
    requires forall m :: m in v.mismatches <==> Reports(pin, ExpectedOf(w, o), receipt, m)
    requires QuotesTransfer(pin, receipt, v)
    ensures Confirmed(w, o, status, txHash, Judge(o, status, txHash, Ok(v)))
  {
    assert SettledBy(w, o, receipt) <==> v.mismatches == [];
    if v.mismatches == [] && status == 200 {
      QuotedAgrees(o, w.walletAddress, pin, receipt, v);
    }
  }

  /** What a matching settlement quotes is what the offer asked for. */
  lemma QuotedAgrees(o: Offer, payer: string, pin: Pinned, receipt: Receipt, v: VerifiedSettlement)
    requires o.amount >= 0.0 && QuotesTransfer(pin, receipt, v)
    requires FirstPays(pin, payer, o.payTo, o.amount, receipt.logs)
    ensures v.transferTo == Lower(o.payTo)
    ensures 0.0 <= v.amountUsdc <= o.amount && o.amount - v.amountUsdc < 0.000001
    ensures v.amountUsdc == o.amount <==> (o.amount * 1000000.0).Floor as real == o.amount * 1000000.0
  {
    var i: nat :| FirstAt(pin, receipt.logs, i) && PaysTo(o.payTo, receipt.logs[i]) && PaysAtoms(o.amount, receipt.logs[i]);
    DenotesOne(v.transferTo, o.payTo, receipt.logs[i].topics[2][12..]);
    AtomsClose(o.amount, v.amountAtomic, v.amountUsdc);
  }

  lemma AtomsClose(amount: real, n: nat, dollars: real)
    requires amount >= 0.0 && AtomsOf(amount, n) && dollars * 1000000.0 == n as real
    ensures 0.0 <= dollars <= amount && amount - dollars < 0.000001
    ensures dollars == amount <==> (amount * 1000000.0).Floor as real == amount * 1000000.0
  {
    assert (amount * 1000000.0).Floor == n;
  }

  lemma DenotesOne(a: string, b: string, bytes: Bytes)
    requires Denotes(a, bytes) && Denotes(b, bytes)
    ensures Lower(a) == Lower(b)
  {
    FromHexInjective(Lower(a[2..]), Lower(b[2..]));
    PrefixLowered(a);
    PrefixLowered(b);
    assert Lower(a) == "0x" + Lower(a)[2..] && Lower(b) == "0x" + Lower(b)[2..];
  }

  /** When each exit after the checks is taken: with this reply, when no receipt is found, and when the
      one that is found pays the offer. */
  ghost predicate EndsBy(reply: PaidGet, lost: bool, paid: bool, r: Result<PaymentOutcome>) {
    && (r == Err(NoSatisfiableOffer) <==> reply.NoMatchingRequirements?)
    && (r == Err(TransportError) <==> reply.TransportFailed?)
    && (forall status :: r == Err(UnexpectedStatus(status)) <==> reply == PaidReply(status, None) && status != 200 && status != 402)
    && (r == Err(SettlementRejected(None)) <==> NoHash(reply))
    && (forall h :: r == Err(SettlementRejected(Some(h)))
                    <==> Carries(reply, h) && (Succeeded(reply, h) ==> paid && reply.status != 200))
    && (forall h :: r == Err(SettlementNotConfirmed(h)) <==> Succeeded(reply, h) && lost)
    && (forall h :: r.Err? && r.error.SettlementMismatch? && r.error.mismatchHash == Some(h)
                    <==> Succeeded(reply, h) && !lost && !paid)
    && (forall h :: r.Ok? && r.value.txHash == h <==> Succeeded(reply, h) && reply.status == 200 && paid)
  }

  ghost predicate Exits(w: World, o: Offer, r: Result<PaymentOutcome>)
    requires Payable(o)
  {
    && EndsBy(w.paidGet(o.amount), Lost(w), PaidFor(w, o), r)
    && (forall h, ms :: r == Err(SettlementMismatch(ms, h)) ==> NotPaidFor(w, o, ms))
    && (r.Ok? ==> AmountAgreed(o, r.value))
  }

  /** A reply without a report that is unpaid or delivered all the same, or a report without a hash. */
  predicate NoHash(reply: PaidGet) {
    && reply.PaidReply?
    && match reply.settle
       case None => reply.status == 200 || reply.status == 402
       case Some(settle) => settle.transaction == ""
  }

  /** No two verdicts on the receipt go together. */
  lemma OneVerdict(w: World, o: Offer)
    requires Payable(o)
    ensures !(Lost(w) && PaidFor(w, o))
    ensures forall ms :: NotPaidFor(w, o, ms) ==> !Lost(w) && !PaidFor(w, o)
  {
    FoundExactly(w);
  }

  lemma ExitsExactly(w: World, o: Offer)
    requires Payable(o)
    ensures Exits(w, o, AfterChecks(w, o))
  {
    var reply, r := w.paidGet(o.amount), AfterChecks(w, o);
    if txHash :| Carries(reply, txHash) {
      if Succeeded(reply, txHash) {
        ConfirmExactly(w, o, reply.status, txHash);
        OneVerdict(w, o);
        assert r == Confirm(w, o, reply.status, txHash);
        ConfirmedExits(w, o, reply, txHash, r);
      } else {
        UnsuccessfulExits(w, o, reply, txHash, r);
      }
    } else {
      NamelessExits(w, o, reply, r);
    }
  }

  lemma ConfirmedExits(w: World, o: Offer, reply: PaidGet, txHash: string, r: Result<PaymentOutcome>)
    requires Payable(o) && reply == w.paidGet(o.amount) && Succeeded(reply, txHash)
    requires Confirmed(w, o, reply.status, txHash, r)
    requires !(Lost(w) && PaidFor(w, o)) && forall ms :: NotPaidFor(w, o, ms) ==> !Lost(w) && !PaidFor(w, o)
    ensures Exits(w, o, r)
  {
    ConfirmedEnds(reply, txHash, Lost(w), PaidFor(w, o), r);
  }

  predicate ConfirmedAs(reply: PaidGet, txHash: string, lost: bool, paid: bool, r: Result<PaymentOutcome>)
    requires reply.PaidReply?
  {
    match r
    case Ok(outcome) => paid && reply.status == 200 && outcome.txHash == txHash
    case Err(SettlementNotConfirmed(h)) => lost && h == txHash
    case Err(SettlementMismatch(_, h)) => !lost && !paid && h == Some(txHash)
    case Err(SettlementRejected(h)) => paid && reply.status != 200 && h == Some(txHash)
    case Err(_) => false
  }

  lemma ConfirmedEnds(reply: PaidGet, txHash: string, lost: bool, paid: bool, r: Result<PaymentOutcome>)
    requires Succeeded(reply, txHash) && !(lost && paid) && ConfirmedAs(reply, txHash, lost, paid, r)
    ensures EndsBy(reply, lost, paid, r)
  {
  }

  lemma UnsuccessfulExits(w: World, o: Offer, reply: PaidGet, txHash: string, r: Result<PaymentOutcome>)
    requires Payable(o) && reply == w.paidGet(o.amount) && Carries(reply, txHash) && !reply.settle.value.success
    requires r == Err(SettlementRejected(Some(txHash)))
    ensures Exits(w, o, r)
  {
    UnsuccessfulEnds(reply, txHash, Lost(w), PaidFor(w, o), r);
  }

  lemma UnsuccessfulEnds(reply: PaidGet, txHash: string, lost: bool, paid: bool, r: Result<PaymentOutcome>)
    requires Carries(reply, txHash) && !reply.settle.value.success && r == Err(SettlementRejected(Some(txHash)))
    ensures EndsBy(reply, lost, paid, r)
  {
  }

  lemma NamelessExits(w: World, o: Offer, reply: PaidGet, r: Result<PaymentOutcome>)
    requires Payable(o) && reply == w.paidGet(o.amount) && forall txHash :: !Carries(reply, txHash)
    requires r == AfterChecks(w, o)
    ensures Exits(w, o, r)
  {
    assert reply.PaidReply? && reply.settle.Some? ==> !Carries(reply, reply.settle.value.transaction);
    NamelessIs(w, o, reply);
    NamelessEnds(reply, Lost(w), PaidFor(w, o), r);
  }

  predicate Nameless(reply: PaidGet) {
    reply.PaidReply? && reply.settle.Some? ==> reply.settle.value.transaction == ""
  }

  predicate NamelessAs(reply: PaidGet, r: Result<PaymentOutcome>) {
    match reply
    case NoMatchingRequirements => r == Err(NoSatisfiableOffer)
    case TransportFailed => r == Err(TransportError)
    case PaidReply(status, settle) =>
      if settle.None? && status != 200 && status != 402 then r == Err(UnexpectedStatus(status)) else r == Err(SettlementRejected(None))
  }

  lemma NamelessIs(w: World, o: Offer, reply: PaidGet)
    requires reply == w.paidGet(o.amount) && Nameless(reply)
    ensures NamelessAs(reply, AfterChecks(w, o))
  {
  }

  lemma NamelessEnds(reply: PaidGet, lost: bool, paid: bool, r: Result<PaymentOutcome>)
    requires Nameless(reply) && NamelessAs(reply, r)
    ensures EndsBy(reply, lost, paid, r)
  {
  }

  // ----- the whole call

  /** Past its checks the call ends as the paid GET and the receipt say; otherwise it raises what the
      checks raise, before any money can move. */
  lemma PayExits(w: World, maxAmount: real, allowlist: seq<int>)
    ensures var r, checks := PaymentOf(w, maxAmount, allowlist), PreFlight(w, maxAmount, allowlist);
            && (forall o :: Cleared(w, maxAmount, allowlist, o) ==> Payable(o) && Exits(w, o, r))
            && ((forall o :: !Cleared(w, maxAmount, allowlist, o)) ==> r.Err? && checks == Err(r.error))
            && Ends(w, maxAmount, allowlist, checks)
  {
    PreFlightExactly(w, maxAmount, allowlist);
    var checks := PreFlight(w, maxAmount, allowlist);
    if checks.Ok? {
      PreFlightPins(w, maxAmount, allowlist);
      ExitsExactly(w, checks.value);
    }
  }

  /** The seller answers 200 with a report that names this transaction and claims success, and the
      receipt found for it pays the offer. */
  ghost predicate Delivered(w: World, o: Offer, txHash: string) {
    Succeeded(w.paidGet(o.amount), txHash) && w.paidGet(o.amount).status == 200 && PaidFor(w, o)
  }

  ghost predicate Pays(w: World, maxAmount: real, allowlist: seq<int>, o: Offer, txHash: string) {
    Cleared(w, maxAmount, allowlist, o) && Delivered(w, o, txHash)
  }

  /** The call returns exactly if some offer passes every check and is delivered, with that offer and
      its transaction. */
  lemma PayReturnsExactly(w: World, maxAmount: real, allowlist: seq<int>)
    ensures var r := PaymentOf(w, maxAmount, allowlist);
            && (r.Ok? <==> exists o, txHash :: Pays(w, maxAmount, allowlist, o, txHash))
            && (r.Ok? ==> Pays(w, maxAmount, allowlist, r.value.offer, r.value.txHash) && AmountAgreed(r.value.offer, r.value))
  {
    PayExits(w, maxAmount, allowlist);
    var checks, r := PreFlight(w, maxAmount, allowlist), PaymentOf(w, maxAmount, allowlist);
    if checks.Ok? {
      ExitsReturn(w, checks.value, r);
    }
    ReturnsIfPaid(w, maxAmount, allowlist, checks, r);
  }

  lemma ExitsReturn(w: World, o: Offer, r: Result<PaymentOutcome>)
    requires Payable(o) && Exits(w, o, r)
    ensures ReturnsFor(w, o, r)
  {
    forall txHash ensures Delivered(w, o, txHash) <==> r.Ok? && r.value.txHash == txHash {
      assert r.Ok? && r.value.txHash == txHash
             <==> Succeeded(w.paidGet(o.amount), txHash) && w.paidGet(o.amount).status == 200 && PaidFor(w, o);
    }
  }

  ghost predicate ReturnsFor(w: World, o: Offer, r: Result<PaymentOutcome>) {
    && (forall txHash :: Delivered(w, o, txHash) <==> r.Ok? && r.value.txHash == txHash)
    && (r.Ok? ==> AmountAgreed(o, r.value))
  }

  lemma ReturnsIfPaid(w: World, maxAmount: real, allowlist: seq<int>, checks: Result<Offer>, r: Result<PaymentOutcome>)
    requires forall o :: checks == Ok(o) <==> Cleared(w, maxAmount, allowlist, o)
    requires checks.Err? ==> r.Err?
    requires checks.Ok? ==> ReturnsFor(w, checks.value, r)
    ensures r.Ok? <==> exists o, txHash :: Pays(w, maxAmount, allowlist, o, txHash)
    ensures r.Ok? ==> Pays(w, maxAmount, allowlist, r.value.offer, r.value.txHash) && AmountAgreed(r.value.offer, r.value)
  {
    if r.Ok? {
      assert Pays(w, maxAmount, allowlist, checks.value, r.value.txHash);
    }
    forall o, txHash | Pays(w, maxAmount, allowlist, o, txHash) ensures r.Ok? {
      assert checks == Ok(o);
    }
  }

  /** A return means an amount of at most the offer, short of it by less than an atom, and at most the
      cap. */
  lemma SettledAmountBound(w: World, maxAmount: real, allowlist: seq<int>)
    ensures PaymentOf(w, maxAmount, allowlist).Ok? ==>
              var outcome := PaymentOf(w, maxAmount, allowlist).value;
              && PaidFor(w, outcome.offer) && AmountAgreed(outcome.offer, outcome)
              && 0.0 <= outcome.amountPaid <= outcome.offer.amount <= maxAmount
  {
    PayReturnsExactly(w, maxAmount, allowlist);
  }
}
