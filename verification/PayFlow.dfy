/** pay(): from the unpaid probe to a verified settlement, over every environment. */
module PayFlow {
  import opened Sequences
  import opened Errors
  import opened Abi
  import opened Json
  import opened Offers
  import opened Settlement

  /** The unpaid GET. A header or body that is absent or does not decode is None. */
  datatype Probed = Unreachable | Response(header: Option<Json>, body: Option<Json>, status: int)

  /** What the facilitator reported, if anything readable. An empty transaction is none. */
  datatype SettleReport = SettleReport(success: bool, transaction: string)

  /** The paid GET: the SDK refuses every requirement, the transport fails, or a reply comes back. */
  datatype PaidGet = NoMatchingRequirements | TransportFailed | PaidReply(status: int, settle: Option<SettleReport>)

  /** Everything a call to pay meets. The paid GET depends on the amount that it is authorized for. */
  datatype World = World(
    parsers: Parsers,
    probed: Probed,
    walletAddress: string,
    balance: int -> Option<real>,
    paidGet: real -> PaidGet,
    probes: Script,
    urls: nat)

  datatype PaymentOutcome = PaymentOutcome(offer: Offer, txHash: string, amountPaid: real, payTo: string, verified: VerifiedSettlement)

  /** The terms that a response offers: an object in the header, else one in the body with accepts. */
  function Offered(probed: Probed): Option<map<string, Json>> {
    match probed
    case Unreachable => None
    case Response(header, body, _) =>
      if header.Some? && header.value.Object? then Some(header.value.fields)
      else if body.Some? && body.value.Object? && "accepts" in body.value.fields then Some(body.value.fields)
      else None
  }

  /** inspect_offer: the quote, or the exception. */
  function Inspect(p: Parsers, probed: Probed): Result<Quote> {
    match Offered(probed)
    case Some(fields) => ParseTerms(p, fields)
    case None =>
      match probed
      case Unreachable => Err(EndpointUnreachable)
      case Response(_, _, status) => if status == 402 then Ok(Quote(1, [], None)) else Err(UnexpectedStatus(status))
  }

  /** inspect_offer raises more than the two exceptions its comment allows exactly when the terms it
      settles for cannot be read. */
  lemma InspectRaises(p: Parsers, probed: Probed)
    ensures Inspect(p, probed).Err? && !Inspect(p, probed).error.EndpointUnreachable? && !Inspect(p, probed).error.UnexpectedStatus?
            <==> Offered(probed).Some? && TermsRaise(p, Offered(probed).value)
  {
    if Offered(probed).Some? {
      ParseTermsRaises(p, Offered(probed).value);
    }
  }

  /** An infinite version, as 1e999 decodes, raises although nothing is offered. */
  lemma InfiniteVersionRaises(p: Parsers, status: int)
    ensures var terms := map["x402Version" := Infinite(true), "accepts" := List([])];
            Inspect(p, Response(Some(Object(terms)), None, status)) == Err(OverflowError)
  {
  }

  /** Accepts that is a number raises if it is not zero; an empty object is as good as an empty list. */
  lemma AcceptsNoList(p: Parsers, n: int, status: int)
    ensures Inspect(p, Response(None, Some(Object(map["accepts" := Int(n)])), status))
            == if n == 0 then Ok(Quote(1, [], None)) else Err(TypeError)
    ensures Inspect(p, Response(None, Some(Object(map["accepts" := Object(map[])])), status)) == Ok(Quote(1, [], None))
  {
  }

  /** The entries that the terms list. */
  function Listed(probed: Probed): seq<Json> {
    match Offered(probed)
    case Some(fields) => ItemsIn(fields)
    case None => []
  }

  lemma InspectedBest(p: Parsers, probed: Probed)
    requires Inspect(p, probed).Ok?
    ensures forall o :: Inspect(p, probed).value.best == Some(o) <==> FirstCheapestOf(p, Listed(probed), o)
    ensures Inspect(p, probed).value.best == None
            <==> forall i :: 0 <= i < |Listed(probed)| ==> !CanBePaid(p, Listed(probed)[i])
  {
    if Offered(probed).Some? {
      QuoteExactly(p, Offered(probed).value);
    }
  }

  /** Everything before any money can move: the offer that will be paid, or the exception. */
  function PreFlight(w: World, maxAmount: real, allowlist: seq<int>): Result<Offer> {
    var quote :- Inspect(w.parsers, w.probed);
    match quote.best
    case None => Err(NoSatisfiableOffer)
    case Some(offer) =>
      if offer.unbounded then Err(InfiniteOfferOverCap(maxAmount))
      else if offer.amount > maxAmount then Err(OfferOverCap(offer.amount, maxAmount))
      else if offer.chainId.None? || offer.chainId.value !in allowlist then Err(NetworkNotAllowed)
      else
        match w.balance(offer.chainId.value)
        case None => Err(BalanceCheckUnavailable)
        case Some(balance) => if balance < offer.amount then Err(InsufficientBalance) else Ok(offer)
  }

  /** What follows the verification of a reported settlement. */
  function Judge(offer: Offer, status: int, txHash: string, verified: Result<VerifiedSettlement>): Result<PaymentOutcome> {
    match verified
    case Err(ConnectionError) => Err(SettlementNotConfirmed(txHash))
    case Err(e) => Err(e)
    case Ok(v) =>
      if !v.MatchesExpected() then Err(SettlementMismatch(v.mismatches, Some(txHash)))
      else if status != 200 then Err(SettlementRejected(Some(txHash)))
      else Ok(PaymentOutcome(offer, txHash, v.amountUsdc, v.transferTo, v))
  }

  function ExpectedOf(w: World, offer: Offer): Expected {
    Expected(w.walletAddress, offer.payTo, offer.asset, offer.amount)
  }

  function Confirm(w: World, offer: Offer, status: int, txHash: string): Result<PaymentOutcome> {
    if offer.chainId.None? then Err(KeyError)
    else Judge(offer, status, txHash, VerifySettlement(txHash, ExpectedOf(w, offer), offer.chainId.value, w.probes, w.urls))
  }

  /** The paid GET and everything after it. */
  function AfterChecks(w: World, offer: Offer): Result<PaymentOutcome> {
    match w.paidGet(offer.amount)
    case NoMatchingRequirements => Err(NoSatisfiableOffer)
    case TransportFailed => Err(TransportError)
    case PaidReply(status, None) =>
      if status == 402 then Err(SettlementRejected(None))
      else if status != 200 then Err(UnexpectedStatus(status))
      else Err(SettlementRejected(None))
    case PaidReply(status, Some(settle)) =>
      if !settle.success then
        Err(SettlementRejected(if settle.transaction == "" then None else Some(settle.transaction)))
      else if settle.transaction == "" then Err(SettlementRejected(None))
      else Confirm(w, offer, status, settle.transaction)
  }

  function PaymentOf(w: World, maxAmount: real, allowlist: seq<int>): Result<PaymentOutcome> {
    var offer :- PreFlight(w, maxAmount, allowlist);
    AfterChecks(w, offer)
  }

  method Pay(w: World, maxAmount: real, allowlist: seq<int>) returns (r: Result<PaymentOutcome>)
    ensures r == PaymentOf(w, maxAmount, allowlist)
  {
    var offer :- PreFlight(w, maxAmount, allowlist);
    var reply := w.paidGet(offer.amount);
    if reply.NoMatchingRequirements? {
      return Err(NoSatisfiableOffer);
    }
    if reply.TransportFailed? {
      return Err(TransportError);
    }
    var status, settle := reply.status, reply.settle;
    if settle.None? {
      if status == 402 {
        return Err(SettlementRejected(None));
      }
      if status != 200 {
        return Err(UnexpectedStatus(status));
      }
      return Err(SettlementRejected(None));
    }
    var txHash := settle.value.transaction;
    if !settle.value.success {
      return Err(SettlementRejected(if txHash == "" then None else Some(txHash)));
    }
    if txHash == "" {
      return Err(SettlementRejected(None));
    }
    var verified := Verify(txHash, Expected(w.walletAddress, offer.payTo, offer.asset, offer.amount),
                           offer.chainId.value, w.probes, w.urls);
    if verified.Err? {
      return Err(if verified.error == ConnectionError then SettlementNotConfirmed(txHash) else verified.error);
    }
    var v := verified.value;
    if !v.MatchesExpected() {
      return Err(SettlementMismatch(v.mismatches, Some(txHash)));
    }
    if status != 200 {
      return Err(SettlementRejected(Some(txHash)));
    }
    return Ok(PaymentOutcome(offer, txHash, v.amountUsdc, v.transferTo, v));
  }

  // ----- no hash is lost

  /** The hash that a return or an exception carries to the caller. */
  function CarriedHash(r: Result<PaymentOutcome>): Option<string> {
    match r
    case Ok(outcome) => Some(outcome.txHash)
    case Err(SettlementRejected(h)) => h
    case Err(SettlementNotConfirmed(h)) => Some(h)
    case Err(SettlementMismatch(_, h)) => h
    case Err(_) => None
  }

  /** The hash that the facilitator reported to this call: the call got past its checks, the
      paid GET was answered, and its settlement report names a transaction. */
  function ReportedHash(w: World, maxAmount: real, allowlist: seq<int>): Option<string> {
    match PreFlight(w, maxAmount, allowlist)
    case Err(_) => None
    case Ok(offer) => HashIn(w.paidGet(offer.amount))
  }

  function HashIn(reply: PaidGet): Option<string> {
    if reply.PaidReply? && reply.settle.Some? && reply.settle.value.transaction != "" then Some(reply.settle.value.transaction)
    else None
  }

  lemma PreFlightPins(w: World, maxAmount: real, allowlist: seq<int>)
    requires PreFlight(w, maxAmount, allowlist).Ok?
    ensures var offer := PreFlight(w, maxAmount, allowlist).value;
            && FirstCheapestOf(w.parsers, Listed(w.probed), offer)
            && Payable(offer) && offer.amount <= maxAmount && offer.chainId.value in allowlist
            && w.balance(offer.chainId.value).Some? && offer.amount <= w.balance(offer.chainId.value).value
  {
    InspectedBest(w.parsers, w.probed);
    FirstCheapestPayable(w.parsers, Listed(w.probed), PreFlight(w, maxAmount, allowlist).value);
  }

  /** Whatever the endpoints and the chain do, every exit carries exactly the reported hash. */
  lemma NoHashLost(w: World, maxAmount: real, allowlist: seq<int>)
    ensures CarriedHash(PaymentOf(w, maxAmount, allowlist)) == ReportedHash(w, maxAmount, allowlist)
  {
    var pre := PreFlight(w, maxAmount, allowlist);
    if pre.Ok? {
      PreFlightPins(w, maxAmount, allowlist);
      AfterChecksCarries(w, pre.value);
    } else {
      PreFlightCarriesNone(w, maxAmount, allowlist);
    }
  }

  lemma PreFlightCarriesNone(w: World, maxAmount: real, allowlist: seq<int>)
    requires PreFlight(w, maxAmount, allowlist).Err?
    ensures CarriedHash(PaymentOf(w, maxAmount, allowlist)).None?
  {
    if Offered(w.probed).Some? {
      ParseTermsRaises(w.parsers, Offered(w.probed).value);
    }
  }

  lemma AfterChecksCarries(w: World, offer: Offer)
    requires Payable(offer)
    ensures CarriedHash(AfterChecks(w, offer)) == HashIn(w.paidGet(offer.amount))
  {
    if w.paidGet(offer.amount).PaidReply? && w.paidGet(offer.amount).settle.Some? {
      var txHash := w.paidGet(offer.amount).settle.value.transaction;
      PinnedNetwork(offer);
      VerifyErrors(txHash, ExpectedOf(w, offer), offer.chainId.value, w.probes, w.urls);
      JudgeCarries(offer, w.paidGet(offer.amount).status, txHash,
                   VerifySettlement(txHash, ExpectedOf(w, offer), offer.chainId.value, w.probes, w.urls));
    }
  }

  lemma JudgeCarries(offer: Offer, status: int, txHash: string, verified: Result<VerifiedSettlement>)
    requires verified.Err? ==> verified.error == ConnectionError || verified.error == SettlementNotConfirmed(txHash)
    ensures CarriedHash(Judge(offer, status, txHash, verified)) == Some(txHash)
  {
  }

  lemma PinnedNetwork(offer: Offer)
    requires Payable(offer)
    ensures offer.chainId.Some? && PinFor(offer.chainId.value).Ok?
    ensures Digits(offer.asset) == Digits(PinFor(offer.chainId.value).value.token) && IsHexAddress(offer.asset)
  {
    PinsAreAddresses();
    SameLower(offer.asset, PinFor(offer.chainId.value).value.token);
  }

  lemma SameLower(a: string, b: string)
    requires Lower(a) == Lower(b)
    ensures Digits(a) == Digits(b) && (IsHexAddress(a) <==> IsHexAddress(b))
  {
  }

  lemma LettersAreHexAddress(addr: string)
    requires |addr| == 42 && addr[0] == '0' && addr[1] == 'x' && forall i :: 2 <= i < 42 ==> HexDigit(LowerChar(addr[i])).Some?
    ensures IsHexAddress(addr)
  {
    var t := Lower(addr);
    assert t[..2] == "0x";
  }

  lemma TestnetLetters()
    ensures |USDC_SEPOLIA| == 42 && USDC_SEPOLIA[0] == '0' && USDC_SEPOLIA[1] == 'x'
    ensures forall i :: 2 <= i < 42 ==> HexDigit(LowerChar(USDC_SEPOLIA[i])).Some?
  {
  }

  lemma MainnetLetters()
    ensures |USDC_MAINNET| == 42 && USDC_MAINNET[0] == '0' && USDC_MAINNET[1] == 'x'
    ensures forall i :: 2 <= i < 42 ==> HexDigit(LowerChar(USDC_MAINNET[i])).Some?
  {
  }

  lemma PinsAreAddresses()
    ensures IsHexAddress(USDC_SEPOLIA) && IsHexAddress(USDC_MAINNET)
  {
    TestnetLetters();
    LettersAreHexAddress(USDC_SEPOLIA);
    MainnetLetters();
    LettersAreHexAddress(USDC_MAINNET);
  }

  /** On a pinned network verification fails in two ways only, both about reaching the receipt. */
  lemma VerifyErrors(txHash: string, expected: Expected, network: int, probes: Script, urls: nat)
    requires PinFor(network).Ok? && IsHexAddress(expected.asset)
    ensures var r := VerifySettlement(txHash, expected, network, probes, urls);
            r.Err? ==> r.error == ConnectionError || r.error == SettlementNotConfirmed(txHash)
  {
    SearchMeans(probes, urls, 0, false);
  }
}
