/** Independent on-chain verification: the retry loop over RPC endpoints, and the log scan. */
module Settlement {
  import opened Sequences
  import opened Errors
  import opened Abi
  import opened Json
  import opened Offers

  const RETRIES: nat := 5
  const TRANSFER_TOPIC := "ddf252ad1be2c89b69c2b068fc378daa952ba7f163c4a11628f55a4df523b3ef"

  type Topic = b: Bytes | |b| == 32 witness Zeros(32)

  datatype Log = Log(address: string, topics: seq<Topic>, data: Bytes)
  datatype Receipt = Receipt(logs: seq<Log>, status: int, blockNumber: int)
  datatype Tx = Tx(sender: string)

  /** One query of one endpoint for both the receipt and the transaction. */
  datatype Probe = Served(receipt: Receipt, tx: Tx) | NotFound | Transport

  /** Every reply that the endpoints would give: endpoint, then try. */
  type Script = (nat, nat) -> Probe

  type Fetched = Option<(Receipt, Tx)>

  /** One endpoint from its t-th try on: what it served, and whether it answered not-found. */
  function Ask(probes: Script, u: nat, t: nat): (Fetched, bool)
    decreases RETRIES - t
  {
    if t >= RETRIES then (None, false) else
      match probes(u, t)
      case Served(receipt, tx) => (Some((receipt, tx)), false)
      case Transport => (None, false)
      case NotFound => (Ask(probes, u, t + 1).0, true)
  }

  function AskFrom(probes: Script, urls: nat, u: nat, reachable: bool): Result<Fetched>
    decreases urls - u
  {
    if u >= urls then (if reachable then Ok(None) else Err(ConnectionError)) else
      match Ask(probes, u, 0)
      case (Some(x), _) => Ok(Some(x))
      case (None, seen) => AskFrom(probes, urls, u + 1, reachable || seen)
  }

  function ReceiptAndTx(probes: Script, urls: nat): Result<Fetched> {
    AskFrom(probes, urls, 0, false)
  }

  /** The loops; the count is the number of queries made. */
  method FetchReceipt(probes: Script, urls: nat) returns (r: Result<Fetched>, count: nat)
    ensures r == ReceiptAndTx(probes, urls)
    ensures count <= RETRIES * urls
  {
    var reachable := false;
    count := 0;
    for u := 0 to urls
      invariant AskFrom(probes, urls, u, reachable) == ReceiptAndTx(probes, urls)
      invariant count <= RETRIES * u
    {
      ghost var entered := reachable;
      var t := 0;
      while t < RETRIES
        invariant t <= RETRIES && count <= RETRIES * u + t
        invariant reachable == (entered || t > 0)
        invariant Ask(probes, u, 0).0 == Ask(probes, u, t).0
        invariant Ask(probes, u, 0).1 == (t > 0 || Ask(probes, u, t).1)
      {
        count := count + 1;
        match probes(u, t) {
          case Served(receipt, tx) => return Ok(Some((receipt, tx))), count;
          case NotFound => reachable := true;
          case Transport => break;
        }
        t := t + 1;
      }
    }
    return if reachable then Ok(None) else Err(ConnectionError), count;
  }

  // ----- what the retry loop returns

  /** Endpoint u serves at its t-th try, every earlier one of its tries having said not-found. */
  predicate ServesAt(probes: Script, u: nat, t: nat) {
    t < 5 && probes(u, t).Served? && forall k :: 0 <= k < t ==> probes(u, k).NotFound?
  }

  ghost predicate Serves(probes: Script, u: nat) {
    exists t :: ServesAt(probes, u, t)
  }

  lemma {:induction false} AskMeans(probes: Script, u: nat, t: nat)
    requires t <= RETRIES && forall k :: 0 <= k < t ==> probes(u, k).NotFound?
    ensures var (x, seen) := Ask(probes, u, t);
            && (x.Some? ==> exists k :: ServesAt(probes, u, k) && x.value == (probes(u, k).receipt, probes(u, k).tx))
            && (x.None? ==> !Serves(probes, u))
            && (seen <==> t < RETRIES && probes(u, t).NotFound?)
    decreases RETRIES - t
  {
    if t < RETRIES {
      if probes(u, t).NotFound? {
        AskMeans(probes, u, t + 1);
      } else if probes(u, t).Served? {
        assert ServesAt(probes, u, t);
      } else {
        assert forall k: nat :: ServesAt(probes, u, k) ==> k <= t;
      }
    } else {
      assert forall k: nat :: !ServesAt(probes, u, k);
    }
  }

  /** The three ends of the search that starts at endpoint u. */
  ghost predicate SearchResult(probes: Script, urls: nat, u: nat, reachable: bool, r: Result<Fetched>) {
    match r
    case Ok(Some(x)) =>
      exists v, t :: u <= v < urls && ServesAt(probes, v, t) && x == (probes(v, t).receipt, probes(v, t).tx)
                     && forall w :: u <= w < v ==> !Serves(probes, w)
    case Ok(None) =>
      && (forall w :: u <= w < urls ==> !Serves(probes, w))
      && (reachable || exists w :: u <= w < urls && probes(w, 0).NotFound?)
    case Err(e) =>
      && e == ConnectionError && !reachable
      && forall w :: u <= w < urls ==> probes(w, 0).Transport?
  }

  lemma {:induction false} SearchMeans(probes: Script, urls: nat, u: nat, reachable: bool)
    requires u <= urls
    ensures SearchResult(probes, urls, u, reachable, AskFrom(probes, urls, u, reachable))
    decreases urls - u
  {
    if u < urls {
      AskMeans(probes, u, 0);
      var (x, seen) := Ask(probes, u, 0);
      if x.None? {
        SearchMeans(probes, urls, u + 1, reachable || seen);
        SearchPassesOn(probes, urls, u, reachable, seen, AskFrom(probes, urls, u + 1, reachable || seen));
      }
    }
  }

  /** An endpoint that serves nothing leaves the search to the ones after it. */
  lemma SearchPassesOn(probes: Script, urls: nat, u: nat, reachable: bool, seen: bool, r: Result<Fetched>)
    requires u < urls && !Serves(probes, u) && (seen <==> probes(u, 0).NotFound?)
    requires SearchResult(probes, urls, u + 1, reachable || seen, r)
    ensures SearchResult(probes, urls, u, reachable, r)
  {
    assert !ServesAt(probes, u, 0);
  }

  /** The first endpoint that serves, within five tries and before a transport error, gives the
      answer; with none, an absent transaction if any endpoint said not-found, and a connection
      error exactly if every endpoint failed at its first try. */
  lemma ReceiptSearchExact(probes: Script, urls: nat)
    ensures SearchResult(probes, urls, 0, false, ReceiptAndTx(probes, urls))
    ensures ReceiptAndTx(probes, urls) == Err(ConnectionError) <==> forall w :: 0 <= w < urls ==> probes(w, 0).Transport?
    ensures ReceiptAndTx(probes, urls).Ok? && ReceiptAndTx(probes, urls).value.Some? <==>
            exists w :: 0 <= w < urls && Serves(probes, w)
  {
    SearchMeans(probes, urls, 0, false);
    forall w | 0 <= w < urls && probes(w, 0).Transport? ensures !Serves(probes, w) {
      TransportNeverServes(probes, w);
    }
    var r := ReceiptAndTx(probes, urls);
    if r.Ok? && r.value.Some? {
      var v, t :| 0 <= v < urls && ServesAt(probes, v, t);
      assert Serves(probes, v);
    }
  }

  lemma TransportNeverServes(probes: Script, w: nat)
    requires probes(w, 0).Transport?
    ensures !Serves(probes, w)
  {
    assert !probes(w, 0).NotFound?;
  }

  // ----- the log scan

  /** An address as lower-case text: 0x and the last twenty bytes of a topic. */
  function TopicAddress(topic: Topic): string {
    "0x" + ToHex(topic[12..])
  }

  datatype Transfer = Transfer(sender: string, recipient: string, value: nat)

  /** The token whose transfers count, and the topic that marks one. */
  datatype Pinned = Pinned(token: string, topic: string)

  predicate IsTransfer(pin: Pinned, log: Log) {
    |log.topics| >= 3 && Lower(log.address) == Lower(pin.token) && ToHex(log.topics[0]) == pin.topic
  }

  function TransferOf(log: Log): Transfer
    requires |log.topics| >= 3
  {
    Transfer(TopicAddress(log.topics[1]), TopicAddress(log.topics[2]), FromBytes(log.data))
  }

  function FirstTransfer(pin: Pinned, logs: seq<Log>): Option<Transfer> {
    match Find((log: Log) => IsTransfer(pin, log), logs)
    case None => None
    case Some(log) => Some(TransferOf(log))
  }

  function Digits(s: string): string {
    if "0x" <= Lower(s) then Lower(s)[2..] else Lower(s)
  }

  /** What to_checksum_address accepts, and what tells two accepted texts apart. */
  predicate IsHexAddress(s: string) {
    |Digits(s)| == 40 && forall i :: 0 <= i < 40 ==> HexDigit(Digits(s)[i]).Some?
  }

  datatype Expected = Expected(payer: string, payTo: string, asset: string, amount: real)

  datatype VerifiedSettlement = VerifiedSettlement(
    txHash: string,
    blockNumber: int,
    statusOk: bool,
    transferFrom: string,
    transferTo: string,
    amountAtomic: nat,
    amountUsdc: real,
    submittedBy: string,
    payerPaidGas: bool,
    mismatches: seq<Mismatch>)
  {
    predicate MatchesExpected() {
      mismatches == []
    }
  }

  function When(condition: bool, m: Mismatch): seq<Mismatch> {
    if condition then [m] else []
  }

  function Mismatches(pin: Pinned, expected: Expected, statusOk: bool, transfer: Option<Transfer>): seq<Mismatch> {
    When(!statusOk, BadStatus)
    + When(transfer.None?, NoTransferLog)
    + When(transfer.Some? && transfer.value.sender != Lower(expected.payer), WrongPayer)
    + When(transfer.Some? && transfer.value.recipient != Lower(expected.payTo), WrongPayee)
    + When(transfer.Some? && transfer.value.value != Truncate(expected.amount * ATOMS), WrongAmount)
    + When(Digits(expected.asset) != Digits(pin.token), WrongAsset)
  }

  function Settle(txHash: string, pin: Pinned, expected: Expected, receipt: Receipt, tx: Tx): VerifiedSettlement {
    var transfer := FirstTransfer(pin, receipt.logs);
    var found := match transfer { case Some(t) => t case None => Transfer("", "", 0) };
    VerifiedSettlement(
      txHash, receipt.blockNumber, receipt.status == 1, found.sender, found.recipient, found.value,
      found.value as real / ATOMS, Lower(tx.sender), Lower(tx.sender) == Lower(expected.payer),
      Mismatches(pin, expected, receipt.status == 1, transfer))
  }

  /** The settlement, or the exception of an expected asset that is no address. */
  function SettleChecked(txHash: string, pin: Pinned, expected: Expected, receipt: Receipt, tx: Tx): Result<VerifiedSettlement> {
    if IsHexAddress(expected.asset) then Ok(Settle(txHash, pin, expected, receipt, tx)) else Err(ValueError)
  }

  function PinFor(network: int): Result<Pinned> {
    if network in USDC_BY_CHAIN then Ok(Pinned(USDC_BY_CHAIN[network], TRANSFER_TOPIC)) else Err(KeyError)
  }

  function VerifyWith(txHash: string, expected: Expected, fetched: Result<Fetched>, pin: Result<Pinned>): Result<VerifiedSettlement> {
    match fetched
    case Err(e) => Err(e)
    case Ok(None) => Err(SettlementNotConfirmed(txHash))
    case Ok(Some(x)) =>
      match pin
      case Err(e) => Err(e)
      case Ok(p) => SettleChecked(txHash, p, expected, x.0, x.1)
  }

  function VerifySettlement(txHash: string, expected: Expected, network: int, probes: Script, urls: nat): Result<VerifiedSettlement> {
    VerifyWith(txHash, expected, ReceiptAndTx(probes, urls), PinFor(network))
  }

  method ScanLogs(pin: Pinned, logs: seq<Log>) returns (transfer: Option<Transfer>)
    ensures transfer == FirstTransfer(pin, logs)
    ensures transfer.Some? ==>
      exists i :: 0 <= i < |logs| && IsTransfer(pin, logs[i]) && transfer.value == TransferOf(logs[i])
                  && forall j :: 0 <= j < i ==> !IsTransfer(pin, logs[j])
    ensures transfer.None? ==> forall log :: log in logs ==> !IsTransfer(pin, log)
  {
    transfer := None;
    assert logs[0..] == logs;
    for i := 0 to |logs|
      invariant forall j :: 0 <= j < i ==> !IsTransfer(pin, logs[j])
      invariant FirstTransfer(pin, logs) == FirstTransfer(pin, logs[i..])
    {
      assert logs[i..][1..] == logs[i + 1..];
      if |logs[i].topics| < 3 {
        continue;
      }
      if Lower(logs[i].address) == Lower(pin.token) && ToHex(logs[i].topics[0]) == pin.topic {
        return Some(TransferOf(logs[i]));
      }
    }
    return None;
  }

  method Compare(txHash: string, pin: Pinned, expected: Expected, receipt: Receipt, tx: Tx) returns (r: Result<VerifiedSettlement>)
    ensures r == SettleChecked(txHash, pin, expected, receipt, tx)
  {
    var expectedAtomic := Truncate(expected.amount * ATOMS);
    var transfer := ScanLogs(pin, receipt.logs);
    var statusOk := receipt.status == 1;
    var mismatches := When(!statusOk, BadStatus);
    var from, to, value := "", "", 0;
    if transfer.None? {
      mismatches := mismatches + [NoTransferLog];
      assert mismatches + [] + [] + [] == mismatches;
    } else {
      from, to, value := transfer.value.sender, transfer.value.recipient, transfer.value.value;
      assert mismatches + [] == mismatches;
      mismatches := mismatches + When(from != Lower(expected.payer), WrongPayer);
      mismatches := mismatches + When(to != Lower(expected.payTo), WrongPayee);
      mismatches := mismatches + When(value != expectedAtomic, WrongAmount);
    }
    if !IsHexAddress(expected.asset) {
      return Err(ValueError);
    }
    mismatches := mismatches + When(Digits(expected.asset) != Digits(pin.token), WrongAsset);
    return Ok(VerifiedSettlement(txHash, receipt.blockNumber, statusOk, from, to, value, value as real / ATOMS,
                                 Lower(tx.sender), Lower(tx.sender) == Lower(expected.payer), mismatches));
  }

  method Verify(txHash: string, expected: Expected, network: int, probes: Script, urls: nat) returns (r: Result<VerifiedSettlement>)
    ensures r == VerifySettlement(txHash, expected, network, probes, urls)
  {
    var fetched, _ := FetchReceipt(probes, urls);
    if fetched.Err? {
      return Err(fetched.error);
    }
    if fetched.value.None? {
      return Err(SettlementNotConfirmed(txHash));
    }
    var (receipt, tx) := fetched.value.value;
    var pin :- PinFor(network);
    r := Compare(txHash, pin, expected, receipt, tx);
  }

  lemma FirstTransferFound(pin: Pinned, logs: seq<Log>) returns (i: nat)
    requires FirstTransfer(pin, logs).Some?
    ensures i < |logs| && IsTransfer(pin, logs[i]) && FirstTransfer(pin, logs) == Some(TransferOf(logs[i]))
    ensures forall j :: 0 <= j < i ==> !IsTransfer(pin, logs[j])
  {
    var p := (log: Log) => IsTransfer(pin, log);
    FindIsFirst(p, logs);
    i :| 0 <= i < |logs| && p(logs[i]) && logs[i] == Find(p, logs).value && forall j :: 0 <= j < i ==> !p(logs[j]);
    forall j | 0 <= j < i ensures !IsTransfer(pin, logs[j]) {
      assert !p(logs[j]);
    }
  }

  lemma NoMismatch(pin: Pinned, expected: Expected, statusOk: bool, transfer: Option<Transfer>)
    ensures Mismatches(pin, expected, statusOk, transfer) == [] <==>
              && statusOk && transfer.Some? && Digits(expected.asset) == Digits(pin.token)
              && transfer.value.sender == Lower(expected.payer)
              && transfer.value.recipient == Lower(expected.payTo)
              && transfer.value.value == Truncate(expected.amount * ATOMS)
  {
    assert |Mismatches(pin, expected, statusOk, transfer)| == 0 <==> Mismatches(pin, expected, statusOk, transfer) == [];
  }
}
