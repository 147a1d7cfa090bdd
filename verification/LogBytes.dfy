/** What a settlement says of the receipt's own bytes. */
module LogBytes {
  import opened Sequences
  import opened Errors
  import opened Abi
  import opened Json
  import opened Offers
  import opened Settlement

  // ----- texts and the bytes they write

  lemma HexNames(b: Bytes, s: string)
    ensures ToHex(b) == s <==> FromHex(s) == Ok(b)
  {
    FromToHex(b);
    if FromHex(s) == Ok(b) {
      FromHexInjective(s, ToHex(b));
    }
  }

  predicate HexPrefixed(s: string) {
    |s| >= 2 && s[0] == '0' && (s[1] == 'x' || s[1] == 'X')
  }

  /** The text is 0x and the hexadecimal digits, in either case, of these bytes. */
  predicate Denotes(addr: string, b: Bytes) {
    HexPrefixed(addr) && FromHex(Lower(addr[2..])) == Ok(b)
  }

  lemma PrefixLowered(addr: string)
    ensures HexPrefixed(addr) <==> "0x" <= Lower(addr)
    ensures HexPrefixed(addr) ==> Lower(addr)[2..] == Lower(addr[2..])
  {
    if |addr| >= 2 {
      LoweredIs(addr[0], '0');
      LoweredIs(addr[1], 'x');
      assert Lower(addr)[0] == LowerChar(addr[0]) && Lower(addr)[1] == LowerChar(addr[1]);
      assert "0x" <= Lower(addr) <==> Lower(addr)[..2] == "0x";
    }
  }

  lemma LoweredIs(c: char, d: char)
    requires d == '0' || d == 'x'
    ensures LowerChar(c) == d <==> c == d || (d == 'x' && c == 'X')
  {
  }

  lemma TopicDenotes(topic: Topic, addr: string)
    ensures TopicAddress(topic) == Lower(addr) <==> Denotes(addr, topic[12..])
  {
    var s := ToHex(topic[12..]);
    PrefixLowered(addr);
    HexNames(topic[12..], Lower(if |addr| < 2 then "" else addr[2..]));
    assert ("0x" + s)[2..] == s;
    if HexPrefixed(addr) {
      assert Lower(addr) == "0x" + Lower(addr)[2..];
    }
  }

  /** The text is accepted as an address: twenty bytes in hexadecimal, with or without a prefix. */
  predicate AddressOf(s: string, b: Bytes) {
    |b| == 20 && (Denotes(s, b) || FromHex(Lower(s)) == Ok(b))
  }

  lemma {:induction false} FromHexShape(s: string)
    requires FromHex(s).Ok?
    ensures |s| == 2 * |FromHex(s).value| && forall i :: 0 <= i < |s| ==> HexDigit(s[i]).Some?
    decreases |s|
  {
    if s != [] {
      FromHexHead(s);
      FromHexShape(s[2..]);
      assert s == [s[0], s[1]] + s[2..];
    }
  }

  lemma AddressDigits(s: string, b: Bytes)
    ensures AddressOf(s, b) <==> |b| == 20 && FromHex(Digits(s)) == Ok(b)
  {
    PrefixLowered(s);
    if HexPrefixed(s) {
      LoweredIs(s[1], 'x');
      if FromHex(Lower(s)).Ok? {
        FromHexShape(Lower(s));
        assert false;
      }
    }
  }

  /** to_checksum_address accepts exactly these texts, and tells them apart by their bytes. */
  lemma AddressesExactly(s: string)
    ensures IsHexAddress(s) <==> exists b :: AddressOf(s, b)
  {
    if IsHexAddress(s) {
      FromHexDefined(Digits(s));
      AddressDigits(s, FromHex(Digits(s)).value);
    } else if b :| AddressOf(s, b) {
      AddressDigits(s, b);
      FromHexShape(Digits(s));
    }
  }

  lemma SameAddress(s: string, t: string, b: Bytes, c: Bytes)
    requires AddressOf(s, b) && AddressOf(t, c)
    ensures Digits(s) == Digits(t) <==> b == c
  {
    AddressDigits(s, b);
    AddressDigits(t, c);
    if b == c {
      FromHexInjective(Digits(s), Digits(t));
    }
  }

  // ----- logs

  /** What is pinned for each network: the token, and the topic of an ERC-20 Transfer. */
  lemma PinnedExactly(network: int)
    ensures match network
            case 84532 => PinFor(network) == Ok(Pinned("0x036CbD53842c5426634e7929541eC2318f3dCF7e", TransferTopic()))
            case 8453 => PinFor(network) == Ok(Pinned("0x833589fCD6eDb6E08f4c7C32D4f71b54bdA02913", TransferTopic()))
            case _ => PinFor(network) == Err(KeyError)
  {
  }

  function TransferTopic(): string {
    "ddf252ad1be2c89b69c2b068fc378daa952ba7f163c4a11628f55a4df523b3ef"
  }

  /** A Transfer event of the token, whose address is text in either case. */
  predicate TokenTransfer(pin: Pinned, log: Log) {
    |log.topics| >= 3 && Lower(log.address) == Lower(pin.token) && FromHex(pin.topic) == Ok(log.topics[0])
  }

  lemma TransferOnBytes(pin: Pinned, log: Log)
    ensures IsTransfer(pin, log) <==> TokenTransfer(pin, log)
  {
    if |log.topics| >= 3 {
      HexNames(log.topics[0], pin.topic);
    }
  }

  /** The first Transfer of the token in the logs. */
  predicate FirstAt(pin: Pinned, logs: seq<Log>, i: nat) {
    i < |logs| && TokenTransfer(pin, logs[i]) && forall j :: 0 <= j < i ==> !TokenTransfer(pin, logs[j])
  }

  /** n is the amount in atoms, towards zero. */
  predicate AtomsOf(amount: real, n: nat) {
    if amount < 0.0 then n == 0 && amount * 1000000.0 > -1.0
    else n as real <= amount * 1000000.0 < n as real + 1.0
  }

  lemma TruncatesTo(amount: real, n: nat)
    ensures n == Truncate(amount * ATOMS) <==> AtomsOf(amount, n)
  {
  }

  /** The sender is the last twenty bytes of the second topic, the recipient those of the third, and
      the data is the number of atoms, big-endian. */
  predicate PaysFrom(payer: string, log: Log) {
    |log.topics| >= 3 && Denotes(payer, log.topics[1][12..])
  }

  predicate PaysTo(payTo: string, log: Log) {
    |log.topics| >= 3 && Denotes(payTo, log.topics[2][12..])
  }

  predicate PaysAtoms(amount: real, log: Log) {
    AtomsOf(amount, FromBytes(log.data))
  }

  /** The first Transfer of the token pays the amount from the payer to the payee. */
  ghost predicate FirstPays(pin: Pinned, payer: string, payTo: string, amount: real, logs: seq<Log>) {
    exists i: nat :: FirstAt(pin, logs, i) && PaysFrom(payer, logs[i]) && PaysTo(payTo, logs[i]) && PaysAtoms(amount, logs[i])
  }

  lemma ScanOnBytes(pin: Pinned, logs: seq<Log>) returns (i: nat)
    ensures FirstTransfer(pin, logs).Some? ==> FirstAt(pin, logs, i) && FirstTransfer(pin, logs).value == TransferOf(logs[i])
    ensures FirstTransfer(pin, logs).None? ==> forall k :: !FirstAt(pin, logs, k)
  {
    forall log | log in logs ensures IsTransfer(pin, log) <==> TokenTransfer(pin, log) {
      TransferOnBytes(pin, log);
    }
    if FirstTransfer(pin, logs).Some? {
      i := FirstTransferFound(pin, logs);
    } else {
      i := 0;
      assert forall log :: log in logs ==> !IsTransfer(pin, log);
    }
  }

  lemma TransferMeans(log: Log, expected: Expected)
    requires |log.topics| >= 3
    ensures TransferOf(log).sender == Lower(expected.payer) <==> PaysFrom(expected.payer, log)
    ensures TransferOf(log).recipient == Lower(expected.payTo) <==> PaysTo(expected.payTo, log)
    ensures TransferOf(log).value == Truncate(expected.amount * ATOMS) <==> PaysAtoms(expected.amount, log)
  {
    TopicDenotes(log.topics[1], expected.payer);
    TopicDenotes(log.topics[2], expected.payTo);
    TruncatesTo(expected.amount, FromBytes(log.data));
  }

  // ----- what a verification says

  /** When each mismatch is reported. */
  ghost predicate Reports(pin: Pinned, expected: Expected, receipt: Receipt, m: Mismatch) {
    match m
    case BadStatus => receipt.status != 1
    case NoTransferLog => forall i :: !FirstAt(pin, receipt.logs, i)
    case WrongPayer => exists i: nat :: FirstAt(pin, receipt.logs, i) && !PaysFrom(expected.payer, receipt.logs[i])
    case WrongPayee => exists i: nat :: FirstAt(pin, receipt.logs, i) && !PaysTo(expected.payTo, receipt.logs[i])
    case WrongAmount => exists i: nat :: FirstAt(pin, receipt.logs, i) && !PaysAtoms(expected.amount, receipt.logs[i])
    case WrongAsset => Digits(expected.asset) != Digits(pin.token)
  }

  lemma MismatchesMean(pin: Pinned, expected: Expected, receipt: Receipt, m: Mismatch)
    ensures m in Mismatches(pin, expected, receipt.status == 1, FirstTransfer(pin, receipt.logs))
            <==> Reports(pin, expected, receipt, m)
  {
    var i := ScanOnBytes(pin, receipt.logs);
    var transfer := FirstTransfer(pin, receipt.logs);
    if transfer.Some? {
      TransferMeans(receipt.logs[i], expected);
      assert forall k :: FirstAt(pin, receipt.logs, k) ==> k == i;
    }
    MismatchIn(pin, expected, receipt.status == 1, transfer, m);
  }

  lemma MismatchIn(pin: Pinned, expected: Expected, statusOk: bool, transfer: Option<Transfer>, m: Mismatch)
    ensures m in Mismatches(pin, expected, statusOk, transfer) <==>
            match m
            case BadStatus => !statusOk
            case NoTransferLog => transfer.None?
            case WrongPayer => transfer.Some? && transfer.value.sender != Lower(expected.payer)
            case WrongPayee => transfer.Some? && transfer.value.recipient != Lower(expected.payTo)
            case WrongAmount => transfer.Some? && transfer.value.value != Truncate(expected.amount * ATOMS)
            case WrongAsset => Digits(expected.asset) != Digits(pin.token)
  {
  }

  ghost predicate Matches(pin: Pinned, expected: Expected, receipt: Receipt) {
    && receipt.status == 1 && Digits(expected.asset) == Digits(pin.token)
    && FirstPays(pin, expected.payer, expected.payTo, expected.amount, receipt.logs)
  }

  /** A settlement matches exactly when the receipt succeeded, the expected asset is the token, and the
      first Transfer of the token pays, byte for byte, what was expected. */
  lemma MatchMeans(txHash: string, pin: Pinned, expected: Expected, receipt: Receipt, tx: Tx)
    ensures Settle(txHash, pin, expected, receipt, tx).MatchesExpected() <==>
            Matches(pin, expected, receipt)
  {
    var i := ScanOnBytes(pin, receipt.logs);
    var transfer := FirstTransfer(pin, receipt.logs);
    NoMismatch(pin, expected, receipt.status == 1, transfer);
    if transfer.Some? {
      TransferMeans(receipt.logs[i], expected);
      assert forall k :: FirstAt(pin, receipt.logs, k) ==> k == i;
    }
  }

  /** The transfer that a settlement quotes is the first Transfer of the token, in lower case and in
      dollars; without one it is empty. */
  ghost predicate QuotesTransfer(pin: Pinned, receipt: Receipt, v: VerifiedSettlement) {
    && (forall i: nat :: FirstAt(pin, receipt.logs, i) ==>
          && Denotes(v.transferFrom, receipt.logs[i].topics[1][12..]) && Lower(v.transferFrom) == v.transferFrom
          && Denotes(v.transferTo, receipt.logs[i].topics[2][12..]) && Lower(v.transferTo) == v.transferTo
          && v.amountAtomic == FromBytes(receipt.logs[i].data))
    && ((forall i: nat :: !FirstAt(pin, receipt.logs, i)) ==> v.transferFrom == "" && v.transferTo == "" && v.amountAtomic == 0)
    && v.amountUsdc * 1000000.0 == v.amountAtomic as real
  }

  lemma SettleQuotes(txHash: string, pin: Pinned, expected: Expected, receipt: Receipt, tx: Tx)
    ensures QuotesTransfer(pin, receipt, Settle(txHash, pin, expected, receipt, tx))
  {
    var i := ScanOnBytes(pin, receipt.logs);
    if FirstTransfer(pin, receipt.logs).Some? {
      TopicQuoted(receipt.logs[i].topics[1]);
      TopicQuoted(receipt.logs[i].topics[2]);
      assert forall k :: FirstAt(pin, receipt.logs, k) ==> k == i;
    }
  }

  lemma TopicQuoted(topic: Topic)
    ensures Denotes(TopicAddress(topic), topic[12..]) && Lower(TopicAddress(topic)) == TopicAddress(topic)
  {
    var s := ToHex(topic[12..]);
    FromToHex(topic[12..]);
    assert ("0x" + s)[2..] == s;
    PrefixLowered("0x" + s);
    assert Lower("0x" + s) == "0x" + s;
  }

  /** On a pinned network, a receipt that was found is judged if the expected asset is an address: the
      mismatches are exactly those that its bytes show, none exactly if its first Transfer of the
      token pays what was expected. Otherwise the verification raises. */
  lemma VerifiesExactly(txHash: string, expected: Expected, network: int, probes: Script, urls: nat)
    requires network == 84532 || network == 8453
    requires ReceiptAndTx(probes, urls).Ok? && ReceiptAndTx(probes, urls).value.Some?
    ensures var r, pin := VerifySettlement(txHash, expected, network, probes, urls), PinFor(network).value;
            var (receipt, tx) := ReceiptAndTx(probes, urls).value.value;
            if forall b :: !AddressOf(expected.asset, b) then r == Err(ValueError) else
              && r.Ok?
              && (r.value.mismatches == [] <==> Matches(pin, expected, receipt))
              && (forall m :: m in r.value.mismatches <==> Reports(pin, expected, receipt, m))
              && QuotesTransfer(pin, receipt, r.value)
              && r.value.txHash == txHash && r.value.blockNumber == receipt.blockNumber
              && (r.value.statusOk <==> receipt.status == 1)
              && r.value.submittedBy == Lower(tx.sender)
              && (r.value.payerPaidGas <==> Lower(tx.sender) == Lower(expected.payer))
  {
    var pin := PinFor(network).value;
    var (receipt, tx) := ReceiptAndTx(probes, urls).value.value;
    AddressesExactly(expected.asset);
    SettlesExactly(txHash, pin, expected, receipt, tx);
  }

  lemma SettlesExactly(txHash: string, pin: Pinned, expected: Expected, receipt: Receipt, tx: Tx)
    ensures var v := Settle(txHash, pin, expected, receipt, tx);
            && (v.mismatches == [] <==> Matches(pin, expected, receipt))
            && (forall m :: m in v.mismatches <==> Reports(pin, expected, receipt, m))
            && QuotesTransfer(pin, receipt, v)
            && v.txHash == txHash && v.blockNumber == receipt.blockNumber
            && (v.statusOk <==> receipt.status == 1)
            && v.submittedBy == Lower(tx.sender)
            && (v.payerPaidGas <==> Lower(tx.sender) == Lower(expected.payer))
  {
    MatchMeans(txHash, pin, expected, receipt, tx);
    SettleQuotes(txHash, pin, expected, receipt, tx);
    forall m ensures m in Settle(txHash, pin, expected, receipt, tx).mismatches <==> Reports(pin, expected, receipt, m) {
      MismatchesMean(pin, expected, receipt, m);
    }
  }
}
