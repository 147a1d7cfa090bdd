/** Offers: pricing untrusted payment terms and choosing the cheapest. */
module Offers {
  import opened Sequences
  import opened Errors
  import opened Json
  import opened Abi

  const BASE_SEPOLIA: int := 84532
  const BASE_MAINNET: int := 8453

  const USDC_SEPOLIA := "0x036CbD53842c5426634e7929541eC2318f3dCF7e"
  const USDC_MAINNET := "0x833589fCD6eDb6E08f4c7C32D4f71b54bdA02913"

  const USDC_BY_CHAIN: map<int, string> := map[BASE_SEPOLIA := USDC_SEPOLIA, BASE_MAINNET := USDC_MAINNET]

  const KNOWN_BASE: map<string, int> := map["base" := BASE_MAINNET, "base-sepolia" := BASE_SEPOLIA]

  const EIP155 := "eip155:"
  const EXACT := "exact"
  const AUTHORIZATION := "transferWithAuthorization"

  const ATOMS: real := 1000000.0

  /** What a text is as an amount of atoms: Decimal(text) raises, or dividing it by 10^6 overflows,
      or it is no number, infinite or finite. */
  datatype DecimalText = NotDecimal | Overflows | NanDecimal | InfiniteDecimal(positive: bool) | Finite(atoms: real)

  /** Python's int(text), None where it raises, Decimal(text), and str() of what is not text. */
  datatype Parsers = Parsers(parseInt: string -> Option<int>, parseDecimal: string -> DecimalText, str: Json -> string)

  function StrOf(p: Parsers, j: Json): string {
    if j.Text? then j.s else p.str(j)
  }

  /** _int_or: the default stands in for ValueError and TypeError, not for OverflowError. */
  function IntOr(p: Parsers, raw: Json, default: int): Result<int> {
    match raw
    case Bool(b) => Ok(if b then 1 else 0)
    case Int(i) => Ok(i)
    case Float(x) => Ok(Truncate(x))
    case Infinite(_) => Err(OverflowError)
    case Text(s) => (match p.parseInt(s) case Some(i) => Ok(i) case None => Ok(default))
    case _ => Ok(default)
  }

  datatype Unsatisfiable =
    UnparseableAmount | NegativeAmount | UnsupportedScheme | UnsupportedNetwork | UnpinnedAsset | UnsupportedTransfer

  /** An infinite amount is flagged and its number is of no account. */
  datatype Offer = Offer(
    network: string,
    chainId: Option<int>,
    asset: string,
    amount: real,
    unbounded: bool,
    payTo: string,
    maxTimeoutSeconds: int,
    reason: Option<Unsatisfiable>)
  {
    predicate Satisfiable() {
      reason.None?
    }
  }

  function ChainIdOf(p: Parsers, network: string): Option<int> {
    if network == "" then None
    else if EIP155 <= network then p.parseInt(network[|EIP155|..])
    else if network in KNOWN_BASE then Some(KNOWN_BASE[network])
    else None
  }

  predicate PinnedAsset(chainId: Option<int>, asset: string) {
    chainId.Some? && chainId.value in USDC_BY_CHAIN && Lower(asset) == Lower(USDC_BY_CHAIN[chainId.value])
  }

  // ----- one entry

  function AmountOf(p: Parsers, fields: map<string, Json>): DecimalText {
    p.parseDecimal(StrOf(p, Get(fields, "amount", Text("0"))))
  }

  function Extra(fields: map<string, Json>): Json {
    Get(fields, "extra", Null)
  }

  predicate BadExtra(fields: map<string, Json>) {
    Truthy(Extra(fields)) && !Extra(fields).Object?
  }

  function Method(fields: map<string, Json>): Json
    requires !BadExtra(fields)
  {
    var named := if Extra(fields).Object? then Get(Extra(fields).fields, "assetTransferMethod", Null) else Null;
    if Truthy(named) then named else Text(AUTHORIZATION)
  }

  predicate Negative(amount: DecimalText) {
    match amount
    case Finite(atoms) => atoms / ATOMS < 0.0
    case InfiniteDecimal(positive) => !positive
    case _ => false
  }

  function ReasonAgainst(p: Parsers, fields: map<string, Json>): Option<Unsatisfiable>
    requires !BadExtra(fields)
  {
    var chainId := ChainIdOf(p, StrOf(p, Get(fields, "network", Text(""))));
    if AmountOf(p, fields).NotDecimal? then Some(UnparseableAmount)
    else if Negative(AmountOf(p, fields)) then Some(NegativeAmount)
    else if Get(fields, "scheme", Null) != Text(EXACT) then Some(UnsupportedScheme)
    else if chainId.None? || chainId.value !in USDC_BY_CHAIN then Some(UnsupportedNetwork)
    else if !PinnedAsset(chainId, StrOf(p, Get(fields, "asset", Text("")))) then Some(UnpinnedAsset)
    else if Method(fields) != Text(AUTHORIZATION) then Some(UnsupportedTransfer)
    else None
  }

  /** _offer_from_entry. A comparison with NaN raises, and so does a division that overflows. */
  function OfferFrom(p: Parsers, entry: Json): Result<Offer> {
    if !entry.Object? then Err(AttributeError)
    else if AmountOf(p, entry.fields).Overflows? then Err(DecimalOverflow)
    else if BadExtra(entry.fields) then Err(AttributeError)
    else if AmountOf(p, entry.fields).NanDecimal? then Err(InvalidOperation)
    else
      var network, amount := StrOf(p, Get(entry.fields, "network", Text(""))), AmountOf(p, entry.fields);
      var timeout :- IntOr(p, Get(entry.fields, "maxTimeoutSeconds", Int(0)), 0);
      Ok(Offer(network, ChainIdOf(p, network), StrOf(p, Get(entry.fields, "asset", Text(""))),
               if amount.Finite? then amount.atoms / ATOMS else 0.0, amount.InfiniteDecimal?,
               StrOf(p, Get(entry.fields, "payTo", Text(""))), timeout, ReasonAgainst(p, entry.fields)))
  }

  // ----- the terms

  /** The entries to price, or the exception of iterating what is no list. */
  function Accepted(fields: map<string, Json>): Result<seq<Json>> {
    var accepts := Get(fields, "accepts", Null);
    if !Truthy(accepts) then Ok([]) else
      match accepts
      case List(items) => Ok(items)
      case Object(_) => Err(AttributeError)
      case Text(_) => Err(AttributeError)
      case _ => Err(TypeError)
  }

  /** The entries in turn; the first exception ends it. */
  function OffersFrom(p: Parsers, items: seq<Json>): Result<seq<Offer>> {
    if items == [] then Ok([]) else
      var first :- OfferFrom(p, items[0]);
      var rest :- OffersFrom(p, items[1..]);
      Ok([first] + rest)
  }

  /** The first cheapest satisfiable offer; infinite amounts come after all others. */
  function BestOffer(offers: seq<Offer>): Option<Offer> {
    match FirstMin((o: Offer) => o.amount, Filter((o: Offer) => o.Satisfiable() && !o.unbounded, offers))
    case Some(o) => Some(o)
    case None => Find((o: Offer) => o.Satisfiable(), offers)
  }

  datatype Quote = Quote(version: int, offers: seq<Offer>, best: Option<Offer>)

  function ParseTerms(p: Parsers, fields: map<string, Json>): Result<Quote> {
    var version :- IntOr(p, Get(fields, "x402Version", Int(1)), 1);
    var items :- Accepted(fields);
    var offers :- OffersFrom(p, items);
    Ok(Quote(version, offers, BestOffer(offers)))
  }

  // ----- what an entry says of itself

  /** Exactly these values are false in Python. */
  lemma FalsyExactly(j: Json)
    ensures !Truthy(j) <==>
            j == Null || j == Bool(false) || j == Int(0) || j == Float(0.0) || j == Text("") || j == List([]) || j == Object(map[])
  {
  }

  /** The text of a field, or the default where it is absent. */
  function TextIn(p: Parsers, fields: map<string, Json>, key: string, default: string): string {
    if key !in fields then default
    else if fields[key].Text? then fields[key].s
    else p.str(fields[key])
  }

  function DecimalIn(p: Parsers, fields: map<string, Json>): DecimalText {
    p.parseDecimal(TextIn(p, fields, "amount", "0"))
  }

  /** CAIP-2 with a number, or one of the two names that are known. */
  predicate NetworkIs(p: Parsers, network: string, chain: int) {
    || (|network| >= 7 && network[..7] == "eip155:" && p.parseInt(network[7..]) == Some(chain))
    || (network == "base" && chain == 8453)
    || (network == "base-sepolia" && chain == 84532)
  }

  lemma ChainIdExactly(p: Parsers, network: string, chain: int)
    ensures ChainIdOf(p, network) == Some(chain) <==> NetworkIs(p, network, chain)
  {
    assert EIP155 <= network <==> |network| >= 7 && network[..7] == "eip155:";
    assert |"base"| == 4 && "base-sepolia"[0] == 'b';
  }

  predicate TokenOf(chain: int, asset: string) {
    || (chain == 8453 && Lower(asset) == Lower(USDC_MAINNET))
    || (chain == 84532 && Lower(asset) == Lower(USDC_SEPOLIA))
  }

  lemma PinnedExactly(chainId: Option<int>, asset: string)
    ensures PinnedAsset(chainId, asset) <==> chainId.Some? && TokenOf(chainId.value, asset)
  {
  }

  /** The named field is absent or false. */
  predicate Unset(fields: map<string, Json>, key: string) {
    key !in fields || !Truthy(fields[key])
  }

  /** No transfer method is named, or the one that is supported. */
  predicate MethodFine(fields: map<string, Json>) {
    || Unset(fields, "extra")
    || (fields["extra"].Object?
        && (Unset(fields["extra"].fields, "assetTransferMethod")
            || fields["extra"].fields["assetTransferMethod"] == Text("transferWithAuthorization")))
  }

  lemma MethodExactly(fields: map<string, Json>)
    requires !BadExtra(fields)
    ensures Method(fields) == Text(AUTHORIZATION) <==> MethodFine(fields)
  {
  }

  predicate AmountFine(amount: DecimalText) {
    (amount.Finite? && amount.atoms >= 0.0) || amount == InfiniteDecimal(true)
  }

  predicate SchemeFine(fields: map<string, Json>) {
    "scheme" in fields && fields["scheme"] == Text("exact")
  }

  ghost predicate OnBase(p: Parsers, network: string) {
    exists chain :: NetworkIs(p, network, chain) && (chain == 8453 || chain == 84532)
  }

  ghost predicate TokenFine(p: Parsers, network: string, asset: string) {
    exists chain :: NetworkIs(p, network, chain) && TokenOf(chain, asset)
  }

  /** The entry can be paid: a price that is not negative, the exact scheme, the token that is pinned
      for its network, and no other transfer method. */
  ghost predicate Sells(p: Parsers, fields: map<string, Json>) {
    && AmountFine(DecimalIn(p, fields)) && SchemeFine(fields)
    && TokenFine(p, TextIn(p, fields, "network", ""), TextIn(p, fields, "asset", ""))
    && MethodFine(fields)
  }

  /** Why an entry cannot be paid: the first of the checks that it fails. */
  ghost predicate Fails(p: Parsers, fields: map<string, Json>, why: Unsatisfiable) {
    var amount, network, asset := DecimalIn(p, fields), TextIn(p, fields, "network", ""), TextIn(p, fields, "asset", "");
    match why
    case UnparseableAmount => amount.NotDecimal?
    case NegativeAmount => !amount.NotDecimal? && !AmountFine(amount)
    case UnsupportedScheme => AmountFine(amount) && !SchemeFine(fields)
    case UnsupportedNetwork => AmountFine(amount) && SchemeFine(fields) && !OnBase(p, network)
    case UnpinnedAsset => AmountFine(amount) && SchemeFine(fields) && OnBase(p, network) && !TokenFine(p, network, asset)
    case UnsupportedTransfer =>
      AmountFine(amount) && SchemeFine(fields) && TokenFine(p, network, asset) && !MethodFine(fields)
  }

  /** raw as an integer: towards zero, and the default for what is no number. */
  predicate ReadsAs(p: Parsers, raw: Json, default: int, n: int) {
    match raw
    case Bool(b) => n == if b then 1 else 0
    case Int(i) => n == i
    case Float(x) => if x < 0.0 then n as real - 1.0 < x <= n as real <= 0.0 else n as real <= x < n as real + 1.0
    case Text(s) => Some(n) == p.parseInt(s) || (p.parseInt(s).None? && n == default)
    case _ => n == default
  }

  lemma IntExactly(p: Parsers, raw: Json, default: int)
    ensures IntOr(p, raw, default).Err? <==> raw.Infinite?
    ensures IntOr(p, raw, default).Err? ==> IntOr(p, raw, default).error == OverflowError
    ensures IntOr(p, raw, default).Ok? ==> ReadsAs(p, raw, default, IntOr(p, raw, default).value)
  {
  }

  /** What the offer takes over from the entry. */
  ghost predicate Quotes(p: Parsers, fields: map<string, Json>, o: Offer) {
    && o.network == TextIn(p, fields, "network", "")
    && (forall chain :: o.chainId == Some(chain) <==> NetworkIs(p, o.network, chain))
    && o.asset == TextIn(p, fields, "asset", "")
    && o.payTo == TextIn(p, fields, "payTo", "")
    && (if "maxTimeoutSeconds" in fields then ReadsAs(p, fields["maxTimeoutSeconds"], 0, o.maxTimeoutSeconds)
        else o.maxTimeoutSeconds == 0)
    && match DecimalIn(p, fields)
       case Finite(atoms) => o.amount * 1000000.0 == atoms && !o.unbounded
       case InfiniteDecimal(_) => o.unbounded
       case _ => o.amount == 0.0 && !o.unbounded
  }

  // ----- when terms raise

  /** An entry that is no object, has an amount without an order or out of range, an extra that is true
      of something but no object, or an infinite timeout. */
  predicate EntryRaises(p: Parsers, entry: Json) {
    || !entry.Object?
    || DecimalIn(p, entry.fields).Overflows? || DecimalIn(p, entry.fields).NanDecimal?
    || (!Unset(entry.fields, "extra") && !entry.fields["extra"].Object?)
    || ("maxTimeoutSeconds" in entry.fields && entry.fields["maxTimeoutSeconds"].Infinite?)
  }

  /** Terms that cannot be read: an infinite version, accepts that is true of something but no list,
      or an entry that raises. */
  predicate TermsRaise(p: Parsers, fields: map<string, Json>) {
    || ("x402Version" in fields && fields["x402Version"].Infinite?)
    || (!Unset(fields, "accepts") && !fields["accepts"].List?)
    || (exists i :: 0 <= i < |ItemsIn(fields)| && EntryRaises(p, ItemsIn(fields)[i]))
  }

  /** The entries that the terms list. */
  function ItemsIn(fields: map<string, Json>): seq<Json> {
    if "accepts" in fields && fields["accepts"].List? then fields["accepts"].items else []
  }

  lemma EntryRaisesExactly(p: Parsers, entry: Json)
    ensures OfferFrom(p, entry).Err? <==> EntryRaises(p, entry)
  {
  }

  /** An entry that does not raise is quoted field by field, and its offer is satisfiable exactly if the
      entry can be paid; if not, its reason is the first check that failed. */
  lemma OfferExactly(p: Parsers, entry: Json)
    requires OfferFrom(p, entry).Ok?
    ensures entry.Object? && Quotes(p, entry.fields, OfferFrom(p, entry).value)
    ensures OfferFrom(p, entry).value.Satisfiable() <==> Sells(p, entry.fields)
    ensures forall why :: OfferFrom(p, entry).value.reason == Some(why) <==> Fails(p, entry.fields, why)
  {
    var o, f := OfferFrom(p, entry).value, entry.fields;
    forall chain ensures o.chainId == Some(chain) <==> NetworkIs(p, o.network, chain) {
      ChainIdExactly(p, o.network, chain);
    }
    IntExactly(p, Get(f, "maxTimeoutSeconds", Int(0)), 0);
    MethodExactly(f);
    PlacedExactly(p, o.network, o.asset, o.chainId);
    ChecksExactly(p, f, o.chainId);
  }

  lemma PlacedExactly(p: Parsers, network: string, asset: string, chainId: Option<int>)
    requires forall chain :: chainId == Some(chain) <==> NetworkIs(p, network, chain)
    ensures OnBase(p, network) <==> chainId.Some? && chainId.value in USDC_BY_CHAIN
    ensures TokenFine(p, network, asset) <==> PinnedAsset(chainId, asset)
  {
    PinnedExactly(chainId, asset);
  }

  lemma ChecksExactly(p: Parsers, fields: map<string, Json>, chainId: Option<int>)
    requires !BadExtra(fields) && !AmountOf(p, fields).Overflows? && !AmountOf(p, fields).NanDecimal?
    requires chainId == ChainIdOf(p, TextIn(p, fields, "network", ""))
    requires OnBase(p, TextIn(p, fields, "network", "")) <==> chainId.Some? && chainId.value in USDC_BY_CHAIN
    requires TokenFine(p, TextIn(p, fields, "network", ""), TextIn(p, fields, "asset", ""))
             <==> PinnedAsset(chainId, TextIn(p, fields, "asset", ""))
    requires Method(fields) == Text(AUTHORIZATION) <==> MethodFine(fields)
    ensures ReasonAgainst(p, fields).None? <==> Sells(p, fields)
    ensures forall why :: ReasonAgainst(p, fields) == Some(why) <==> Fails(p, fields, why)
  {
  }

  lemma {:induction false} OffersRaiseExactly(p: Parsers, items: seq<Json>)
    ensures OffersFrom(p, items).Err? <==> exists i :: 0 <= i < |items| && EntryRaises(p, items[i])
    ensures OffersFrom(p, items).Ok? ==>
              && |OffersFrom(p, items).value| == |items|
              && forall i :: 0 <= i < |items| ==> OfferFrom(p, items[i]) == Ok(OffersFrom(p, items).value[i])
  {
    if items != [] {
      EntryRaisesExactly(p, items[0]);
      OffersRaiseExactly(p, items[1..]);
      assert forall i :: 0 < i < |items| ==> items[i] == items[1..][i - 1];
      if OffersFrom(p, items[1..]).Err? {
        var k :| 0 <= k < |items[1..]| && EntryRaises(p, items[1..][k]);
        assert EntryRaises(p, items[k + 1]);
      }
    }
  }

  lemma ParseTermsRaises(p: Parsers, fields: map<string, Json>)
    ensures ParseTerms(p, fields).Err? <==> TermsRaise(p, fields)
    ensures ParseTerms(p, fields).Err? ==>
              ParseTerms(p, fields).error in {OverflowError, DecimalOverflow, InvalidOperation, AttributeError, TypeError}
  {
    AcceptedExactly(fields);
    IntExactly(p, Get(fields, "x402Version", Int(1)), 1);
    if Accepted(fields).Ok? {
      OffersRaiseExactly(p, Accepted(fields).value);
      OffersErrors(p, Accepted(fields).value);
    } else {
      assert ItemsIn(fields) == [];
    }
  }

  lemma AcceptedExactly(fields: map<string, Json>)
    ensures Accepted(fields).Err? <==> !Unset(fields, "accepts") && !fields["accepts"].List?
    ensures Accepted(fields).Err? ==>
              Accepted(fields).error == if fields["accepts"].Object? || fields["accepts"].Text? then AttributeError else TypeError
    ensures Accepted(fields).Ok? ==> Accepted(fields).value == ItemsIn(fields)
  {
  }

  lemma {:induction false} OffersErrors(p: Parsers, items: seq<Json>)
    ensures OffersFrom(p, items).Err? ==>
              OffersFrom(p, items).error in {OverflowError, DecimalOverflow, InvalidOperation, AttributeError}
  {
    if items != [] {
      OffersErrors(p, items[1..]);
    }
  }

  // ----- what the best offer is

  /** What an offer has to be before it can be paid at all. */
  predicate Payable(o: Offer) {
    o.Satisfiable() && !o.unbounded && o.amount >= 0.0 && PinnedAsset(o.chainId, o.asset)
  }

  predicate Cheaper(o: Offer, other: Offer) {
    !o.unbounded && (other.unbounded || o.amount < other.amount)
  }

  predicate NoDearer(o: Offer, other: Offer) {
    other.unbounded || (!o.unbounded && o.amount <= other.amount)
  }

  /** Satisfiable, cheaper than every satisfiable offer before and no dearer than any after. */
  predicate CheapestAt(offers: seq<Offer>, i: nat)
    requires i < |offers|
  {
    && offers[i].Satisfiable()
    && forall j :: 0 <= j < |offers| && offers[j].Satisfiable() ==>
         if j < i then Cheaper(offers[i], offers[j]) else NoDearer(offers[i], offers[j])
  }

  ghost predicate FirstCheapest(offers: seq<Offer>, o: Offer) {
    exists i :: 0 <= i < |offers| && CheapestAt(offers, i) && offers[i] == o
  }

  lemma BestIsFirstCheapest(offers: seq<Offer>)
    requires BestOffer(offers).Some?
    ensures FirstCheapest(offers, BestOffer(offers).value)
  {
    var bounded := (o: Offer) => o.Satisfiable() && !o.unbounded;
    var kept := Filter(bounded, offers);
    FirstMinIsFirst((o: Offer) => o.amount, kept);
    if kept != [] {
      var i := FirstMinFiltered((o: Offer) => o.amount, bounded, offers);
      BoundedCheapest(offers, i);
    } else {
      var satisfiable := (o: Offer) => o.Satisfiable();
      FindIsFirst(satisfiable, offers);
      var i :| 0 <= i < |offers| && satisfiable(offers[i]) && offers[i] == BestOffer(offers).value
               && forall j :: 0 <= j < i ==> !satisfiable(offers[j]);
      forall j | 0 <= j < i ensures !offers[j].Satisfiable() {
        assert !satisfiable(offers[j]);
      }
      UnboundedCheapest(offers, i);
    }
  }

  lemma BoundedCheapest(offers: seq<Offer>, i: nat)
    requires FirstKept((o: Offer) => o.amount, (o: Offer) => o.Satisfiable() && !o.unbounded, offers, i)
    ensures CheapestAt(offers, i)
  {
  }

  lemma UnboundedCheapest(offers: seq<Offer>, i: nat)
    requires i < |offers| && offers[i].Satisfiable()
    requires forall j :: 0 <= j < i ==> !offers[j].Satisfiable()
    requires Filter((o: Offer) => o.Satisfiable() && !o.unbounded, offers) == []
    ensures CheapestAt(offers, i)
  {
    forall j | 0 <= j < |offers| && offers[j].Satisfiable() ensures offers[j].unbounded {
      assert offers[j] in offers && offers[j] !in Filter((o: Offer) => o.Satisfiable() && !o.unbounded, offers);
    }
  }

  lemma NoBestOffer(offers: seq<Offer>)
    ensures BestOffer(offers).None? <==> forall i :: 0 <= i < |offers| ==> !offers[i].Satisfiable()
  {
    var kept := Filter((o: Offer) => o.Satisfiable() && !o.unbounded, offers);
    FirstMinIsFirst((o: Offer) => o.amount, kept);
    if kept != [] {
      assert kept[0] in offers && kept[0].Satisfiable();
    } else if BestOffer(offers).None? {
      forall i | 0 <= i < |offers| ensures !offers[i].Satisfiable() {
        assert offers[i] in offers;
      }
    }
  }

  /** The offer of the first cheapest entry that can be paid. */
  ghost predicate FirstCheapestOf(p: Parsers, items: seq<Json>, o: Offer) {
    exists i :: 0 <= i < |items| && OfferFrom(p, items[i]) == Ok(o) && CanBePaid(p, items[i]) && CheapestEntry(p, items, i, o)
  }

  ghost predicate CanBePaid(p: Parsers, entry: Json) {
    entry.Object? && Sells(p, entry.fields)
  }

  ghost predicate CheapestEntry(p: Parsers, items: seq<Json>, i: nat, o: Offer) {
    forall j :: 0 <= j < |items| && CanBePaid(p, items[j]) && OfferFrom(p, items[j]).Ok? ==>
      if j < i then Cheaper(o, OfferFrom(p, items[j]).value) else NoDearer(o, OfferFrom(p, items[j]).value)
  }

  /** The best offer is that of the first cheapest entry, and missing exactly if no entry can be paid. */
  lemma BestExactly(p: Parsers, items: seq<Json>)
    requires OffersFrom(p, items).Ok?
    ensures forall o :: BestOffer(OffersFrom(p, items).value) == Some(o) <==> FirstCheapestOf(p, items, o)
    ensures BestOffer(OffersFrom(p, items).value) == None <==> forall i :: 0 <= i < |items| ==> !CanBePaid(p, items[i])
  {
    var offers := OffersFrom(p, items).value;
    OffersRaiseExactly(p, items);
    forall i | 0 <= i < |items| ensures offers[i].Satisfiable() <==> CanBePaid(p, items[i]) {
      OfferExactly(p, items[i]);
    }
    NoBestOffer(offers);
    forall o ensures BestOffer(offers) == Some(o) <==> FirstCheapestOf(p, items, o) {
      if BestOffer(offers) == Some(o) {
        BestOfEntries(p, items, offers, o);
      } else if FirstCheapestOf(p, items, o) {
        var i :| 0 <= i < |items| && OfferFrom(p, items[i]) == Ok(o) && CanBePaid(p, items[i]) && CheapestEntry(p, items, i, o);
        FirstEntryIsBest(p, items, offers, i);
      }
    }
  }

  lemma BestOfEntries(p: Parsers, items: seq<Json>, offers: seq<Offer>, o: Offer)
    requires |offers| == |items| && forall j :: 0 <= j < |items| ==> OfferFrom(p, items[j]) == Ok(offers[j])
    requires forall j :: 0 <= j < |items| ==> (offers[j].Satisfiable() <==> CanBePaid(p, items[j]))
    requires BestOffer(offers) == Some(o)
    ensures FirstCheapestOf(p, items, o)
  {
    BestIsFirstCheapest(offers);
    var i :| 0 <= i < |offers| && CheapestAt(offers, i) && offers[i] == o;
    forall j | 0 <= j < |items| && CanBePaid(p, items[j])
      ensures if j < i then Cheaper(o, OfferFrom(p, items[j]).value) else NoDearer(o, OfferFrom(p, items[j]).value)
    {
      assert OfferFrom(p, items[j]) == Ok(offers[j]);
    }
    assert CheapestEntry(p, items, i, o);
  }

  lemma FirstEntryIsBest(p: Parsers, items: seq<Json>, offers: seq<Offer>, i: nat)
    requires |offers| == |items| && forall j :: 0 <= j < |items| ==> OfferFrom(p, items[j]) == Ok(offers[j])
    requires forall j :: 0 <= j < |items| ==> (offers[j].Satisfiable() <==> CanBePaid(p, items[j]))
    requires i < |items| && CanBePaid(p, items[i]) && CheapestEntry(p, items, i, offers[i])
    ensures BestOffer(offers) == Some(offers[i])
  {
    forall j | 0 <= j < |offers| && offers[j].Satisfiable()
      ensures if j < i then Cheaper(offers[i], offers[j]) else NoDearer(offers[i], offers[j])
    {
      assert CanBePaid(p, items[j]) && OfferFrom(p, items[j]) == Ok(offers[j]);
    }
    assert CheapestAt(offers, i);
    NoBestOffer(offers);
    BestIsFirstCheapest(offers);
    var k :| 0 <= k < |offers| && CheapestAt(offers, k) && offers[k] == BestOffer(offers).value;
    OneFirst(offers, i, k);
  }

  lemma OneFirst(offers: seq<Offer>, i: nat, k: nat)
    requires i < |offers| && k < |offers| && CheapestAt(offers, i) && CheapestAt(offers, k)
    ensures i == k
  {
    assert offers[i].Satisfiable() && offers[k].Satisfiable();
  }

  /** A quote names the version, prices the entries one by one and picks the best of them. */
  lemma QuoteExactly(p: Parsers, fields: map<string, Json>)
    requires ParseTerms(p, fields).Ok?
    ensures var quote, items := ParseTerms(p, fields).value, ItemsIn(fields);
            && (if "x402Version" in fields then ReadsAs(p, fields["x402Version"], 1, quote.version) else quote.version == 1)
            && |quote.offers| == |items| && (forall i :: 0 <= i < |items| ==> OfferFrom(p, items[i]) == Ok(quote.offers[i]))
            && (forall o :: quote.best == Some(o) <==> FirstCheapestOf(p, items, o))
            && (quote.best == None <==> forall i :: 0 <= i < |items| ==> !CanBePaid(p, items[i]))
  {
    AcceptedExactly(fields);
    IntExactly(p, Get(fields, "x402Version", Int(1)), 1);
    OffersRaiseExactly(p, ItemsIn(fields));
    BestExactly(p, ItemsIn(fields));
  }

  /** What is paid can be paid: a finite price that is not negative, in the token pinned for its
      network. */
  lemma FirstCheapestPayable(p: Parsers, items: seq<Json>, o: Offer)
    requires FirstCheapestOf(p, items, o)
    ensures o.unbounded || Payable(o)
  {
    var i :| 0 <= i < |items| && OfferFrom(p, items[i]) == Ok(o) && CanBePaid(p, items[i]);
    OfferExactly(p, items[i]);
  }
}
