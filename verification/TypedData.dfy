/** EIP-712 as its own text defines it (sections "Definition of hashStruct" and "Definition of
    domainSeparator"), and the code's digest as an instance of it. */
module TypedData {
  import opened Errors
  import opened Abi
  import opened Eip712

  /** A value and how it is encoded as one word: an address, an unsigned integer, a dynamic value by
      its hash, or a word as it is. */
  datatype Value = Address(text: string) | Unsigned(n: int) | Dynamic(bytes: Bytes) | Fixed(word: Hash)

  /** One member of a struct: its type, its name and its value. */
  datatype Entry = Entry(kind: string, name: string, value: Value)

  function EncodeValue(h: HashFn, v: Value): Result<Bytes> {
    match v
    case Address(text) => AddressBytes(text)
    case Unsigned(n) => Uint(n)
    case Dynamic(bytes) => Ok(h(bytes))
    case Fixed(word) => Ok(word)
  }

  function Types(entries: seq<Entry>): seq<Member> {
    seq(|entries|, i requires 0 <= i < |entries| => Member(entries[i].kind, entries[i].name))
  }

  /** encodeData: the words of the values in the order of the members. */
  function EncodeData(h: HashFn, entries: seq<Entry>): Result<seq<Bytes>> {
    if entries == [] then Ok([]) else
      var first :- EncodeValue(h, entries[0].value);
      var rest :- EncodeData(h, entries[1..]);
      Ok([first] + rest)
  }

  /** hashStruct: the hash of the type's hash and the data, both from the one list of members. */
  function HashStruct(h: HashFn, name: string, entries: seq<Entry>): Result<Hash> {
    var data :- EncodeData(h, entries);
    Ok(h(Flat([h(Ascii(EncodeType(name, Types(entries))))] + data)))
  }

  /** The digest that is signed for a message under a domain. */
  function TypedDigest(h: HashFn, domain: seq<Entry>, name: string, entries: seq<Entry>): Result<Hash> {
    var separator :- HashStruct(h, "EIP712Domain", domain);
    var message :- HashStruct(h, name, entries);
    Ok(h([0x19, 0x01] + separator + message))
  }

  function Domain(name: string, version: string, chainId: int, contract: string): seq<Entry> {
    [Entry("string", "name", Dynamic(Ascii(name))), Entry("string", "version", Dynamic(Ascii(version))),
     Entry("uint256", "chainId", Unsigned(chainId)), Entry("address", "verifyingContract", Address(contract))]
  }

  function Permission(p: SpendPermission): seq<Entry> {
    [Entry("address", "account", Address(p.account)), Entry("address", "spender", Address(p.spender)),
     Entry("address", "token", Address(p.token)), Entry("uint160", "allowance", Unsigned(p.allowance)),
     Entry("uint48", "period", Unsigned(p.period)), Entry("uint48", "start", Unsigned(p.start)),
     Entry("uint48", "end", Unsigned(p.end)), Entry("uint256", "salt", Unsigned(p.salt)),
     Entry("bytes", "extraData", Dynamic(p.extraData))]
  }

  /** What the owner signs: the manager's digest of the permission, wrapped for the wallet. */
  function Reference(h: HashFn, s: Signed): Result<Hash> {
    var inner :- TypedDigest(h, Domain("Spend Permission Manager", "1", s.chainId, "0xf85210B21cC50302F477BA56686d2019dC9b67Ad"),
                             "SpendPermission", Permission(s.permission));
    TypedDigest(h, Domain("Coinbase Smart Wallet", "1", s.chainId, s.account),
                "CoinbaseSmartWalletMessage", [Entry("bytes32", "hash", Fixed(inner))])
  }

  // ----- the code computes it

  lemma {:induction false} DataWords(h: HashFn, entries: seq<Entry>)
    ensures EncodeData(h, entries).Ok? <==> forall i :: 0 <= i < |entries| ==> EncodeValue(h, entries[i].value).Ok?
    ensures EncodeData(h, entries).Ok? ==>
              && |EncodeData(h, entries).value| == |entries|
              && forall i :: 0 <= i < |entries| ==> EncodeValue(h, entries[i].value) == Ok(EncodeData(h, entries).value[i])
  {
    if entries != [] {
      DataWords(h, entries[1..]);
      assert forall i :: 0 < i < |entries| ==> entries[i] == entries[1..][i - 1];
    }
  }

  ghost predicate EncodesTo(h: HashFn, entries: seq<Entry>, words: seq<Bytes>) {
    |words| == |entries| + 1 && forall i :: 0 <= i < |entries| ==> EncodeValue(h, entries[i].value) == Ok(words[i + 1])
  }

  /** The hash of a list of words that agrees with the data, member by member. */
  lemma SameWords(h: HashFn, typeText: Bytes, entries: seq<Entry>, words: seq<Bytes>)
    requires EncodesTo(h, entries, words) && words[0] == h(typeText)
    ensures EncodeData(h, entries).Ok? && words == [h(typeText)] + EncodeData(h, entries).value
  {
    DataWords(h, entries);
  }

  lemma DomainOf(h: HashFn, t: Texts, name: Bytes, version: Bytes, chainId: int, contract: string, entries: seq<Entry>)
    requires |entries| == 4 && entries[0].value == Dynamic(name) && entries[1].value == Dynamic(version)
    requires entries[2].value == Unsigned(chainId) && entries[3].value == Address(contract)
    ensures var separator, data := DomainSeparator(h, t, name, version, chainId, contract), EncodeData(h, entries);
            && (separator.Ok? <==> data.Ok?)
            && (data.Ok? ==> separator == Ok(h(Flat([h(t.domainType)] + data.value))))
  {
    DataWords(h, entries);
    DomainIsHashed(h, t, name, version, chainId, contract);
    if EncodeData(h, entries).Ok? {
      assert EncodeValue(h, entries[2].value).Ok? && EncodeValue(h, entries[3].value).Ok?;
      SameWords(h, t.domainType, entries, DomainWords(h, t, name, version, chainId, contract).value);
    }
  }

  ghost predicate Holds(p: SpendPermission, entries: seq<Entry>) {
    && |entries| == 9
    && entries[0].value == Address(p.account) && entries[1].value == Address(p.spender) && entries[2].value == Address(p.token)
    && entries[3].value == Unsigned(p.allowance) && entries[4].value == Unsigned(p.period)
    && entries[5].value == Unsigned(p.start) && entries[6].value == Unsigned(p.end) && entries[7].value == Unsigned(p.salt)
    && entries[8].value == Dynamic(p.extraData)
  }

  lemma Nine<T>(a: seq<T>, b: seq<T>)
    requires |a| == |b| == 9
    requires a[0] == b[0] && a[1] == b[1] && a[2] == b[2] && a[3] == b[3] && a[4] == b[4]
    requires a[5] == b[5] && a[6] == b[6] && a[7] == b[7] && a[8] == b[8]
    ensures a == b
  {
  }

  lemma StructWordsAre(h: HashFn, t: Texts, p: SpendPermission)
    requires StructWords(h, t, p).Ok?
    ensures var w := StructWords(h, t, p).value;
            && |w| == 10 && w[0] == h(t.permissionType)
            && AddressBytes(p.account) == Ok(w[1]) && AddressBytes(p.spender) == Ok(w[2]) && AddressBytes(p.token) == Ok(w[3])
            && Uint(p.allowance) == Ok(w[4]) && Uint(p.period) == Ok(w[5]) && Uint(p.start) == Ok(w[6])
            && Uint(p.end) == Ok(w[7]) && Uint(p.salt) == Ok(w[8]) && h(p.extraData) == w[9]
  {
  }

  lemma EntriesEncode(h: HashFn, p: SpendPermission, e: seq<Entry>)
    requires Holds(p, e)
    ensures EncodeValue(h, e[0].value) == AddressBytes(p.account) && EncodeValue(h, e[1].value) == AddressBytes(p.spender)
    ensures EncodeValue(h, e[2].value) == AddressBytes(p.token) && EncodeValue(h, e[3].value) == Uint(p.allowance)
    ensures EncodeValue(h, e[4].value) == Uint(p.period) && EncodeValue(h, e[5].value) == Uint(p.start)
    ensures EncodeValue(h, e[6].value) == Uint(p.end) && EncodeValue(h, e[7].value) == Uint(p.salt)
    ensures EncodeValue(h, e[8].value) == Ok(h(p.extraData))
  {
  }

  function Encoded(h: HashFn, entries: seq<Entry>): seq<Result<Bytes>> {
    seq(|entries|, i requires 0 <= i < |entries| => EncodeValue(h, entries[i].value))
  }

  function AllOk(words: seq<Bytes>): seq<Result<Bytes>> {
    seq(|words|, i requires 0 <= i < |words| => Ok(words[i]))
  }

  lemma PermissionWords(h: HashFn, t: Texts, p: SpendPermission, entries: seq<Entry>)
    requires Holds(p, entries) && StructWords(h, t, p).Ok?
    ensures EncodesTo(h, entries, StructWords(h, t, p).value) && StructWords(h, t, p).value[0] == h(t.permissionType)
  {
    var w := StructWords(h, t, p).value;
    StructWordsAre(h, t, p);
    EntriesEncode(h, p, entries);
    Nine(Encoded(h, entries), AllOk(w[1..]));
    forall i: nat | i < 9 ensures EncodeValue(h, entries[i].value) == Ok(w[i + 1]) {
      assert Encoded(h, entries)[i] == AllOk(w[1..])[i];
    }
  }

  lemma PermissionEncodes(h: HashFn, t: Texts, p: SpendPermission, entries: seq<Entry>)
    requires Holds(p, entries) && forall i :: 0 <= i < 9 ==> EncodeValue(h, entries[i].value).Ok?
    ensures StructWords(h, t, p).Ok?
  {
    assert EncodeValue(h, entries[0].value).Ok? && EncodeValue(h, entries[1].value).Ok? && EncodeValue(h, entries[2].value).Ok?;
    assert EncodeValue(h, entries[3].value).Ok? && EncodeValue(h, entries[4].value).Ok? && EncodeValue(h, entries[5].value).Ok?;
    assert EncodeValue(h, entries[6].value).Ok? && EncodeValue(h, entries[7].value).Ok?;
  }

  lemma PermissionOf(h: HashFn, t: Texts, p: SpendPermission, entries: seq<Entry>)
    requires Holds(p, entries)
    ensures StructWords(h, t, p).Ok? <==> EncodeData(h, entries).Ok?
    ensures EncodeData(h, entries).Ok? ==> StructWords(h, t, p).value == [h(t.permissionType)] + EncodeData(h, entries).value
  {
    if EncodeData(h, entries).Ok? {
      DataWords(h, entries);
      PermissionEncodes(h, t, p, entries);
    }
    if StructWords(h, t, p).Ok? {
      PermissionWords(h, t, p, entries);
      SameWords(h, t.permissionType, entries, StructWords(h, t, p).value);
    }
  }

  /** The manager's digest of a permission, over any texts. */
  lemma InnerOf(h: HashFn, t: Texts, p: SpendPermission, chainId: int,
                domainName: string, domain: seq<Entry>, name: string, entries: seq<Entry>)
    requires Holds(p, entries) && IsDomain(t.managerName, t.managerVersion, chainId, t.manager, domain)
    requires t.domainType == Ascii(EncodeType(domainName, Types(domain)))
    requires t.permissionType == Ascii(EncodeType(name, Types(entries)))
    ensures var inner := SpendPermissionHash(h, t, p, chainId);
            var separator, data := HashStruct(h, domainName, domain), HashStruct(h, name, entries);
            && (inner.Ok? <==> separator.Ok? && data.Ok?)
            && (inner.Ok? ==> inner.value == h(PREFIX + separator.value + data.value))
  {
    DomainOf(h, t, t.managerName, t.managerVersion, chainId, t.manager, domain);
    PermissionOf(h, t, p, entries);
    if SpendPermissionHash(h, t, p, chainId).Ok? {
      PermissionIsHashed(h, t, p, chainId);
      DomainIsHashed(h, t, t.managerName, t.managerVersion, chainId, t.manager);
    }
  }

  ghost predicate IsDomain(name: Bytes, version: Bytes, chainId: int, contract: string, domain: seq<Entry>) {
    && |domain| == 4 && domain[0].value == Dynamic(name) && domain[1].value == Dynamic(version)
    && domain[2].value == Unsigned(chainId) && domain[3].value == Address(contract)
  }

  lemma OuterOf(h: HashFn, t: Texts, inner: Hash, chainId: int, account: string,
                domainName: string, domain: seq<Entry>, name: string, entries: seq<Entry>)
    requires IsDomain(t.walletName, t.walletVersion, chainId, account, domain)
    requires |entries| == 1 && entries[0].value == Fixed(inner)
    requires t.domainType == Ascii(EncodeType(domainName, Types(domain)))
    requires t.messageType == Ascii(EncodeType(name, Types(entries)))
    ensures var outer := ReplaySafeHash(h, t, inner, chainId, account);
            var separator, data := HashStruct(h, domainName, domain), HashStruct(h, name, entries);
            && data.Ok? && (outer.Ok? <==> separator.Ok?)
            && (outer.Ok? ==> outer.value == h(PREFIX + separator.value + data.value))
  {
    DomainOf(h, t, t.walletName, t.walletVersion, chainId, account, domain);
    DataWords(h, entries);
    assert EncodeData(h, entries).value == [inner];
    FlatTwo(h(t.messageType), inner);
  }

  lemma FlatTwo(a: Bytes, b: Bytes)
    ensures Flat([a] + [b]) == a + b
  {
    FlatPush([], a);
    FlatPush([a], b);
    assert [] + [a] == [a] && [] + a == a;
  }

  lemma DomainTypes(name: string, version: string, chainId: int, contract: string)
    ensures Types(Domain(name, version, chainId, contract)) == DOMAIN_MEMBERS
  {
  }

  lemma PermissionTypes(p: SpendPermission)
    ensures Types(Permission(p)) == PERMISSION_MEMBERS
  {
  }

  /** Whatever the hash, the code signs the digest that EIP-712 defines for the permission. */
  lemma DigestIsTyped(h: HashFn, s: Signed)
    ensures Digest(h, DEPLOYED, s).Ok? <==> Reference(h, s).Ok?
    ensures Digest(h, DEPLOYED, s).Ok? ==> Digest(h, DEPLOYED, s) == Reference(h, s)
  {
    InnerTyped(h, s.permission, s.chainId);
    var inner := SpendPermissionHash(h, DEPLOYED, s.permission, s.chainId);
    if inner.Ok? {
      OuterTyped(h, inner.value, s.chainId, s.account);
    }
  }

  lemma InnerTyped(h: HashFn, p: SpendPermission, chainId: int)
    ensures var inner := SpendPermissionHash(h, DEPLOYED, p, chainId);
            var typed := TypedDigest(h, Domain("Spend Permission Manager", "1", chainId, MANAGER), "SpendPermission", Permission(p));
            (inner.Ok? <==> typed.Ok?) && (inner.Ok? ==> inner == typed)
  {
    var domain, entries := Domain("Spend Permission Manager", "1", chainId, MANAGER), Permission(p);
    DomainTypes("Spend Permission Manager", "1", chainId, MANAGER);
    PermissionTypes(p);
    InnerOf(h, DEPLOYED, p, chainId, "EIP712Domain", domain, "SpendPermission", entries);
  }

  lemma OuterTyped(h: HashFn, inner: Hash, chainId: int, account: string)
    ensures var outer, typed := ReplaySafeHash(h, DEPLOYED, inner, chainId, account),
                                TypedDigest(h, Domain("Coinbase Smart Wallet", "1", chainId, account),
                                            "CoinbaseSmartWalletMessage", [Entry("bytes32", "hash", Fixed(inner))]);
            (outer.Ok? <==> typed.Ok?) && (outer.Ok? ==> outer == typed)
  {
    var domain, entries := Domain("Coinbase Smart Wallet", "1", chainId, account), [Entry("bytes32", "hash", Fixed(inner))];
    DomainTypes("Coinbase Smart Wallet", "1", chainId, account);
    assert Types(entries) == [Member("bytes32", "hash")];
    OuterOf(h, DEPLOYED, inner, chainId, account, "EIP712Domain", domain, "CoinbaseSmartWalletMessage", entries);
  }
}
