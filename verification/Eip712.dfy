/** The two-level EIP-712 digest that a smart wallet owner signs. The hash is an arbitrary
    function to 32 bytes: nothing is assumed about its collisions. */
module Eip712 {
  import opened Sequences
  import opened Errors
  import opened Abi

  type Hash = b: Bytes | |b| == 32 witness Zeros(32)
  type HashFn = Bytes -> Hash

  datatype SpendPermission = SpendPermission(
    account: string,
    spender: string,
    token: string,
    allowance: int,
    period: int,
    start: int,
    end: int,
    salt: int,
    extraData: Bytes)

  /** The fixed texts and the manager's address, which the digest also commits to. */
  datatype Texts = Texts(
    domainType: Bytes,
    permissionType: Bytes,
    messageType: Bytes,
    managerName: Bytes,
    managerVersion: Bytes,
    walletName: Bytes,
    walletVersion: Bytes,
    manager: string)

  function Ascii(s: string): Bytes {
    seq(|s|, i requires 0 <= i < |s| => s[i] as int % 256)
  }

  const MANAGER := "0xf85210B21cC50302F477BA56686d2019dC9b67Ad"

  /** A member of a struct type. */
  datatype Member = Member(kind: string, name: string)

  function MemberList(members: seq<Member>): string {
    if members == [] then "" else
      members[0].kind + " " + members[0].name + (if |members| == 1 then "" else "," + MemberList(members[1..]))
  }

  /** encodeType for a struct without struct members. */
  function EncodeType(name: string, members: seq<Member>): string {
    name + "(" + MemberList(members) + ")"
  }

  const DOMAIN_MEMBERS := [
    Member("string", "name"), Member("string", "version"), Member("uint256", "chainId"), Member("address", "verifyingContract")]

  const PERMISSION_MEMBERS := [
    Member("address", "account"), Member("address", "spender"), Member("address", "token"),
    Member("uint160", "allowance"), Member("uint48", "period"), Member("uint48", "start"), Member("uint48", "end"),
    Member("uint256", "salt"), Member("bytes", "extraData")]

  const DEPLOYED := Texts(
    Ascii(EncodeType("EIP712Domain", DOMAIN_MEMBERS)),
    Ascii(EncodeType("SpendPermission", PERMISSION_MEMBERS)),
    Ascii(EncodeType("CoinbaseSmartWalletMessage", [Member("bytes32", "hash")])),
    Ascii("Spend Permission Manager"),
    Ascii("1"),
    Ascii("Coinbase Smart Wallet"),
    Ascii("1"),
    MANAGER)

  /** What is signed: a permission, a chain and the account whose wallet checks the signature. */
  datatype Signed = Signed(permission: SpendPermission, chainId: int, account: string)

  // ----- the byte strings that are hashed

  function Flat(words: seq<Bytes>): Bytes {
    if words == [] then [] else Flat(words[..|words| - 1]) + words[|words| - 1]
  }

  function DomainWords(h: HashFn, t: Texts, name: Bytes, version: Bytes, chainId: int, verifying: string): Result<seq<Bytes>> {
    var chain :- Uint(chainId);
    var contract :- AddressBytes(verifying);
    Ok([h(t.domainType), h(name), h(version), chain, contract])
  }

  function StructWords(h: HashFn, t: Texts, p: SpendPermission): Result<seq<Bytes>> {
    var account :- AddressBytes(p.account);
    var spender :- AddressBytes(p.spender);
    var token :- AddressBytes(p.token);
    var allowance :- Uint(p.allowance);
    var period :- Uint(p.period);
    var start :- Uint(p.start);
    var end :- Uint(p.end);
    var salt :- Uint(p.salt);
    Ok([h(t.permissionType), account, spender, token, allowance, period, start, end, salt, h(p.extraData)])
  }

  const PREFIX: Bytes := [0x19, 0x01]

  /** The strings hashed on the way to a digest, outermost first. */
  datatype Preimages = Preimages(
    outer: Bytes, walletDomain: Bytes, message: Bytes, inner: Bytes, managerDomain: Bytes, struct: Bytes, extraData: Bytes)

  function Hashed(h: HashFn, t: Texts, s: Signed): Result<Preimages> {
    var structWords :- StructWords(h, t, s.permission);
    var managerWords :- DomainWords(h, t, t.managerName, t.managerVersion, s.chainId, t.manager);
    var inner := PREFIX + h(Flat(managerWords)) + h(Flat(structWords));
    var message := h(t.messageType) + h(inner);
    var walletWords :- DomainWords(h, t, t.walletName, t.walletVersion, s.chainId, s.account);
    var outer := PREFIX + h(Flat(walletWords)) + h(message);
    Ok(Preimages(outer, Flat(walletWords), message, inner, Flat(managerWords), Flat(structWords), s.permission.extraData))
  }

  // ----- the code's own functions

  function DomainSeparator(h: HashFn, t: Texts, name: Bytes, version: Bytes, chainId: int, verifying: string): Result<Hash> {
    var chain :- Uint(chainId);
    var contract :- AddressBytes(verifying);
    Ok(h(h(t.domainType) + h(name) + h(version) + chain + contract))
  }

  function SpendPermissionHash(h: HashFn, t: Texts, p: SpendPermission, chainId: int): Result<Hash> {
    var account :- AddressBytes(p.account);
    var spender :- AddressBytes(p.spender);
    var token :- AddressBytes(p.token);
    var allowance :- Uint(p.allowance);
    var period :- Uint(p.period);
    var start :- Uint(p.start);
    var end :- Uint(p.end);
    var salt :- Uint(p.salt);
    var structHash := h(h(t.permissionType) + account + spender + token + allowance + period + start + end + salt
                        + h(p.extraData));
    var domain :- DomainSeparator(h, t, t.managerName, t.managerVersion, chainId, t.manager);
    Ok(h(PREFIX + domain + structHash))
  }

  function ReplaySafeHash(h: HashFn, t: Texts, inner: Hash, chainId: int, account: string): Result<Hash> {
    var messageHash := h(h(t.messageType) + inner);
    var domain :- DomainSeparator(h, t, t.walletName, t.walletVersion, chainId, account);
    Ok(h(PREFIX + domain + messageHash))
  }

  function Digest(h: HashFn, t: Texts, s: Signed): Result<Hash> {
    var inner :- SpendPermissionHash(h, t, s.permission, s.chainId);
    ReplaySafeHash(h, t, inner, s.chainId, s.account)
  }

  /** sign_spend_permission: the wrapped signature of the digest. */
  function SignSpendPermission(h: HashFn, t: Texts, s: Signed, sign: Hash -> Bytes): Result<Bytes> {
    var outer :- Digest(h, t, s);
    Wrap(sign(outer))
  }

  lemma FlatPush(words: seq<Bytes>, w: Bytes)
    ensures Flat(words + [w]) == Flat(words) + w
  {
    assert (words + [w])[..|words|] == words;
  }

  lemma FlatFive(a: Bytes, b: Bytes, c: Bytes, d: Bytes, e: Bytes)
    ensures Flat([a, b, c, d, e]) == a + b + c + d + e
  {
    FlatPush([], a);
    assert [] + [a] == [a] && [] + a == a;
    FlatPush([a], b);
    assert [a] + [b] == [a, b];
    FlatPush([a, b], c);
    assert [a, b] + [c] == [a, b, c];
    FlatPush([a, b, c], d);
    assert [a, b, c] + [d] == [a, b, c, d];
    FlatPush([a, b, c, d], e);
    assert [a, b, c, d] + [e] == [a, b, c, d, e];
  }

  lemma FlatTen(a: Bytes, b: Bytes, c: Bytes, d: Bytes, e: Bytes, f: Bytes, g: Bytes, i: Bytes, j: Bytes, k: Bytes)
    ensures Flat([a, b, c, d, e, f, g, i, j, k]) == a + b + c + d + e + f + g + i + j + k
  {
    FlatFive(a, b, c, d, e);
    FlatPush([a, b, c, d, e], f);
    assert [a, b, c, d, e] + [f] == [a, b, c, d, e, f];
    FlatPush([a, b, c, d, e, f], g);
    assert [a, b, c, d, e, f] + [g] == [a, b, c, d, e, f, g];
    FlatPush([a, b, c, d, e, f, g], i);
    assert [a, b, c, d, e, f, g] + [i] == [a, b, c, d, e, f, g, i];
    FlatPush([a, b, c, d, e, f, g, i], j);
    assert [a, b, c, d, e, f, g, i] + [j] == [a, b, c, d, e, f, g, i, j];
    FlatPush([a, b, c, d, e, f, g, i, j], k);
    assert [a, b, c, d, e, f, g, i, j] + [k] == [a, b, c, d, e, f, g, i, j, k];
  }

  lemma DomainIsHashed(h: HashFn, t: Texts, name: Bytes, version: Bytes, chainId: int, verifying: string)
    ensures DomainSeparator(h, t, name, version, chainId, verifying).Ok?
            <==> DomainWords(h, t, name, version, chainId, verifying).Ok?
    ensures DomainSeparator(h, t, name, version, chainId, verifying).Ok? ==>
              DomainSeparator(h, t, name, version, chainId, verifying).value
              == h(Flat(DomainWords(h, t, name, version, chainId, verifying).value))
  {
    if Uint(chainId).Ok? && AddressBytes(verifying).Ok? {
      FlatFive(h(t.domainType), h(name), h(version), Uint(chainId).value, AddressBytes(verifying).value);
    }
  }

  lemma PermissionIsHashed(h: HashFn, t: Texts, p: SpendPermission, chainId: int)
    requires SpendPermissionHash(h, t, p, chainId).Ok?
    ensures StructWords(h, t, p).Ok?
    ensures DomainWords(h, t, t.managerName, t.managerVersion, chainId, t.manager).Ok?
    ensures SpendPermissionHash(h, t, p, chainId).value ==
            h(PREFIX + h(Flat(DomainWords(h, t, t.managerName, t.managerVersion, chainId, t.manager).value))
              + h(Flat(StructWords(h, t, p).value)))
  {
    DomainIsHashed(h, t, t.managerName, t.managerVersion, chainId, t.manager);
    FlatTen(h(t.permissionType), AddressBytes(p.account).value, AddressBytes(p.spender).value, AddressBytes(p.token).value,
            Uint(p.allowance).value, Uint(p.period).value, Uint(p.start).value, Uint(p.end).value, Uint(p.salt).value,
            h(p.extraData));
  }

  /** The digest is the hash of the outermost string. */
  lemma DigestIsHashed(h: HashFn, t: Texts, s: Signed)
    requires Digest(h, t, s).Ok?
    ensures Hashed(h, t, s).Ok? && Digest(h, t, s).value == h(Hashed(h, t, s).value.outer)
  {
    PermissionIsHashed(h, t, s.permission, s.chainId);
    DomainIsHashed(h, t, t.walletName, t.walletVersion, s.chainId, s.account);
  }

  // ----- when there is a digest

  predicate InRange(n: int) {
    0 <= n < UINT256_LIMIT
  }

  predicate Encodable(s: Signed) {
    var p := s.permission;
    && InRange(s.chainId) && InRange(p.allowance) && InRange(p.period) && InRange(p.start) && InRange(p.end) && InRange(p.salt)
    && AddressBytes(s.account).Ok? && AddressBytes(p.account).Ok? && AddressBytes(p.spender).Ok? && AddressBytes(p.token).Ok?
  }

  lemma DigestDefined(h: HashFn, t: Texts, s: Signed)
    requires AddressBytes(t.manager).Ok?
    ensures Digest(h, t, s).Ok? <==> Encodable(s)
  {
  }

  predicate IsHexLetter(c: char) {
    HexDigit(LowerChar(c)).Some?
  }

  lemma ManagerLetters()
    ensures |MANAGER| == 42 && forall i :: 2 <= i < 42 ==> IsHexLetter(MANAGER[i])
  {
  }

  lemma HexLettersAreAddress(addr: string)
    requires |addr| == 42 && forall i :: 2 <= i < 42 ==> IsHexLetter(addr[i])
    ensures IsAddress(addr)
  {
    FromHexDefined(HexPart(addr));
  }

  lemma ManagerIsHex()
    ensures IsAddress(MANAGER)
  {
    ManagerLetters();
    HexLettersAreAddress(MANAGER);
  }

  /** Under the texts that the code signs there is a digest exactly for integers of 256 bits and
      hexadecimal addresses. */
  lemma DeployedDigest(h: HashFn, s: Signed)
    ensures Digest(h, DEPLOYED, s).Ok? <==> Encodable(s)
  {
    ManagerIsHex();
    DigestDefined(h, DEPLOYED, s);
  }

  /** The wallet that decodes the signed blob gets owner index 0 and the owner's signature of
      the digest. */
  lemma SignedBlobDecodes(h: HashFn, t: Texts, s: Signed, sign: Hash -> Bytes)
    requires Digest(h, t, s).Ok? && |sign(Digest(h, t, s).value)| < UINT256_LIMIT
    ensures var blob := SignSpendPermission(h, t, s, sign);
            && blob.Ok?
            && DecodeFlat(blob.value) == Some((0, sign(Digest(h, t, s).value)))
            && DecodeTuple(blob.value) == Some((0, sign(Digest(h, t, s).value)))
  {
    WrapDecodes(sign(Digest(h, t, s).value));
  }
}
