/** What the two-level digest binds: two signings share a digest exactly when they hash to the same
    words, up to a collision of the hash. */
module DigestBinding {
  import opened Sequences
  import opened Errors
  import opened Abi
  import opened Eip712

  /** The three address words of a permission, run together as the struct string has them. */
  function AddressRun(p: SpendPermission): Result<Bytes> {
    var account :- AddressBytes(p.account);
    var spender :- AddressBytes(p.spender);
    var token :- AddressBytes(p.token);
    Ok(account + spender + token)
  }

  predicate SameFields(p: SpendPermission, q: SpendPermission) {
    && p.allowance == q.allowance && p.period == q.period && p.start == q.start && p.end == q.end
    && p.salt == q.salt && p.extraData == q.extraData
  }

  /** Agreement on everything that reaches the hash. */
  predicate Agree(a: Signed, b: Signed) {
    && a.chainId == b.chainId && AddressBytes(a.account) == AddressBytes(b.account)
    && AddressRun(a.permission) == AddressRun(b.permission)
    && SameFields(a.permission, b.permission)
  }

  /** The strings that two digests hash in the same place. */
  function Pairs(a: Preimages, b: Preimages): seq<(Bytes, Bytes)> {
    [(a.outer, b.outer), (a.walletDomain, b.walletDomain), (a.message, b.message), (a.inner, b.inner),
     (a.managerDomain, b.managerDomain), (a.struct, b.struct), (a.extraData, b.extraData)]
  }

  predicate Collides(h: HashFn, pair: (Bytes, Bytes)) {
    pair.0 != pair.1 && h(pair.0) == h(pair.1)
  }

  lemma SplitAt(a: Bytes, b: Bytes, c: Bytes, d: Bytes)
    requires |a| == |c| && a + b == c + d
    ensures a == c && b == d
  {
    assert a == (a + b)[..|a|] && c == (c + d)[..|c|];
    assert b == (a + b)[|a|..] && d == (c + d)[|c|..];
  }

  lemma SplitEnd(a: Bytes, b: Bytes, c: Bytes, d: Bytes)
    requires |b| == |d| && a + b == c + d
    ensures a == c && b == d
  {
    assert |a| == |c|;
    SplitAt(a, b, c, d);
  }

  lemma PrefixedInjective(a: Hash, b: Hash, c: Hash, d: Hash)
    requires PREFIX + a + b == PREFIX + c + d
    ensures a == c && b == d
  {
    SplitAt(PREFIX + a, b, PREFIX + c, d);
    SplitAt(PREFIX, a, PREFIX, c);
  }

  lemma UintInjective(m: int, n: int)
    requires Uint(m).Ok? && Uint(m) == Uint(n)
    ensures m == n
  {
    UintBijection(m, Uint(m).value);
    UintBijection(n, Uint(m).value);
  }

  lemma DomainBinds(h: HashFn, t: Texts, name: Bytes, version: Bytes, m: int, a: string, n: int, b: string)
    requires var v, w := DomainWords(h, t, name, version, m, a), DomainWords(h, t, name, version, n, b);
             v.Ok? && w.Ok? && Flat(v.value) == Flat(w.value)
    ensures m == n && AddressBytes(a) == AddressBytes(b)
  {
    var k := h(t.domainType) + h(name) + h(version);
    var c, d, x, y := Uint(m).value, Uint(n).value, AddressBytes(a).value, AddressBytes(b).value;
    FlatFive(h(t.domainType), h(name), h(version), c, x);
    FlatFive(h(t.domainType), h(name), h(version), d, y);
    SplitAt(k + c, x, k + d, y);
    SplitAt(k, c, k, d);
    UintInjective(m, n);
  }

  /** Six trailing words can be taken off one by one. */
  lemma PeelSix(x: Bytes, a: Bytes, b: Bytes, c: Bytes, d: Bytes, e: Bytes, f: Bytes,
                y: Bytes, a': Bytes, b': Bytes, c': Bytes, d': Bytes, e': Bytes, f': Bytes)
    requires |a| == |b| == |c| == |d| == |e| == |f| == 32
    requires |a'| == |b'| == |c'| == |d'| == |e'| == |f'| == 32
    requires x + a + b + c + d + e + f == y + a' + b' + c' + d' + e' + f'
    ensures x == y && a == a' && b == b' && c == c' && d == d' && e == e' && f == f'
  {
    SplitEnd(x + a + b + c + d + e, f, y + a' + b' + c' + d' + e', f');
    SplitEnd(x + a + b + c + d, e, y + a' + b' + c' + d', e');
    SplitEnd(x + a + b + c, d, y + a' + b' + c', d');
    SplitEnd(x + a + b, c, y + a' + b', c');
    SplitEnd(x + a, b, y + a', b');
    SplitEnd(x, a, y, a');
  }

  lemma RunAfter(k: Bytes, a: Bytes, b: Bytes, c: Bytes)
    ensures k + a + b + c == k + (a + b + c)
  {
    assert k + a + b + c == k + (a + b) + c;
  }

  lemma StructStarts(h: HashFn, t: Texts, p: SpendPermission, v: seq<Bytes>)
    requires StructWords(h, t, p) == Ok(v)
    ensures |v| == 10 && v[0] == h(t.permissionType)
    ensures AddressBytes(p.account) == Ok(v[1]) && AddressBytes(p.spender) == Ok(v[2]) && AddressBytes(p.token) == Ok(v[3])
  {
  }

  lemma StructMiddle(h: HashFn, t: Texts, p: SpendPermission, v: seq<Bytes>)
    requires StructWords(h, t, p) == Ok(v)
    ensures |v| == 10
    ensures Uint(p.allowance) == Ok(v[4]) && Uint(p.period) == Ok(v[5]) && Uint(p.start) == Ok(v[6])
  {
  }

  lemma StructEnds(h: HashFn, t: Texts, p: SpendPermission, v: seq<Bytes>)
    requires StructWords(h, t, p) == Ok(v)
    ensures |v| == 10
    ensures Uint(p.end) == Ok(v[7]) && Uint(p.salt) == Ok(v[8]) && h(p.extraData) == v[9]
  {
  }

  /** The struct string in three parts: the type, the run of addresses, and six words. */
  lemma StructIsFlat(h: HashFn, t: Texts, p: SpendPermission, v: seq<Bytes>)
    requires StructWords(h, t, p) == Ok(v)
    ensures |v| == 10 && |v[4]| == |v[5]| == |v[6]| == |v[7]| == |v[8]| == |v[9]| == 32
    ensures AddressRun(p).Ok?
    ensures Flat(v) == (h(t.permissionType) + AddressRun(p).value) + v[4] + v[5] + v[6] + v[7] + v[8] + v[9]
  {
    StructStarts(h, t, p, v);
    StructMiddle(h, t, p, v);
    StructEnds(h, t, p, v);
    assert v == [v[0], v[1], v[2], v[3], v[4], v[5], v[6], v[7], v[8], v[9]];
    FlatTen(v[0], v[1], v[2], v[3], v[4], v[5], v[6], v[7], v[8], v[9]);
    RunAfter(v[0], v[1], v[2], v[3]);
  }

  lemma StructBinds(h: HashFn, t: Texts, p: SpendPermission, q: SpendPermission)
    requires var v, w := StructWords(h, t, p), StructWords(h, t, q);
             v.Ok? && w.Ok? && Flat(v.value) == Flat(w.value)
    ensures AddressRun(p) == AddressRun(q)
    ensures p.allowance == q.allowance && p.period == q.period && p.start == q.start && p.end == q.end && p.salt == q.salt
    ensures h(p.extraData) == h(q.extraData)
  {
    var v, w := StructWords(h, t, p).value, StructWords(h, t, q).value;
    StructIsFlat(h, t, p, v);
    StructIsFlat(h, t, q, w);
    PeelSix(h(t.permissionType) + AddressRun(p).value, v[4], v[5], v[6], v[7], v[8], v[9],
            h(t.permissionType) + AddressRun(q).value, w[4], w[5], w[6], w[7], w[8], w[9]);
    SplitAt(h(t.permissionType), AddressRun(p).value, h(t.permissionType), AddressRun(q).value);
    StructMiddle(h, t, p, v);
    StructMiddle(h, t, q, w);
    StructEnds(h, t, p, v);
    StructEnds(h, t, q, w);
    UintInjective(p.allowance, q.allowance);
    UintInjective(p.period, q.period);
    UintInjective(p.start, q.start);
    UintInjective(p.end, q.end);
    UintInjective(p.salt, q.salt);
  }

  /** Two digests agree only if everything that reaches the hash does, or the strings hashed in one
      of the seven places collide. */
  lemma DigestBinds(h: HashFn, t: Texts, a: Signed, b: Signed)
    requires Digest(h, t, a).Ok? && Digest(h, t, a) == Digest(h, t, b)
    ensures Hashed(h, t, a).Ok? && Hashed(h, t, b).Ok?
    ensures Agree(a, b) || CollisionIn(h, Pairs(Hashed(h, t, a).value, Hashed(h, t, b).value))
  {
    DigestIsHashed(h, t, a);
    DigestIsHashed(h, t, b);
    var x, y := Hashed(h, t, a).value, Hashed(h, t, b).value;
    if !CollisionIn(h, Pairs(x, y)) {
      NoCollision(h, x, y);
      PrefixedInjective(h(x.walletDomain), h(x.message), h(y.walletDomain), h(y.message));
      DomainBinds(h, t, t.walletName, t.walletVersion, a.chainId, a.account, b.chainId, b.account);
      SplitAt(h(t.messageType), h(x.inner), h(t.messageType), h(y.inner));
      PrefixedInjective(h(x.managerDomain), h(x.struct), h(y.managerDomain), h(y.struct));
      StructBinds(h, t, a.permission, b.permission);
    }
  }

  /** The converse: what agrees has one digest under every hash. */
  lemma AgreeingDigests(h: HashFn, t: Texts, a: Signed, b: Signed)
    requires Agree(a, b) && Encodable(a) && Encodable(b)
    ensures Digest(h, t, a) == Digest(h, t, b)
  {
    SameStructHash(h, t, a.permission, b.permission, a.chainId);
  }

  lemma SameStructHash(h: HashFn, t: Texts, p: SpendPermission, q: SpendPermission, chainId: int)
    requires AddressRun(p).Ok? && AddressRun(p) == AddressRun(q) && SameFields(p, q)
    ensures SpendPermissionHash(h, t, p, chainId) == SpendPermissionHash(h, t, q, chainId)
  {
    var k := h(t.permissionType);
    RunAfter(k, AddressBytes(p.account).value, AddressBytes(p.spender).value, AddressBytes(p.token).value);
    RunAfter(k, AddressBytes(q.account).value, AddressBytes(q.spender).value, AddressBytes(q.token).value);
  }

  predicate CollisionIn(h: HashFn, pairs: seq<(Bytes, Bytes)>) {
    exists i :: 0 <= i < |pairs| && Collides(h, pairs[i])
  }

  lemma NoCollision(h: HashFn, x: Preimages, y: Preimages)
    requires !CollisionIn(h, Pairs(x, y))
    ensures h(x.outer) == h(y.outer) ==> x.outer == y.outer
    ensures h(x.walletDomain) == h(y.walletDomain) ==> x.walletDomain == y.walletDomain
    ensures h(x.message) == h(y.message) ==> x.message == y.message
    ensures h(x.inner) == h(y.inner) ==> x.inner == y.inner
    ensures h(x.managerDomain) == h(y.managerDomain) ==> x.managerDomain == y.managerDomain
    ensures h(x.struct) == h(y.struct) ==> x.struct == y.struct
    ensures h(x.extraData) == h(y.extraData) ==> x.extraData == y.extraData
  {
    var pairs := Pairs(x, y);
    assert !Collides(h, pairs[0]) && !Collides(h, pairs[1]) && !Collides(h, pairs[2]) && !Collides(h, pairs[3]);
    assert !Collides(h, pairs[4]) && !Collides(h, pairs[5]) && !Collides(h, pairs[6]);
  }

  method FirstCollision(h: HashFn, pairs: seq<(Bytes, Bytes)>) returns (i: nat)
    requires CollisionIn(h, pairs)
    ensures i < |pairs| && Collides(h, pairs[i])
    ensures forall k :: 0 <= k < i ==> !Collides(h, pairs[k])
  {
    i := 0;
    while !Collides(h, pairs[i])
      invariant i < |pairs| && forall k :: 0 <= k < i ==> !Collides(h, pairs[k])
      decreases |pairs| - i
    {
      i := i + 1;
    }
  }

  /** Two different signings with one digest hand over a collision of the hash, found among the
      strings that computing the digests hashed. */
  method ExtractCollision(h: HashFn, t: Texts, a: Signed, b: Signed) returns (x: Bytes, y: Bytes)
    requires Digest(h, t, a).Ok? && Digest(h, t, a) == Digest(h, t, b)
    requires !Agree(a, b)
    ensures x != y && h(x) == h(y)
    ensures Hashed(h, t, a).Ok? && Hashed(h, t, b).Ok?
    ensures (x, y) in Pairs(Hashed(h, t, a).value, Hashed(h, t, b).value)
  {
    DigestBinds(h, t, a, b);
    var pairs := Pairs(Hashed(h, t, a).value, Hashed(h, t, b).value);
    var i := FirstCollision(h, pairs);
    x, y := pairs[i].0, pairs[i].1;
    assert pairs[i] == (x, y);
  }

  /** A hash that collides everywhere gives all signings one digest, so binding cannot do without
      its second case. */
  lemma ConstantHashAgrees(c: Hash, a: Signed, b: Signed)
    requires Encodable(a) && Encodable(b)
    ensures var h: HashFn := (_: Bytes) => c;
            Digest(h, DEPLOYED, a) == Digest(h, DEPLOYED, b) == Ok(c)
  {
    DeployedDigest((_: Bytes) => c, a);
    DeployedDigest((_: Bytes) => c, b);
  }

  // ----- what agreement says of the addresses

  /** Every address of the one has a word as long as its counterpart's. */
  predicate AddressesComparable(a: Signed, b: Signed) {
    && Comparable(a.account, b.account)
    && Comparable(a.permission.account, b.permission.account)
    && Comparable(a.permission.spender, b.permission.spender)
    && Comparable(a.permission.token, b.permission.token)
  }

  /** Agreement with addresses compared as numbers. */
  predicate AgreeAsNumbers(a: Signed, b: Signed)
    requires AddressesComparable(a, b)
  {
    var p, q := a.permission, b.permission;
    && a.chainId == b.chainId && AddressNumber(a.account) == AddressNumber(b.account)
    && AddressNumber(p.account) == AddressNumber(q.account) && AddressNumber(p.spender) == AddressNumber(q.spender)
    && AddressNumber(p.token) == AddressNumber(q.token)
    && SameFields(p, q)
  }

  /** Agreement with addresses compared as text, without the case of their letters. */
  predicate AgreeAsText(a: Signed, b: Signed) {
    var p, q := a.permission, b.permission;
    && a.chainId == b.chainId && HexPart(a.account) == HexPart(b.account)
    && HexPart(p.account) == HexPart(q.account) && HexPart(p.spender) == HexPart(q.spender)
    && HexPart(p.token) == HexPart(q.token)
    && SameFields(p, q)
  }

  /** Where the words have one length, as those of at most 32 bytes have, signings agree exactly if
      their addresses are the same numbers. */
  lemma ComparableAgree(a: Signed, b: Signed)
    requires AddressesComparable(a, b)
    ensures Agree(a, b) <==> AgreeAsNumbers(a, b)
  {
    var p, q := a.permission, b.permission;
    AddressBytesExactly(a.account, b.account);
    AddressBytesExactly(p.account, q.account);
    AddressBytesExactly(p.spender, q.spender);
    AddressBytesExactly(p.token, q.token);
    if AddressRun(p) == AddressRun(q) {
      SplitEnd(AddressBytes(p.account).value + AddressBytes(p.spender).value, AddressBytes(p.token).value,
               AddressBytes(q.account).value + AddressBytes(q.spender).value, AddressBytes(q.token).value);
      SplitAt(AddressBytes(p.account).value, AddressBytes(p.spender).value,
              AddressBytes(q.account).value, AddressBytes(q.spender).value);
    }
  }

  predicate AddressesProper(s: Signed) {
    IsAddress(s.account) && IsAddress(s.permission.account) && IsAddress(s.permission.spender) && IsAddress(s.permission.token)
  }

  /** On 20-byte addresses that is agreement of the text. */
  lemma ProperAgree(a: Signed, b: Signed)
    requires AddressesProper(a) && AddressesProper(b)
    ensures AddressesComparable(a, b)
    ensures Agree(a, b) <==> AgreeAsText(a, b)
  {
    ProperAlike(a.account, b.account);
    ProperAlike(a.permission.account, b.permission.account);
    ProperAlike(a.permission.spender, b.permission.spender);
    ProperAlike(a.permission.token, b.permission.token);
    ComparableAgree(a, b);
  }

  lemma ProperAlike(x: string, y: string)
    requires IsAddress(x) && IsAddress(y)
    ensures Comparable(x, y)
    ensures AddressNumber(x) == AddressNumber(y) <==> HexPart(x) == HexPart(y)
  {
    SameDigits(x, y);
  }

  lemma TwoZeroTexts()
    ensures HexPart("0x") != HexPart("0x00") && AddressBytes("0x").Ok? && AddressBytes("0x") == AddressBytes("0x00")
  {
    assert HexPart("0x") == "" && HexPart("0x00") == "00";
    assert "00"[2..] == "" && FromHex("") == Ok([]);
    assert FromHex("00") == Ok([0]) by {
      assert HexDigit('0') == Some(0) && [0] + [] == [0];
    }
    AddressBytesExactly("0x", "0x00");
  }

  /** With fewer than 20 bytes the number does not tell the text: two different accounts are signed
      with one digest under every hash. */
  lemma ShortAddressesAmbiguous(h: HashFn, p: SpendPermission, chainId: int)
    requires Encodable(Signed(p, chainId, "0x"))
    ensures Digest(h, DEPLOYED, Signed(p, chainId, "0x")).Ok?
    ensures Digest(h, DEPLOYED, Signed(p, chainId, "0x")) == Digest(h, DEPLOYED, Signed(p, chainId, "0x00"))
    ensures !AgreeAsText(Signed(p, chainId, "0x"), Signed(p, chainId, "0x00"))
  {
    TwoZeroTexts();
    DeployedDigest(h, Signed(p, chainId, "0x"));
    AgreeingDigests(h, DEPLOYED, Signed(p, chainId, "0x"), Signed(p, chainId, "0x00"));
  }

  function AddressOf(b: Bytes): string {
    "0x" + ToHex(b)
  }

  lemma AddressOfBytes(b: Bytes)
    ensures AddressBytes(AddressOf(b)) == Ok(LeftPad32(b)) && AddressNumber(AddressOf(b)) == FromBytes(b)
  {
    FromToHex(b);
    assert AddressOf(b)[2..] == ToHex(b);
  }

  /** Beyond 32 bytes the words run together: moving a byte from the account to the spender changes
      both, and what is signed keeps its digest under every hash. */
  lemma LongAddressesAmbiguous(h: HashFn, p: SpendPermission, chainId: int, account: string)
    returns (a: Signed, b: Signed)
    requires Encodable(Signed(p, chainId, account))
    ensures Encodable(a) && Encodable(b)
    ensures AddressNumber(a.permission.account) != AddressNumber(b.permission.account)
    ensures Digest(h, DEPLOYED, a).Ok? && Digest(h, DEPLOYED, a) == Digest(h, DEPLOYED, b)
    ensures a == Signed(p.(account := a.permission.account, spender := a.permission.spender), chainId, account)
    ensures b == Signed(p.(account := b.permission.account, spender := b.permission.spender), chainId, account)
  {
    var x, y, x', y' := OneByteOver();
    a := Signed(p.(account := x, spender := y), chainId, account);
    b := Signed(p.(account := x', spender := y'), chainId, account);
    DeployedDigest(h, a);
    AgreeingDigests(h, DEPLOYED, a, b);
  }

  lemma OneByteOver() returns (a: string, b: string, a': string, b': string)
    ensures AddressBytes(a).Ok? && AddressBytes(b).Ok? && AddressBytes(a').Ok? && AddressBytes(b').Ok?
    ensures AddressNumber(a) != AddressNumber(a')
    ensures AddressBytes(a).value + AddressBytes(b).value == AddressBytes(a').value + AddressBytes(b').value
  {
    var z := Zeros(32);
    LeadingZeros(32, []);
    assert z == z + [];
    a, b, a', b' := OneByteMoved(z);
  }

  lemma OneByteMoved(z: Bytes) returns (a: string, b: string, a': string, b': string)
    requires |z| == 32 && FromBytes(z) == 0
    ensures AddressBytes(a).Ok? && AddressBytes(b).Ok? && AddressBytes(a').Ok? && AddressBytes(b').Ok?
    ensures AddressNumber(a) != AddressNumber(a')
    ensures AddressBytes(a).value + AddressBytes(b).value == AddressBytes(a').value + AddressBytes(b').value
  {
    a := AddressFor(z + [1]);
    b := AddressFor(z);
    a' := b;
    b' := AddressFor([1] + z);
    RunTogether(z);
  }

  lemma RunTogether(z: Bytes)
    requires |z| == 32 && FromBytes(z) == 0
    ensures FromBytes(z + [1]) == 1
    ensures (z + [1]) + z == z + ([1] + z)
  {
    assert (z + [1])[..32] == z;
  }

  lemma AddressFor(b: Bytes) returns (addr: string)
    requires |b| >= 32
    ensures AddressBytes(addr) == Ok(b) && AddressNumber(addr) == FromBytes(b)
  {
    addr := AddressOf(b);
    AddressOfBytes(b);
  }
}
