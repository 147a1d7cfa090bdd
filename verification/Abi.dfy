/** Byte strings, 32-byte words, and the hand-written ABI encodings. */
module Abi {
  import opened Sequences
  import opened Errors

  type Byte = b: int | 0 <= b < 256
  type Bytes = seq<Byte>

  function Zeros(n: nat): Bytes {
    seq(n, _ => 0)
  }

  function Pow256(k: nat): nat {
    if k == 0 then 1 else 256 * Pow256(k - 1)
  }

  const UINT256_LIMIT: nat := Pow256(32)

  /** int.to_bytes(len, "big") for a value that fits. */
  function ToBytes(n: nat, len: nat): (r: Bytes)
    requires n < Pow256(len)
    ensures |r| == len
  {
    if len == 0 then [] else ToBytes(n / 256, len - 1) + [n % 256]
  }

  /** int.from_bytes(b, "big"). */
  function FromBytes(b: Bytes): nat {
    if b == [] then 0 else 256 * FromBytes(b[..|b| - 1]) + b[|b| - 1]
  }

  lemma {:induction false} FromToBytes(n: nat, len: nat)
    requires n < Pow256(len)
    ensures FromBytes(ToBytes(n, len)) == n
  {
    if len > 0 {
      FromToBytes(n / 256, len - 1);
      assert ToBytes(n, len)[..len - 1] == ToBytes(n / 256, len - 1);
    }
  }

  lemma {:induction false} ToFromBytes(b: Bytes)
    ensures FromBytes(b) < Pow256(|b|)
    ensures ToBytes(FromBytes(b), |b|) == b
  {
    if b != [] {
      var n := |b| - 1;
      ToFromBytes(b[..n]);
      assert FromBytes(b) / 256 == FromBytes(b[..n]) && FromBytes(b) % 256 == b[n];
      assert b == b[..n] + [b[n]];
    }
  }

  /** _uint: an unsigned 256-bit word, or OverflowError. */
  function Uint(n: int): (r: Result<Bytes>)
    ensures r.Ok? <==> 0 <= n < UINT256_LIMIT
    ensures r.Ok? ==> |r.value| == 32
  {
    if 0 <= n < UINT256_LIMIT then Ok(ToBytes(n, 32)) else Err(OverflowError)
  }

  /** _uint is a bijection between the 256-bit values and the 32-byte words. */
  lemma UintBijection(n: int, w: Bytes)
    requires |w| == 32
    ensures 0 <= n < UINT256_LIMIT ==> FromBytes(Uint(n).value) == n
    ensures 0 <= FromBytes(w) < UINT256_LIMIT && Uint(FromBytes(w)) == Ok(w)
    ensures Uint(n) == Ok(w) <==> n == FromBytes(w)
  {
    ToFromBytes(w);
    if 0 <= n < UINT256_LIMIT {
      FromToBytes(n, 32);
    }
  }

  function LeftPad32(b: Bytes): (r: Bytes)
    ensures |b| <= 32 ==> |r| == 32
  {
    if |b| < 32 then Zeros(32 - |b|) + b else b
  }

  // ----- hexadecimal text

  function LowerChar(c: char): char {
    if 'A' <= c <= 'Z' then c - 'A' + 'a' else c
  }

  function Lower(s: string): (r: string)
    ensures |r| == |s|
  {
    seq(|s|, i requires 0 <= i < |s| => LowerChar(s[i]))
  }

  function HexDigit(c: char): Option<nat> {
    if '0' <= c <= '9' then Some((c - '0') as int)
    else if 'a' <= c <= 'f' then Some((c - 'a') as int + 10)
    else None
  }

  /** bytes.fromhex on lower-case text. */
  function FromHex(s: string): Result<Bytes> {
    if s == [] then Ok([])
    else if |s| == 1 then Err(ValueError)
    else
      match (HexDigit(s[0]), HexDigit(s[1]), FromHex(s[2..]))
      case (Some(hi), Some(lo), Ok(rest)) => Ok([16 * hi + lo] + rest)
      case _ => Err(ValueError)
  }

  lemma {:induction false} FromHexDefined(s: string)
    requires |s| % 2 == 0 && forall i :: 0 <= i < |s| ==> HexDigit(s[i]).Some?
    ensures FromHex(s).Ok? && |FromHex(s).value| == |s| / 2
    decreases |s|
  {
    if s != [] {
      assert HexDigit(s[0]).Some? && HexDigit(s[1]).Some?;
      forall i | 0 <= i < |s[2..]| ensures HexDigit(s[2..][i]).Some? {
        assert s[2..][i] == s[i + 2];
      }
      FromHexDefined(s[2..]);
    }
  }

  lemma FromHexHead(s: string)
    requires s != [] && FromHex(s).Ok?
    ensures |s| >= 2 && HexDigit(s[0]).Some? && HexDigit(s[1]).Some? && FromHex(s[2..]).Ok?
    ensures FromHex(s).value[0] == 16 * HexDigit(s[0]).value + HexDigit(s[1]).value
    ensures FromHex(s).value[1..] == FromHex(s[2..]).value
  {
  }

  lemma HexPairInjective(a: char, b: char, c: char, d: char)
    requires HexDigit(a).Some? && HexDigit(b).Some? && HexDigit(c).Some? && HexDigit(d).Some?
    requires 16 * HexDigit(a).value + HexDigit(b).value == 16 * HexDigit(c).value + HexDigit(d).value
    ensures a == c && b == d
  {
    assert HexDigit(b).value < 16 && HexDigit(d).value < 16;
  }

  lemma {:induction false} FromHexInjective(s: string, t: string)
    requires FromHex(s).Ok? && FromHex(s) == FromHex(t)
    ensures s == t
    decreases |s|
  {
    if s != [] && t != [] {
      FromHexHead(s);
      FromHexHead(t);
      HexPairInjective(s[0], s[1], t[0], t[1]);
      FromHexInjective(s[2..], t[2..]);
      assert s == [s[0], s[1]] + s[2..] && t == [t[0], t[1]] + t[2..];
    } else if s != [] {
      FromHexHead(s);
    } else if t != [] {
      FromHexHead(t);
    }
  }

  /** bytes.hex() */
  function HexChar(n: nat): char
    requires n < 16
  {
    if n < 10 then '0' + n as char else 'a' + (n - 10) as char
  }

  function ToHex(b: Bytes): (s: string)
    ensures |s| == 2 * |b|
  {
    if b == [] then "" else [HexChar(b[0] / 16), HexChar(b[0] % 16)] + ToHex(b[1..])
  }

  lemma HexCharDigit(n: nat)
    requires n < 16
    ensures HexDigit(HexChar(n)) == Some(n) && LowerChar(HexChar(n)) == HexChar(n)
  {
  }

  lemma {:induction false} FromToHex(b: Bytes)
    ensures FromHex(ToHex(b)) == Ok(b)
    ensures Lower(ToHex(b)) == ToHex(b)
  {
    if b != [] {
      FromToHex(b[1..]);
      HexCharDigit(b[0] / 16);
      HexCharDigit(b[0] % 16);
      var s := ToHex(b);
      assert s[2..] == ToHex(b[1..]);
      assert Lower(s)[2..] == Lower(s[2..]);
      assert b == [b[0]] + b[1..];
      assert s == [s[0], s[1]] + s[2..] && Lower(s) == [Lower(s)[0], Lower(s)[1]] + Lower(s)[2..];
    }
  }

  /** addr[2:].lower() */
  function HexPart(addr: string): string {
    Lower(if |addr| < 2 then "" else addr[2..])
  }

  /** _address_bytes, and encode_extra_data's own _pad. */
  function AddressBytes(addr: string): Result<Bytes> {
    match FromHex(HexPart(addr))
    case Ok(b) => Ok(LeftPad32(b))
    case Err(e) => Err(e)
  }

  /** The number that the address's digits write. */
  function AddressNumber(addr: string): nat
    requires AddressBytes(addr).Ok?
  {
    FromBytes(FromHex(HexPart(addr)).value)
  }

  predicate IsAddress(addr: string) {
    FromHex(HexPart(addr)).Ok? && |FromHex(HexPart(addr)).value| == 20
  }

  lemma {:induction false} LeadingZeros(n: nat, b: Bytes)
    ensures FromBytes(Zeros(n) + b) == FromBytes(b)
    decreases |b|, n
  {
    var w := Zeros(n) + b;
    if b != [] {
      assert w[..|w| - 1] == Zeros(n) + b[..|b| - 1];
      LeadingZeros(n, b[..|b| - 1]);
    } else if n > 0 {
      assert w[..n - 1] == Zeros(n - 1) + b && w[n - 1] == 0;
      LeadingZeros(n - 1, b);
    } else {
      assert w == b;
    }
  }

  lemma PadKeepsNumber(b: Bytes)
    ensures FromBytes(LeftPad32(b)) == FromBytes(b)
  {
    if |b| < 32 {
      LeadingZeros(32 - |b|, b);
    }
  }

  lemma FromBytesInjective(a: Bytes, b: Bytes)
    requires |a| == |b| && FromBytes(a) == FromBytes(b)
    ensures a == b
  {
    ToFromBytes(a);
    ToFromBytes(b);
  }

  /** Words of one length are equal exactly when they hold the same number. All strings of at most
      32 bytes are padded to one length. */
  lemma PadsAlikeExactly(a: Bytes, b: Bytes)
    requires |LeftPad32(a)| == |LeftPad32(b)|
    ensures LeftPad32(a) == LeftPad32(b) <==> FromBytes(a) == FromBytes(b)
  {
    PadKeepsNumber(a);
    PadKeepsNumber(b);
    if FromBytes(a) == FromBytes(b) {
      FromBytesInjective(LeftPad32(a), LeftPad32(b));
    }
  }

  /** The words of both addresses have one length: each address has at most 32 bytes, or both have
      equally many. */
  predicate Comparable(a: string, b: string) {
    AddressBytes(a).Ok? && AddressBytes(b).Ok? && |AddressBytes(a).value| == |AddressBytes(b).value|
  }

  lemma ComparableIff(a: string, b: string)
    requires AddressBytes(a).Ok? && AddressBytes(b).Ok?
    ensures var x, y := FromHex(HexPart(a)).value, FromHex(HexPart(b)).value;
            Comparable(a, b) <==> (|x| <= 32 && |y| <= 32) || |x| == |y|
  {
  }

  /** Comparable addresses have one encoding exactly when they are the same number. */
  lemma AddressBytesExactly(a: string, b: string)
    requires Comparable(a, b)
    ensures AddressBytes(a) == AddressBytes(b) <==> AddressNumber(a) == AddressNumber(b)
  {
    PadsAlikeExactly(FromHex(HexPart(a)).value, FromHex(HexPart(b)).value);
  }

  /** Addresses of equally many digits are the same number exactly when their digits agree, up to
      the case of the letters. */
  lemma SameDigits(a: string, b: string)
    requires AddressBytes(a).Ok? && AddressBytes(b).Ok?
    requires |FromHex(HexPart(a)).value| == |FromHex(HexPart(b)).value|
    ensures AddressNumber(a) == AddressNumber(b) <==> HexPart(a) == HexPart(b)
  {
    if AddressNumber(a) == AddressNumber(b) {
      FromBytesInjective(FromHex(HexPart(a)).value, FromHex(HexPart(b)).value);
      FromHexInjective(HexPart(a), HexPart(b));
    }
  }

  // ----- the signature wrapper

  /** The wrapper that sign_spend_permission lays out around a signature. */
  function Wrap(signature: Bytes): Result<Bytes> {
    var ownerIndex :- Uint(0);
    var offset :- Uint(64);
    var length :- Uint(|signature|);
    Ok(ownerIndex + offset + length + (signature + Zeros(-|signature| % 32)))
  }

  function Word(data: Bytes, at: nat): Option<nat> {
    if at + 32 <= |data| then Some(FromBytes(data[at..at + 32])) else None
  }

  /** abi.decode of (uint256, bytes) with its head at base: a word, then an offset from the head
      to a length word and that many bytes. */
  function DecodeAt(data: Bytes, base: nat): Option<(nat, Bytes)> {
    match (Word(data, base), Word(data, base + 32))
    case (Some(owner), Some(offset)) =>
      var start := base + offset;
      (match Word(data, start)
       case Some(length) =>
         if start + 32 + length <= |data| then Some((owner, data[start + 32..start + 32 + length])) else None
       case None => None)
    case _ => None
  }

  function DecodeFlat(data: Bytes): Option<(nat, Bytes)> {
    DecodeAt(data, 0)
  }

  /** abi.decode of one dynamic tuple: the first word is the offset to the tuple's own head. */
  function DecodeTuple(data: Bytes): Option<(nat, Bytes)> {
    match Word(data, 0)
    case Some(base) => DecodeAt(data, base)
    case None => None
  }

  lemma UintWord(n: nat, data: Bytes, at: nat)
    requires n < UINT256_LIMIT && at + 32 <= |data| && data[at..at + 32] == Uint(n).value
    ensures Word(data, at) == Some(n)
  {
    FromToBytes(n, 32);
  }

  lemma SmallFits(n: nat)
    requires n < 256
    ensures n < UINT256_LIMIT
  {
    Pow256Grows(31);
  }

  lemma {:induction false} Pow256Grows(k: nat)
    ensures Pow256(k) >= 1
  {
    if k > 0 {
      Pow256Grows(k - 1);
    }
  }

  lemma WordsThenRest(a: Bytes, b: Bytes, c: Bytes, d: Bytes, pad: Bytes)
    requires |a| == |b| == |c| == 32
    ensures var w := a + b + c + (d + pad);
            && |w| == 96 + |d| + |pad|
            && w[0..32] == a && w[32..64] == b && w[64..96] == c && w[96..96 + |d|] == d
  {
  }

  /** The words that a decoder meets, and the bytes after them. */
  lemma WrapLayout(signature: Bytes)
    requires |signature| < UINT256_LIMIT
    ensures Wrap(signature).Ok?
    ensures var w, n := Wrap(signature).value, |signature|;
            && |w| == 96 + n + (-n % 32)
            && Word(w, 0) == Some(0) && Word(w, 32) == Some(64) && Word(w, 64) == Some(n)
            && w[96..96 + n] == signature
  {
    SmallFits(0);
    SmallFits(64);
    var w, n := Wrap(signature).value, |signature|;
    WordsThenRest(Uint(0).value, Uint(64).value, Uint(n).value, signature, Zeros(-n % 32));
    UintWord(0, w, 0);
    UintWord(64, w, 32);
    UintWord(n, w, 64);
  }

  lemma LayoutDecodes(w: Bytes, n: int)
    requires n >= 0 && |w| == 96 + n + (-n % 32)
    requires Word(w, 0) == Some(0) && Word(w, 32) == Some(64) && Word(w, 64) == Some(n)
    ensures |w| % 32 == 0
    ensures DecodeFlat(w) == Some((0, w[96..96 + n])) && DecodeTuple(w) == Some((0, w[96..96 + n]))
  {
  }

  /** Whole words, and decoding gives back owner index 0 and the signature, read as two fields or
      as one dynamic tuple: the owner index 0 in the first word doubles as the tuple's offset. */
  lemma WrapDecodes(signature: Bytes)
    ensures Wrap(signature).Ok? <==> |signature| < UINT256_LIMIT
    ensures Wrap(signature).Ok? ==>
              && |Wrap(signature).value| % 32 == 0
              && DecodeFlat(Wrap(signature).value) == Some((0, signature))
              && DecodeTuple(Wrap(signature).value) == Some((0, signature))
  {
    if |signature| < UINT256_LIMIT {
      WrapLayout(signature);
      LayoutDecodes(Wrap(signature).value, |signature|);
    }
  }

  // ----- SpendRouter's extra data

  function EncodeExtraData(executor: string, recipient: string): Result<Bytes> {
    var a :- AddressBytes(executor);
    var b :- AddressBytes(recipient);
    Ok(a + b)
  }

  /** abi.decode of an address: a word whose high twelve bytes are zero. */
  function DecodeAddress(data: Bytes, at: nat): Option<Bytes> {
    if at + 32 <= |data| && data[at..at + 12] == Zeros(12) then Some(data[at + 12..at + 32]) else None
  }

  lemma ExtraDataDecodes(executor: string, recipient: string)
    requires IsAddress(executor) && IsAddress(recipient)
    ensures var r := EncodeExtraData(executor, recipient);
            && r.Ok? && |r.value| == 64
            && DecodeAddress(r.value, 0) == Some(FromHex(HexPart(executor)).value)
            && DecodeAddress(r.value, 32) == Some(FromHex(HexPart(recipient)).value)
  {
    var a, b := FromHex(HexPart(executor)).value, FromHex(HexPart(recipient)).value;
    TwoAddresses(Zeros(12), a, b);
  }

  lemma TwoAddresses(pad: Bytes, a: Bytes, b: Bytes)
    requires |pad| == 12 && |a| == |b| == 20
    ensures var r := (pad + a) + (pad + b);
            |r| == 64 && r[0..12] == pad && r[12..32] == a && r[32..44] == pad && r[44..64] == b
  {
  }
}
