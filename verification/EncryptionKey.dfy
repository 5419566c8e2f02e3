/**
 * P-384 keys on the wire and the ECDH channel: SubjectPublicKeyInfo as in section 2 of RFC 5480 with
 * length octets as in section 8.1.3 of ITU-T X.690, and keys derived from a salt both sides agree on.
 */
module EncryptionKey {
  import opened Bytes

  //// DER

  const OID_EC_PUBKEY: seq<Byte> := [0x06, 0x07, 0x2a, 0x86, 0x48, 0xce, 0x3d, 0x02, 0x01]
  const OID_SECP384R1: seq<Byte> := [0x06, 0x05, 0x2b, 0x81, 0x04, 0x00, 0x22]

  /** AlgorithmIdentifier: both object identifiers in a sequence. */
  function Algorithm(): (s: seq<Byte>)
    ensures |s| == 18 && s[0] == 0x30 && s[1] == 16
  {
    [0x30, 16] + OID_EC_PUBKEY + OID_SECP384R1
  }

  /** Length octets of the bit string: one octet, or 0x81 and one octet that keeps only the low byte. */
  function BitStringLength(n: nat): seq<Byte> {
    if n > 127 then [0x81, n % 256] else [n]
  }

  function BitString(point: seq<Byte>): seq<Byte> {
    [0x03] + BitStringLength(1 + |point|) + [0x00] + point
  }

  /** Length octets of the outer sequence: short form, or the minimal bytes of a 32-bit length. */
  function OuterLength(n: nat): (s: seq<Byte>)
    ensures s != []
  {
    if n > 127 then
      var b := ToBE(n % 0x1_0000_0000);
      U32Bytes(n % 0x1_0000_0000);
      [0x80 + |b|] + b
    else [n]
  }

  lemma {:induction false} U32Bytes(n: nat)
    requires n < 0x1_0000_0000
    ensures |ToBE(n)| <= 4
  {
    assert Pow256(4) == 0x1_0000_0000;
    ToBELength(n, 4);
  }

  function Der(point: seq<Byte>): seq<Byte> {
    [0x30] + OuterLength(|Algorithm()| + |BitString(point)|) + Algorithm() + BitString(point)
  }

  method PrintBitString(point: seq<Byte>) returns (bs: seq<Byte>)
    ensures bs == BitString(point)
  {
    var len := 1 + |point|;
    bs := [0x03];
    if len > 127 {
      bs := bs + [0x81];
      bs := bs + [len % 256];
    } else {
      bs := bs + [len];
    }
    assert bs == [0x03] + BitStringLength(len);
    bs := bs + [0x00];
    bs := bs + point;
  }

  method PrintOuterLength(len: nat) returns (s: seq<Byte>)
    ensures s == OuterLength(len)
  {
    if len > 127 {
      var lenBytes := ToBE(len % 0x1_0000_0000);
      U32Bytes(len % 0x1_0000_0000);
      s := [0x80 + |lenBytes|];
      s := s + lenBytes;
    } else {
      s := [len];
    }
  }

  /** The printer, piece by piece into growing vectors. */
  method PublicKeyAsDer(point: seq<Byte>) returns (spki: seq<Byte>)
    ensures spki == Der(point)
  {
    var algSeq: seq<Byte> := [0x30];
    algSeq := algSeq + [|OID_EC_PUBKEY| + |OID_SECP384R1|];
    algSeq := algSeq + OID_EC_PUBKEY;
    algSeq := algSeq + OID_SECP384R1;
    assert algSeq == Algorithm();
    hide Algorithm, BitString, OuterLength;
    var bitString := PrintBitString(point);
    var len := PrintOuterLength(|algSeq| + |bitString|);
    spki := [0x30] + len;
    spki := spki + algSeq;
    spki := spki + bitString;
  }

  datatype Length = Length(octets: nat, value: nat)

  function ParseLength(data: seq<Byte>): Option<Length> {
    if data == [] then None
    else if data[0] < 0x80 then Some(Length(1, data[0]))
    else if data[0] == 0x81 then if |data| < 2 then None else Some(Length(2, data[1]))
    else if data[0] == 0x82 then
      if |data| < 3 then None
      else
        var hi: nat := data[1];
        Some(Length(3, hi * 256 + data[2]))
    else None
  }

  /** The point inside a printed key; a bit string without its unused-bits octet counts as malformed. */
  function ParseDer(der: seq<Byte>): Option<seq<Byte>> {
    if |der| < 4 || der[0] != 0x30 then None
    else match ParseLength(der[1..])
      case None => None
      case Some(outer) => if 1 + outer.octets > |der| then None else ParseContent(der[1 + outer.octets..])
  }

  function ParseContent(content: seq<Byte>): Option<seq<Byte>> {
    if content == [] || content[0] != 0x30 then None
    else match ParseLength(content[1..])
      case None => None
      case Some(alg) =>
        var start := 1 + alg.octets + alg.value;
        if start >= |content| || content[start] != 0x03 then None else ParseBitString(content[start..])
  }

  function ParseBitString(bs: seq<Byte>): Option<seq<Byte>>
    requires bs != []
  {
    match ParseLength(bs[1..])
    case None => None
    case Some(len) =>
      var start := 1 + len.octets;
      if start + len.value > |bs| || len.value == 0 then None else Some(bs[start + 1..start + len.value])
  }

  //// What is parsed, on any bytes

  /** Length octets in the definite form with at most two octets after the first. */
  predicate IsLength(l: seq<Byte>, n: nat) {
    || (|l| == 1 && l[0] < 0x80 && n == l[0])
    || (|l| == 2 && l[0] == 0x81 && n == l[1])
    || (|l| == 3 && l[0] == 0x82 && var hi: nat := l[1]; n == hi * 256 + l[2])
  }

  lemma {:induction false} ParseLengthMeans(data: seq<Byte>, len: Length)
    ensures ParseLength(data) == Some(len) <==> len.octets <= |data| && IsLength(data[..len.octets], len.value)
  {
  }

  lemma {:induction false} LengthThen(l: seq<Byte>, n: nat, rest: seq<Byte>)
    requires IsLength(l, n)
    ensures ParseLength(l + rest) == Some(Length(|l|, n))
  {
    ParseLengthMeans(l + rest, Length(|l|, n));
    assert (l + rest)[..|l|] == l;
  }

  /** A bit string: tag, length, one octet of unused bits, and the point. */
  ghost predicate BitStringOf(bs: seq<Byte>, point: seq<Byte>) {
    exists l, unused, rest :: IsLength(l, 1 + |point|) && bs == [0x03] + l + [unused] + point + rest
  }

  lemma {:induction false} ParseBitStringMeans(bs: seq<Byte>, point: seq<Byte>)
    requires bs != [] && bs[0] == 0x03
    ensures ParseBitString(bs) == Some(point) <==> BitStringOf(bs, point)
  {
    hide IsLength, ParseLength;
    if BitStringOf(bs, point) {
      var l, unused, rest :| IsLength(l, 1 + |point|) && bs == [0x03] + l + [unused] + point + rest;
      BitStringParses(l, unused, point, rest);
    } else if ParseBitString(bs) == Some(point) {
      ParsedBitString(bs, point);
    }
  }

  lemma {:induction false} ParsedBitString(bs: seq<Byte>, point: seq<Byte>)
    requires bs != [] && bs[0] == 0x03 && ParseBitString(bs) == Some(point)
    ensures BitStringOf(bs, point)
  {
    var len := ParseLength(bs[1..]).value;
    ParseLengthMeans(bs[1..], len);
    hide IsLength, ParseLength;
    var l := bs[1..][..len.octets];
    var start := 1 + len.octets;
    var rest := bs[start + len.value..];
    assert bs == [0x03] + l + [bs[start]] + point + rest;
  }

  lemma {:induction false} BitStringParses(l: seq<Byte>, unused: Byte, point: seq<Byte>, rest: seq<Byte>)
    requires IsLength(l, 1 + |point|)
    ensures ParseBitString([0x03] + l + [unused] + point + rest) == Some(point)
  {
    hide IsLength, ParseLength;
    var bs := [0x03] + l + [unused] + point + rest;
    LengthThen(l, 1 + |point|, [unused] + point + rest);
    assert bs[1..] == l + ([unused] + point + rest);
    assert bs[1 + |l| + 1..1 + |l| + 1 + |point|] == point;
  }

  /** An algorithm identifier of any contents, followed by the bit string. */
  ghost predicate ContentOf(content: seq<Byte>, point: seq<Byte>) {
    exists l, algorithm, bs :: ContentParts(content, l, algorithm, bs, point)
  }

  ghost predicate ContentParts(
    content: seq<Byte>, l: seq<Byte>, algorithm: seq<Byte>, bs: seq<Byte>, point: seq<Byte>)
  {
    && IsLength(l, |algorithm|) && content == [0x30] + l + algorithm + bs
    && bs != [] && bs[0] == 0x03 && BitStringOf(bs, point)
  }

  lemma {:induction false} ParseContentMeans(content: seq<Byte>, point: seq<Byte>)
    ensures ParseContent(content) == Some(point) <==> ContentOf(content, point)
  {
    hide ParseContent, ContentParts;
    if ContentOf(content, point) {
      var l, algorithm, bs :| ContentParts(content, l, algorithm, bs, point);
      ContentParses(content, l, algorithm, bs, point);
    } else if ParseContent(content) == Some(point) {
      ParsedContent(content, point);
    }
  }

  lemma {:induction false} ParsedContent(content: seq<Byte>, point: seq<Byte>)
    requires ParseContent(content) == Some(point)
    ensures ContentOf(content, point)
  {
    var alg := ParseLength(content[1..]).value;
    ParseLengthMeans(content[1..], alg);
    var l := content[1..][..alg.octets];
    var start := 1 + alg.octets + alg.value;
    var algorithm, bs := content[1 + alg.octets..start], content[start..];
    hide IsLength, ParseLength, BitStringOf, ParseBitString;
    ParseBitStringMeans(bs, point);
    assert content == [0x30] + l + algorithm + bs;
    assert ContentParts(content, l, algorithm, bs, point);
  }

  lemma {:induction false} ContentParses(
    content: seq<Byte>, l: seq<Byte>, algorithm: seq<Byte>, bs: seq<Byte>, point: seq<Byte>)
    requires ContentParts(content, l, algorithm, bs, point)
    ensures ParseContent(content) == Some(point)
  {
    hide IsLength, ParseLength, BitStringOf, ParseBitString;
    LengthThen(l, |algorithm|, algorithm + bs);
    assert content[1..] == l + (algorithm + bs);
    assert content[1 + |l| + |algorithm|..] == bs;
    ParseBitStringMeans(bs, point);
  }

  /** A sequence around the content, with whatever length it claims. */
  ghost predicate DerParts(der: seq<Byte>, l: seq<Byte>, n: nat, content: seq<Byte>, point: seq<Byte>) {
    IsLength(l, n) && der == [0x30] + l + content && ContentOf(content, point)
  }

  /**
   * On any bytes the parser finds exactly the point of a sequence of an algorithm identifier and a bit
   * string, whatever the identifier says and whatever length the outer sequence claims.
   */
  lemma {:induction false} ParseDerMeans(der: seq<Byte>, point: seq<Byte>)
    ensures ParseDer(der) == Some(point) <==> exists l, n, content :: DerParts(der, l, n, content, point)
  {
    hide ParseDer, DerParts;
    if l, n, content :| DerParts(der, l, n, content, point) {
      DerParses(der, l, n, content, point);
    } else if ParseDer(der) == Some(point) {
      ParsedDer(der, point);
    }
  }

  lemma {:induction false} ParsedDer(der: seq<Byte>, point: seq<Byte>)
    requires ParseDer(der) == Some(point)
    ensures exists l, n, content :: DerParts(der, l, n, content, point)
  {
    hide ContentOf, ParseContent;
    var outer := ParseLength(der[1..]).value;
    ParseLengthMeans(der[1..], outer);
    var l, content := der[1..][..outer.octets], der[1 + outer.octets..];
    hide IsLength, ParseLength;
    ParseContentMeans(content, point);
    assert der == [0x30] + l + content;
    assert DerParts(der, l, outer.value, content, point);
  }

  lemma {:induction false} DerParses(der: seq<Byte>, l: seq<Byte>, n: nat, content: seq<Byte>, point: seq<Byte>)
    requires DerParts(der, l, n, content, point)
    ensures ParseDer(der) == Some(point)
  {
    hide ContentOf, ParseContent;
    LengthThen(l, n, content);
    ContentLength(content, point);
    hide ParseLength;
    assert der[1..] == l + content && der[1 + |l|..] == content;
    ParseContentMeans(content, point);
  }

  lemma {:induction false} ContentLength(content: seq<Byte>, point: seq<Byte>)
    requires ContentOf(content, point)
    ensures |content| >= 3
  {
    var l, algorithm, bs :| ContentParts(content, l, algorithm, bs, point);
    hide BitStringOf;
  }

  lemma {:induction false} ParseBitStringOf(point: seq<Byte>)
    ensures var r := ParseBitString(BitString(point));
            if |point| <= 254 then r == Some(point) else r.Some? ==> |r.value| < |point|
  {
    var n := 1 + |point|;
    var bs := BitString(point);
    var k := |BitStringLength(n)|;
    assert bs[1..] == BitStringLength(n) + [0x00] + point;
    assert ParseLength(bs[1..]) == Some(Length(k, if n > 127 then n % 256 else n));
    if |point| <= 254 {
      assert bs[1 + k + 1..1 + k + n] == point;
    }
  }

  lemma {:induction false} ParseContentOf(bs: seq<Byte>)
    requires bs != [] && bs[0] == 0x03
    ensures ParseContent(Algorithm() + bs) == ParseBitString(bs)
  {
    var content := Algorithm() + bs;
    assert content[1..][0] == 16;
    assert content[18..] == bs;
  }

  /** Long form: one or two length octets are read as a number, other counts are refused. */
  lemma {:induction false} ParseLongForm(b: seq<Byte>, rest: seq<Byte>)
    requires |b| <= 4
    ensures ParseLength([0x80 + |b|] + b + rest) == if 1 <= |b| <= 2 then Some(Length(1 + |b|, FromBE(b))) else None
  {
    var data := [0x80 + |b|] + b + rest;
    assert data[0] == 0x80 + |b|;
    if 1 <= |b| <= 2 {
      SmallBE(b);
      hide FromBE;
      assert data[1] == b[0];
      if |b| == 2 { assert data[2] == b[1]; }
    }
  }

  /** The outer length is skipped whatever it says, if it is read at all; below 65536 it always is. */
  lemma {:induction false} SkipOuterLength(n: nat, rest: seq<Byte>)
    ensures var r := ParseLength(OuterLength(n) + rest);
            && (r.Some? ==> r.value.octets == |OuterLength(n)|)
            && (n < 0x1_0000 ==> r.Some?)
  {
    if n > 127 {
      var m := n % 0x1_0000_0000;
      U32Bytes(m);
      ToBEDenotes(m);
      if n < 0x1_0000 {
        assert Pow256(2) == 0x1_0000;
        ToBELength(n, 2);
      }
      var b := ToBE(m);
      assert OuterLength(n) == [0x80 + |b|] + b;
      hide *;
      ParseLongForm(b, rest);
    } else {
      assert (OuterLength(n) + rest)[0] == n;
    }
  }

  lemma {:induction false} SmallBE(b: seq<Byte>)
    requires 1 <= |b| <= 2
    ensures FromBE(b) == if |b| == 1 then b[0] else (b[0] as nat) * 256 + b[1]
  {
    assert b[..0] == [];
    if |b| == 1 {
      assert FromBE(b) == FromBE(b[..0]) * 256 + b[0];
    } else {
      assert b[..1] == [b[0]] && b[..1][..0] == [];
      assert FromBE(b[..1]) == FromBE(b[..1][..0]) * 256 + b[0];
      assert FromBE(b) == FromBE(b[..1]) * 256 + b[1];
    }
  }

  /** Printed keys parse back exactly when the point has at most 254 bytes, across all length forms. */
  lemma {:induction false} DerRoundTrip(point: seq<Byte>)
    ensures ParseDer(Der(point)) == Some(point) <==> |point| <= 254
  {
    var bs := BitString(point);
    var content := Algorithm() + bs;
    assert bs[0] == 0x03 && |content| == |Algorithm()| + |bs|;
    assert |point| <= 254 ==> |content| < 0x1_0000;
    assert Der(point) == [0x30] + OuterLength(|content|) + content;
    hide *;
    ParseContentOf(bs);
    ParseBitStringOf(point);
    SkipOuterLength(|content|, content);
    OuterFrame(OuterLength(|content|), content);
  }

  lemma {:induction false} OuterFrame(len: seq<Byte>, content: seq<Byte>)
    requires |len| >= 1 && |content| >= 18
    requires var r := ParseLength(len + content); r.Some? ==> r.value.octets == |len|
    ensures ParseDer([0x30] + len + content) ==
            if ParseLength(len + content).Some? then ParseContent(content) else None
  {
    var der := [0x30] + len + content;
    assert der[1..] == len + content;
    assert der[1 + |len|..] == content;
  }

  //// The channel

  type Secret = nat

  /** The curve, the key derivation and the AEAD, with the laws the channel rests on. */
  datatype Suite = Suite(
    publicPoint: Secret -> seq<Byte>,
    onCurve: seq<Byte> -> bool,
    diffieHellman: (Secret, seq<Byte>) -> seq<Byte>,
    hkdf: (seq<Byte>, seq<Byte>) -> seq<Byte>,
    seal: (seq<Byte>, seq<Byte>, seq<Byte>) -> seq<Byte>,
    open: (seq<Byte>, seq<Byte>, seq<Byte>) -> Option<seq<Byte>>)

  const POINT_LENGTH: nat := 97
  const NONCE_LENGTH: nat := 12

  ghost predicate Lawful(u: Suite) {
    && (forall s :: |u.publicPoint(s)| == POINT_LENGTH && u.onCurve(u.publicPoint(s)))
    && (forall a, b :: u.diffieHellman(a, u.publicPoint(b)) == u.diffieHellman(b, u.publicPoint(a)))
    && (forall k, n, m :: u.open(k, n, u.seal(k, n, m)) == Some(m))
  }

  datatype ChannelError = BadNonce | BadPeerKey | OpenFailed

  /** Both public keys in a fixed order, then the nonce. */
  function Salt(mine: seq<Byte>, theirs: seq<Byte>, nonce: seq<Byte>): seq<Byte> {
    (if LexLe(mine, theirs) then mine + theirs else theirs + mine) + nonce
  }

  function SharedKey(u: Suite, me: Secret, peerDer: seq<Byte>, nonce: seq<Byte>): Result<seq<Byte>, ChannelError> {
    match ParseDer(peerDer)
    case None => Err(BadPeerKey)
    case Some(peer) =>
      if !u.onCurve(peer) then Err(BadPeerKey)
      else Ok(u.hkdf(Salt(u.publicPoint(me), peer, nonce), u.diffieHellman(me, peer)))
  }

  function Encrypt(
    u: Suite, me: Secret, message: seq<Byte>, peerDer: seq<Byte>, nonce: seq<Byte>): Result<seq<Byte>, ChannelError>
  {
    if |nonce| != NONCE_LENGTH then Err(BadNonce)
    else match SharedKey(u, me, peerDer, nonce)
      case Err(e) => Err(e)
      case Ok(key) => Ok(u.seal(key, nonce, message))
  }

  function Decrypt(
    u: Suite, me: Secret, nonce: seq<Byte>, peerDer: seq<Byte>, sealed: seq<Byte>): Result<seq<Byte>, ChannelError>
  {
    if |nonce| != NONCE_LENGTH then Err(BadNonce)
    else match SharedKey(u, me, peerDer, nonce)
      case Err(e) => Err(e)
      case Ok(key) =>
        match u.open(key, nonce, sealed)
        case None => Err(OpenFailed)
        case Some(m) => Ok(m)
  }

  lemma {:induction false} SaltSymmetric(a: seq<Byte>, b: seq<Byte>, nonce: seq<Byte>)
    ensures Salt(a, b, nonce) == Salt(b, a, nonce)
  {
    LexTotal(a, b);
    if LexLe(a, b) && LexLe(b, a) {
      LexAntisymmetric(a, b);
    }
  }

  /** The salt determines the unordered pair of keys and the nonce. */
  lemma {:induction false} SaltDetermines(
    a: seq<Byte>, b: seq<Byte>, n: seq<Byte>, c: seq<Byte>, d: seq<Byte>, m: seq<Byte>)
    requires |a| == |b| == |c| == |d| == POINT_LENGTH
    requires Salt(a, b, n) == Salt(c, d, m)
    ensures n == m && {a, b} == {c, d}
  {
    var s, t := Salt(a, b, n), Salt(c, d, m);
    var x, y := (if LexLe(a, b) then (a, b) else (b, a)), (if LexLe(c, d) then (c, d) else (d, c));
    assert s == x.0 + x.1 + n && t == y.0 + y.1 + m;
    assert x.0 == s[..97] == t[..97] == y.0;
    assert x.1 == s[97..194] == t[97..194] == y.1;
    assert n == s[194..] == t[194..] == m;
    assert {a, b} == {x.0, x.1} && {c, d} == {y.0, y.1};
  }

  lemma {:induction false} SameKey(u: Suite, a: Secret, b: Secret, nonce: seq<Byte>)
    requires Lawful(u)
    ensures SharedKey(u, a, Der(u.publicPoint(b)), nonce).Ok?
    ensures SharedKey(u, a, Der(u.publicPoint(b)), nonce) == SharedKey(u, b, Der(u.publicPoint(a)), nonce)
  {
    DerRoundTrip(u.publicPoint(a));
    DerRoundTrip(u.publicPoint(b));
    SaltSymmetric(u.publicPoint(a), u.publicPoint(b), nonce);
  }

  /** Both directions use the key derived from the two public points in order and the nonce. */
  ghost predicate UsesKeyOf(
    u: Suite, me: Secret, peer: seq<Byte>, lo: seq<Byte>, hi: seq<Byte>, text: seq<Byte>, peerDer: seq<Byte>,
    nonce: seq<Byte>)
  {
    var key := u.hkdf(lo + hi + nonce, u.diffieHellman(me, peer));
    && LexLe(lo, hi) && Encrypt(u, me, text, peerDer, nonce) == Ok(u.seal(key, nonce, text))
    && Decrypt(u, me, nonce, peerDer, text) ==
       match u.open(key, nonce, text)
       case None => Err(OpenFailed)
       case Some(m) => Ok(m)
  }

  /**
   * Sealing and opening on any input: a nonce of twelve bytes, a peer key that parses to a point on
   * the curve, and the key derived from both public points in order followed by the nonce.
   */
  lemma {:induction false} ChannelMeans(u: Suite, me: Secret, text: seq<Byte>, peerDer: seq<Byte>, nonce: seq<Byte>)
    ensures |nonce| != 12 ==> Encrypt(u, me, text, peerDer, nonce) == Err(BadNonce)
    ensures |nonce| != 12 ==> Decrypt(u, me, nonce, peerDer, text) == Err(BadNonce)
    ensures |nonce| == 12 ==>
              match ParseDer(peerDer)
              case None =>
                && Encrypt(u, me, text, peerDer, nonce) == Err(BadPeerKey)
                && Decrypt(u, me, nonce, peerDer, text) == Err(BadPeerKey)
              case Some(peer) =>
                if !u.onCurve(peer) then
                  && Encrypt(u, me, text, peerDer, nonce) == Err(BadPeerKey)
                  && Decrypt(u, me, nonce, peerDer, text) == Err(BadPeerKey)
                else exists lo, hi ::
                  {lo, hi} == {u.publicPoint(me), peer} && UsesKeyOf(u, me, peer, lo, hi, text, peerDer, nonce)
  {
    if |nonce| == 12 && ParseDer(peerDer).Some? && u.onCurve(ParseDer(peerDer).value) {
      var peer := ParseDer(peerDer).value;
      var mine := u.publicPoint(me);
      LexTotal(mine, peer);
      var lo, hi := if LexLe(mine, peer) then mine else peer, if LexLe(mine, peer) then peer else mine;
      assert SharedKey(u, me, peerDer, nonce) == Ok(u.hkdf(lo + hi + nonce, u.diffieHellman(me, peer)));
      assert {lo, hi} == {mine, peer} && UsesKeyOf(u, me, peer, lo, hi, text, peerDer, nonce);
    }
  }

  /** The printed form of an uncompressed P-384 point. */
  lemma {:induction false} P384Der(point: seq<Byte>)
    requires |point| == 97
    ensures Der(point) == [0x30, 0x76, 0x30, 0x10, 0x06, 0x07, 0x2a, 0x86, 0x48, 0xce, 0x3d, 0x02, 0x01, 0x06, 0x05,
                           0x2b, 0x81, 0x04, 0x00, 0x22, 0x03, 0x62, 0x00] + point
  {
  }

  /** Each side derives the same key from the other's printed key, so B reads what A wrote. */
  lemma {:induction false} ChannelRoundTrip(u: Suite, a: Secret, b: Secret, nonce: seq<Byte>, message: seq<Byte>)
    requires Lawful(u)
    ensures var sealed := Encrypt(u, a, message, Der(u.publicPoint(b)), nonce);
            && (sealed.Ok? <==> |nonce| == 12)
            && (sealed.Ok? ==> Decrypt(u, b, nonce, Der(u.publicPoint(a)), sealed.value) == Ok(message))
  {
    SameKey(u, a, b, nonce);
  }
}
