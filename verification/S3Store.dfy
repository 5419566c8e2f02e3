/**
 * The S3-backed store with optional envelope encryption. The configuration (mode, key version, AAD
 * mode, plaintext policy) may differ from one operation to the next; objects carry in their metadata
 * what is needed to open them. Key derivation and the AEAD are ideal functions.
 */
module S3Store {
  import opened Bytes
  import opened Hex
  import opened Text

  const META_ENC_SCHEME := "capsule-api-enc"
  const META_NONCE := "capsule-api-nonce"
  const META_KEY_VERSION := "capsule-api-key-version"
  const META_AAD_MODE := "capsule-api-aad-mode"
  const META_CONTENT_TYPE := "capsule-api-content-type"
  const ENC_SCHEME_KMS_V1 := "kms-v1"
  const RESERVED_PREFIX := "wallet/eth/app/"

  datatype AadMode = AadNone | AadKey | AadKeyAndVersion

  datatype Encryption = Encryption(kms: bool, keyVersion: string, aadMode: AadMode, acceptPlaintext: bool)

  type Config = Option<Encryption>

  /** The key-management service and the AEAD behind it. */
  datatype Crypto = Crypto(
    derive: string -> seq<Byte>,
    seal: (seq<Byte>, seq<Byte>, string, seq<Byte>) -> seq<Byte>,
    open: (seq<Byte>, seq<Byte>, string, seq<Byte>) -> Option<seq<Byte>>)

  ghost predicate Ideal(c: Crypto) {
    && (forall path :: |c.derive(path)| == 32)
    && (forall k, n, a, m :: c.open(k, n, a, c.seal(k, n, a, m)) == Some(m))
  }

  datatype Object = Object(body: seq<Byte>, metadata: map<string, string>, contentType: Option<string>)

  datatype StoreError =
    | InvalidKey | KmsDetached | DeriveRefused | BadDekLength | PlaintextRefused
    | MissingNonce | BadNonce | OpenFailed | Network

  datatype Value = Value(bytes: seq<Byte>, contentType: Option<string>)

  datatype Got = Found(value: Value) | NotFound | Failed(error: StoreError)

  //// Keys

  predicate AllowedKey(key: string) { !TwoDots(key) && !("/" <= key) }

  function NormalPrefix(prefix: string): string {
    if prefix != "" && prefix[|prefix| - 1] != '/' then prefix + "/" else prefix
  }

  function BuildKey(prefix: string, key: string): Option<string> {
    if AllowedKey(key) then Some(prefix + key) else None
  }

  //// Isolation by prefix

  /** A prefix as the proxy keeps it: none, or closed by a separator. */
  predicate ClosedPrefix(prefix: string) { prefix == "" || prefix[|prefix| - 1] == '/' }

  lemma {:induction false} NormalPrefixCloses(prefix: string)
    ensures ClosedPrefix(NormalPrefix(prefix))
    ensures NormalPrefix(prefix) == if ClosedPrefix(prefix) then prefix else prefix + "/"
    ensures Lexical(Split(NormalPrefix(prefix))) == Lexical(Split(prefix))
  {
    if NormalPrefix(prefix) != prefix {
      SplitJoined(prefix, "");
      assert prefix + "/" + "" == NormalPrefix(prefix);
      assert (Split(prefix) + [""])[..|Split(prefix)|] == Split(prefix);
    }
  }

  /**
   * Refused are exactly the keys that begin with a separator or have a piece with two dots in a row;
   * the others keep the prefix in front of them.
   */
  lemma {:induction false} RefusedKeys(prefix: string, key: string)
    ensures BuildKey(prefix, key).None? <==>
              || (key != "" && key[0] == '/')
              || exists k :: 0 <= k < |Split(key)| && TwoDots(Split(key)[k])
    ensures BuildKey(prefix, key).Some? ==> BuildKey(prefix, key).value == prefix + key
  {
    TwoDotsInPiece(key);
    hide TwoDots;
  }

  /** Whatever key is accepted, the stored name leads to the prefix or below it. */
  lemma {:induction false} NameStaysBelow(prefix: string, key: string)
    requires ClosedPrefix(prefix) && BuildKey(prefix, key).Some?
    ensures Lexical(Split(prefix)) <= Lexical(Split(BuildKey(prefix, key).value))
  {
    RefusedKeys(prefix, key);
    forall k | 0 <= k < |Split(key)|
      ensures Split(key)[k] != ".."
    {
      var dots := "..";
      assert dots[0] == '.' && dots[0 + 1] == '.';
      assert TwoDots(dots);
    }
    hide TwoDots, AllowedKey;
    if prefix == "" {
      assert Lexical(Split("")) == [] by { assert [""][..0] == []; }
    } else {
      var p := prefix[..|prefix| - 1];
      assert prefix == p + "/" + "" && prefix + key == p + "/" + key;
      SplitJoined(p, "");
      SplitJoined(p, key);
      assert (Split(p) + [""])[..|Split(p)|] == Split(p);
      LexicalBelow(Split(p), Split(key));
    }
  }

  /** Proxies whose prefixes are not one below the other never touch the same place. */
  lemma {:induction false} ProxiesAreApart(p: string, k: string, q: string, l: string)
    requires BuildKey(NormalPrefix(p), k).Some? && BuildKey(NormalPrefix(q), l).Some?
    requires !(Lexical(Split(p)) <= Lexical(Split(q))) && !(Lexical(Split(q)) <= Lexical(Split(p)))
    ensures Lexical(Split(BuildKey(NormalPrefix(p), k).value)) != Lexical(Split(BuildKey(NormalPrefix(q), l).value))
  {
    NormalPrefixCloses(p);
    NormalPrefixCloses(q);
    NameStaysBelow(NormalPrefix(p), k);
    NameStaysBelow(NormalPrefix(q), l);
  }

  //// Labels, additional data, paths of data keys

  function AadModeLabel(m: AadMode): string {
    match m
    case AadNone => "none"
    case AadKey => "key"
    case AadKeyAndVersion => "key+version"
  }

  /** The mode a stored label names; anything else falls back to the configured mode. */
  function AadModeOf(name: Option<string>, fallback: AadMode): AadMode {
    if name == Some("none") then AadNone
    else if name == Some("key") then AadKey
    else if name == Some("key+version") then AadKeyAndVersion
    else fallback
  }

  function BuildAad(key: string, version: string, m: AadMode): string {
    match m
    case AadNone => ""
    case AadKey => key
    case AadKeyAndVersion => version + ":" + key
  }

  function DekPath(key: string, version: string): string { "s3/" + version + "/" + key }

  function KeyVersion(c: Config): string { if c.Some? then c.value.keyVersion else "v1" }

  function ConfiguredAadMode(c: Config): AadMode { if c.Some? then c.value.aadMode else AadKey }

  predicate KmsEnabled(c: Config) { c.Some? && c.value.kms }

  predicate AcceptPlaintext(c: Config) { c.None? || c.value.acceptPlaintext }

  /** Deriving a key: empty and reserved paths are refused. */
  function Derive(c: Crypto, path: string): Option<seq<Byte>> {
    if Trim(path) == "" || RESERVED_PREFIX <= Trim(path) then None else Some(c.derive(path))
  }

  /** Refused are exactly the paths that are blank or, without white space around them, reserved. */
  lemma {:induction false} DeriveMeans(c: Crypto, path: string)
    ensures Trim(path) == "" || "wallet/eth/app/" <= Trim(path) <==> Derive(c, path).None?
    ensures Derive(c, path).Some? ==> Derive(c, path).value == c.derive(path)
  {
  }

  lemma {:induction false} TrimEndKeeps(s: string, n: nat)
    requires n <= |s| && forall i :: 0 <= i < n ==> !IsWhitespace(s[i])
    ensures s[..n] <= TrimEnd(s)
  {
    if s != "" && IsWhitespace(s[|s| - 1]) {
      TrimEndKeeps(s[..|s| - 1], n);
      assert s[..|s| - 1][..n] == s[..n];
    }
  }

  /** No object key or version can make the path of a data key empty or reserved. */
  lemma {:induction false} DekPathAllowed(c: Crypto, key: string, version: string)
    ensures Derive(c, DekPath(key, version)) == Some(c.derive(DekPath(key, version)))
  {
    var path := DekPath(key, version);
    assert path[0] == 's' && path[1] == '3' && path[2] == '/';
    TrimEndKeeps(path, 1);
    assert TrimStart(path) == path;
    assert TrimEnd(path)[0] == 's';
  }

  /**
   * Exactly when a text made of two parts around a separator can be read in two ways: the parts are
   * the same, or one first part continues the other across a separator.
   */
  lemma {:induction false} SplitsCoincide(v: string, k: string, w: string, l: string, sep: char)
    ensures v + [sep] + k == w + [sep] + l <==>
              || (v == w && k == l)
              || (v + [sep] < w + [sep] && k == (w + [sep])[|v| + 1..] + l)
              || (w + [sep] < v + [sep] && l == (v + [sep])[|w| + 1..] + k)
  {
    var a, b := v + [sep], w + [sep];
    if a + k == b + l { Overlap(a, k, b, l); Overlap(b, l, a, k); }
    if a < b { assert b == a + b[|a|..]; }
    if b < a { assert a == b + a[|b|..]; }
    if a == b { assert v == a[..|v|] && w == b[..|w|]; }
  }

  lemma {:induction false} Overlap(a: string, k: string, b: string, l: string)
    requires a + k == b + l
    ensures |a| <= |b| ==> a <= b && k == b[|a|..] + l
  {
    if |a| <= |b| {
      var s := a + k;
      assert s == b + l;
      assert a == s[..|a|] && b == s[..|b|] && k == s[|a|..];
      assert s[|a|..] == b[|a|..] + l;
    }
  }

  /** A first part that continues another one contains the separator. */
  lemma {:induction false} ContinuationHasSeparator(v: string, w: string, sep: char)
    requires v + [sep] < w + [sep]
    ensures sep in w
  {
    assert (w + [sep])[|v|] == (v + [sep])[|v|] == sep;
    assert |v| < |w| && w[|v|] == sep;
  }

  /** Exactly when two objects, each with its key version, share a data key. */
  lemma {:induction false} DekPathsCoincide(k: string, v: string, l: string, w: string)
    ensures DekPath(k, v) == DekPath(l, w) <==>
              || (v == w && k == l)
              || (v + "/" < w + "/" && k == (w + "/")[|v| + 1..] + l)
              || (w + "/" < v + "/" && l == (v + "/")[|w| + 1..] + k)
  {
    assert DekPath(k, v) == "s3/" + (v + ['/'] + k) && DekPath(l, w) == "s3/" + (w + ['/'] + l);
    assert DekPath(k, v)[3..] == v + ['/'] + k && DekPath(l, w)[3..] == w + ['/'] + l;
    SplitsCoincide(v, k, w, l, '/');
  }

  /** So they never do as long as versions contain no slash. */
  lemma {:induction false} DekPathDetermines(k: string, v: string, l: string, w: string)
    requires '/' !in v && '/' !in w
    ensures DekPath(k, v) == DekPath(l, w) <==> k == l && v == w
  {
    DekPathsCoincide(k, v, l, w);
    if v + "/" < w + "/" { ContinuationHasSeparator(v, w, '/'); }
    if w + "/" < v + "/" { ContinuationHasSeparator(w, v, '/'); }
  }

  /** And every version with a slash shares the data key of each of its objects with another object. */
  lemma {:induction false} SlashedVersionShares(v: string, rest: string, l: string)
    ensures DekPath(rest + "/" + l, v) == DekPath(l, v + "/" + rest)
  {
    var w := v + "/" + rest;
    assert v + "/" < w + "/" && (w + "/")[|v| + 1..] == rest + "/";
    assert rest + "/" + l == (w + "/")[|v| + 1..] + l;
    DekPathsCoincide(rest + "/" + l, v, l, w);
  }

  /** The additional data binds the object key, and exactly so far the version. */
  lemma {:induction false} AadDetermines(k: string, v: string, l: string, w: string, m: AadMode)
    ensures m.AadKey? ==> (BuildAad(k, v, m) == BuildAad(l, w, m) <==> k == l)
    ensures m.AadKeyAndVersion? ==>
              (BuildAad(k, v, m) == BuildAad(l, w, m) <==>
                 || (v == w && k == l)
                 || (v + ":" < w + ":" && k == (w + ":")[|v| + 1..] + l)
                 || (w + ":" < v + ":" && l == (v + ":")[|w| + 1..] + k))
    ensures m.AadKeyAndVersion? && ':' !in v && ':' !in w ==>
              (BuildAad(k, v, m) == BuildAad(l, w, m) <==> k == l && v == w)
  {
    SplitsCoincide(v, k, w, l, ':');
    if v + ":" < w + ":" { ContinuationHasSeparator(v, w, ':'); }
    if w + ":" < v + ":" { ContinuationHasSeparator(w, v, ':'); }
  }

  //// Sealing and opening

  function MetaFor(version: string, mode: AadMode, nonce: seq<Byte>, contentType: Option<string>): map<string, string> {
    var m := map[
      META_ENC_SCHEME := ENC_SCHEME_KMS_V1, META_NONCE := HexEncode(nonce),
      META_KEY_VERSION := version, META_AAD_MODE := AadModeLabel(mode)];
    if contentType.Some? then m[META_CONTENT_TYPE := contentType.value] else m
  }

  /** The object a put stores, or why it stores none. */
  function Sealed(
    c: Config, kms: Option<Crypto>, key: string, data: seq<Byte>, contentType: Option<string>, nonce: seq<Byte>)
    : Result<Object, StoreError>
  {
    if !KmsEnabled(c) then Ok(Object(data, map[], contentType))
    else if kms.None? then Err(KmsDetached)
    else match Derive(kms.value, DekPath(key, KeyVersion(c)))
      case None => Err(DeriveRefused)
      case Some(dek) =>
        if |dek| != 32 then Err(BadDekLength)
        else
          var aad := BuildAad(key, KeyVersion(c), ConfiguredAadMode(c));
          Ok(Object(kms.value.seal(dek, nonce, aad, data),
                    MetaFor(KeyVersion(c), ConfiguredAadMode(c), nonce, contentType), contentType))
  }

  function Lookup(m: map<string, string>, k: string): Option<string> { if k in m then Some(m[k]) else None }

  /** What a get makes of an object. */
  function Opened(c: Config, kms: Option<Crypto>, key: string, o: Object): Result<seq<Byte>, StoreError> {
    if Lookup(o.metadata, META_ENC_SCHEME) != Some(ENC_SCHEME_KMS_V1) then
      if KmsEnabled(c) && !AcceptPlaintext(c) then Err(PlaintextRefused) else Ok(o.body)
    else match Lookup(o.metadata, META_NONCE)
      case None => Err(MissingNonce)
      case Some(hex) =>
        match HexDecode(hex)
        case None => Err(BadNonce)
        case Some(nonce) => if |nonce| != 12 then Err(BadNonce) else OpenWith(c, kms, key, o, nonce)
  }

  function OpenWith(
    c: Config, kms: Option<Crypto>, key: string, o: Object, nonce: seq<Byte>): Result<seq<Byte>, StoreError>
  {
    var v := Lookup(o.metadata, META_KEY_VERSION);
    var version := if v.Some? then v.value else KeyVersion(c);
    var mode := AadModeOf(Lookup(o.metadata, META_AAD_MODE), ConfiguredAadMode(c));
    if kms.None? then Err(KmsDetached)
    else match Derive(kms.value, DekPath(key, version))
      case None => Err(DeriveRefused)
      case Some(dek) =>
        if |dek| != 32 then Err(BadDekLength)
        else match kms.value.open(dek, nonce, BuildAad(key, version, mode), o.body)
          case None => Err(OpenFailed)
          case Some(m) => Ok(m)
  }

  /** `o` is `v` sealed with this version, mode and nonce. */
  ghost predicate SealedWith(
    o: Object, key: string, v: Value, crypto: Crypto, version: string, mode: AadMode, nonce: seq<Byte>)
  {
    && |nonce| == 12
    && o == Object(
              crypto.seal(crypto.derive(DekPath(key, version)), nonce, BuildAad(key, version, mode), v.bytes),
              MetaFor(version, mode, nonce, v.contentType), v.contentType)
  }

  /** What a put stores: the value sealed under its configuration, or as it is. */
  ghost predicate StoredAs(o: Object, c: Config, key: string, v: Value, nonce: seq<Byte>, crypto: Crypto) {
    if KmsEnabled(c) then SealedWith(o, key, v, crypto, KeyVersion(c), ConfiguredAadMode(c), nonce)
    else o == Object(v.bytes, map[], v.contentType)
  }

  lemma {:induction false} SealedStores(
    c: Config, kms: Option<Crypto>, crypto: Crypto, key: string, v: Value, nonce: seq<Byte>)
    requires Ideal(crypto) && (kms.Some? ==> kms.value == crypto) && |nonce| == 12
    ensures var r := Sealed(c, kms, key, v.bytes, v.contentType, nonce);
            && (r.Err? <==> KmsEnabled(c) && kms.None?) && (r.Err? ==> r.error == KmsDetached)
            && (r.Ok? ==> StoredAs(r.value, c, key, v, nonce, crypto))
  {
    DekPathAllowed(crypto, key, KeyVersion(c));
  }

  /** Opening under any configuration gives back the bytes, whatever configuration stored them. */
  lemma {:induction false} OpenedWith(
    c: Config, kms: Option<Crypto>, crypto: Crypto, o: Object, key: string, v: Value,
    version: string, mode: AadMode, nonce: seq<Byte>)
    requires Ideal(crypto) && (kms.Some? ==> kms.value == crypto)
    requires SealedWith(o, key, v, crypto, version, mode, nonce)
    ensures Opened(c, kms, key, o) == if kms.None? then Err(KmsDetached) else Ok(v.bytes)
  {
    HexRoundTrip(nonce);
    DekPathAllowed(crypto, key, version);
    assert AadModeOf(Some(AadModeLabel(mode)), ConfiguredAadMode(c)) == mode;
    assert Lookup(o.metadata, META_ENC_SCHEME) == Some(ENC_SCHEME_KMS_V1);
    assert Lookup(o.metadata, META_NONCE) == Some(HexEncode(nonce));
    assert Lookup(o.metadata, META_KEY_VERSION) == Some(version);
    assert Lookup(o.metadata, META_AAD_MODE) == Some(AadModeLabel(mode));
  }

  //// What is written and read, in the terms of the settings

  ghost function AadFor(mode: AadMode, version: string, key: string): string {
    match mode
    case AadNone => ""
    case AadKey => key
    case AadKeyAndVersion => version + ":" + key
  }

  /** Under KMS mode the body is sealed and labelled with all that is needed to open it. */
  ghost predicate SealedUnder(
    o: Object, e: Encryption, crypto: Crypto, key: string, data: seq<Byte>, contentType: Option<string>,
    nonce: seq<Byte>)
  {
    && o.body == crypto.seal(
                   crypto.derive("s3/" + e.keyVersion + "/" + key), nonce, AadFor(e.aadMode, e.keyVersion, key), data)
    && Lookup(o.metadata, "capsule-api-enc") == Some("kms-v1")
    && Lookup(o.metadata, "capsule-api-nonce") == Some(HexEncode(nonce))
    && Lookup(o.metadata, "capsule-api-key-version") == Some(e.keyVersion)
    && Lookup(o.metadata, "capsule-api-aad-mode") ==
       Some(match e.aadMode case AadNone => "none" case AadKey => "key" case AadKeyAndVersion => "key+version")
    && Lookup(o.metadata, "capsule-api-content-type") == contentType
  }

  /** What a put writes under a setting: sealed exactly if the setting says so, otherwise as it is. */
  ghost predicate WrittenAs(
    o: Object, c: Config, kms: Option<Crypto>, key: string, data: seq<Byte>, contentType: Option<string>,
    nonce: seq<Byte>)
  {
    && o.contentType == contentType
    && if c.Some? && c.value.kms then kms.Some? && SealedUnder(o, c.value, kms.value, key, data, contentType, nonce)
       else o.body == data && o.metadata == map[]
  }

  lemma {:induction false} SealedMeans(
    c: Config, kms: Option<Crypto>, key: string, data: seq<Byte>, contentType: Option<string>, nonce: seq<Byte>)
    ensures var r := Sealed(c, kms, key, data, contentType, nonce);
            match r
            case Ok(o) =>
              && WrittenAs(o, c, kms, key, data, contentType, nonce)
              && (c.Some? && c.value.kms ==> |kms.value.derive("s3/" + c.value.keyVersion + "/" + key)| == 32)
            case Err(e) =>
              && c.Some? && c.value.kms
              && if kms.None? then e == KmsDetached
                 else e == BadDekLength && |kms.value.derive("s3/" + c.value.keyVersion + "/" + key)| != 32
  {
    if KmsEnabled(c) && kms.Some? {
      DekPathAllowed(kms.value, key, KeyVersion(c));
      assert "s3/" + KeyVersion(c) + "/" + key == DekPath(key, KeyVersion(c));
    }
  }

  /** Without the scheme label an object is taken as it is, unless the setting refuses plaintext. */
  lemma {:induction false} PlainRead(c: Config, kms: Option<Crypto>, key: string, o: Object)
    requires Lookup(o.metadata, "capsule-api-enc") != Some("kms-v1")
    ensures Opened(c, kms, key, o) ==
            if c.Some? && c.value.kms && !c.value.acceptPlaintext then Err(PlaintextRefused) else Ok(o.body)
  {
  }

  /** With it, what is missing among the other labels comes from the setting, or is "v1" and the key. */
  lemma {:induction false} SealedRead(c: Config, kms: Option<Crypto>, key: string, o: Object, m: seq<Byte>)
    requires Lookup(o.metadata, "capsule-api-enc") == Some("kms-v1")
    ensures var nonce := Lookup(o.metadata, "capsule-api-nonce");
            var version := Labelled(o, "capsule-api-key-version", if c.Some? then c.value.keyVersion else "v1");
            var name := Lookup(o.metadata, "capsule-api-aad-mode");
            var mode := if name == Some("none") then AadNone
                        else if name == Some("key") then AadKey
                        else if name == Some("key+version") then AadKeyAndVersion
                        else if c.Some? then c.value.aadMode else AadKey;
            var r := Opened(c, kms, key, o);
            && (nonce.None? ==> r == Err(MissingNonce))
            && (nonce.Some? && (HexDecode(nonce.value).None? || |HexDecode(nonce.value).value| != 12) ==>
                  r == Err(BadNonce))
            && (nonce.Some? && HexDecode(nonce.value).Some? && |HexDecode(nonce.value).value| == 12 ==>
                  && (kms.None? <==> r == Err(KmsDetached))
                  && (kms.Some? && |kms.value.derive("s3/" + version + "/" + key)| != 32 ==> r == Err(BadDekLength))
                  && (kms.Some? && |kms.value.derive("s3/" + version + "/" + key)| == 32 ==>
                        (r == Ok(m) <==>
                           kms.value.open(kms.value.derive("s3/" + version + "/" + key), HexDecode(nonce.value).value,
                                          AadFor(mode, version, key), o.body) == Some(m))))
  {
    var v := Lookup(o.metadata, META_KEY_VERSION);
    var version := if v.Some? then v.value else KeyVersion(c);
    assert "s3/" + version + "/" + key == DekPath(key, version);
    if kms.Some? { DekPathAllowed(kms.value, key, version); }
  }

  ghost function Labelled(o: Object, name: string, fallback: string): string {
    if name in o.metadata then o.metadata[name] else fallback
  }

  //// The proxy

  /**
   * What becomes of a request that changes the bucket: it is lost, it takes effect and is
   * acknowledged, or it takes effect although a failure is reported.
   */
  datatype Delivery = Lost | Unconfirmed | Confirmed

  class Bucket {
    var objects: map<string, Object>

    constructor ()
      ensures objects == map[]
    {
      objects := map[];
    }
  }

  lemma {:induction false} OpenedErrors(c: Config, kms: Option<Crypto>, key: string, o: Object)
    ensures Opened(c, kms, key, o).Err? ==> Opened(c, kms, key, o).error !in {InvalidKey, Network}
  {
  }

  class S3Proxy {
    const prefix: string
    const encryption: Config
    var kms: Option<Crypto>

    constructor (prefix: string, encryption: Config)
      ensures this.prefix == NormalPrefix(prefix) && this.encryption == encryption && kms.None?
      ensures ClosedPrefix(this.prefix)
    {
      NormalPrefixCloses(prefix);
      this.prefix := NormalPrefix(prefix);
      this.encryption := encryption;
      kms := None;
    }

    method AttachNovaKms(crypto: Crypto)
      modifies this
      ensures kms == Some(crypto)
    {
      kms := Some(crypto);
    }

    /**
     * Store a value; `nonce` is the random nonce. Keys that could climb are refused, so whatever is
     * written lies below the prefix; no other object changes.
     */
    method Put(
      bucket: Bucket, key: string, data: seq<Byte>, contentType: Option<string>, nonce: seq<Byte>, delivery: Delivery)
      returns (r: Option<StoreError>)
      modifies bucket
      ensures bucket.objects ==
              PutObjects(prefix, encryption, kms, old(bucket.objects), key, data, contentType, nonce, delivery)
      ensures r == Some(InvalidKey) <==> (key != "" && key[0] == '/') || TwoDots(key)
      ensures r == Some(KmsDetached) <==>
                r != Some(InvalidKey) && encryption.Some? && encryption.value.kms && kms.None?
      ensures r.None? ==>
                && delivery.Confirmed? && prefix + key in bucket.objects
                && WrittenAs(bucket.objects[prefix + key], encryption, kms, key, data, contentType, nonce)
      ensures bucket.objects != old(bucket.objects) ==>
                && prefix + key in bucket.objects
                && WrittenAs(bucket.objects[prefix + key], encryption, kms, key, data, contentType, nonce)
                && (ClosedPrefix(prefix) ==> Lexical(Split(prefix)) <= Lexical(Split(prefix + key)))
      ensures r.Some? && delivery.Confirmed? ==> r.value in {InvalidKey, KmsDetached, BadDekLength}
      ensures bucket.objects - {prefix + key} == old(bucket.objects) - {prefix + key}
    {
      SealedMeans(encryption, kms, key, data, contentType, nonce);
      if ClosedPrefix(prefix) && AllowedKey(key) { NameStaysBelow(prefix, key); }
      hide WrittenAs, Lexical;
      var full := BuildKey(prefix, key);
      if full.None? { return Some(InvalidKey); }
      hide MetaFor, Derive, DekPath, BuildAad, TwoDots;
      var body := data;
      var pairs: seq<(string, string)> := [];
      if KmsEnabled(encryption) {
        var sealed := Sealed(encryption, kms, key, data, contentType, nonce);
        if sealed.Err? { return Some(sealed.error); }
        body := sealed.value.body;
        pairs := EncryptionPairs(KeyVersion(encryption), ConfiguredAadMode(encryption), nonce, contentType);
      }
      var metadata := ToMetadata(pairs);
      if delivery.Lost? { return Some(Network); }
      bucket.objects := bucket.objects[full.value := Object(body, metadata, contentType)];
      r := if delivery.Confirmed? then None else Some(Network);
    }

    /**
     * Fetch and open; `reached` is whether the bucket answered, `untyped` the type it gives an object
     * put without one.
     */
    method Get(bucket: Bucket, key: string, reached: bool, untyped: Option<string>) returns (r: Got)
      ensures r == if AllowedKey(key) && !reached then Failed(Network)
                   else GetValue(prefix, encryption, kms, bucket.objects, key, untyped)
      ensures r == Failed(InvalidKey) <==> (key != "" && key[0] == '/') || TwoDots(key)
      ensures r == NotFound <==> r != Failed(InvalidKey) && reached && prefix + key !in bucket.objects
      ensures r.Found? ==>
                && prefix + key in bucket.objects
                && Opened(encryption, kms, key, bucket.objects[prefix + key]) == Ok(r.value.bytes)
    {
      hide TwoDots;
      OpenedErrors(encryption, kms, key, if prefix + key in bucket.objects then bucket.objects[prefix + key]
                                         else Object([], map[], None));
      var full := BuildKey(prefix, key);
      if full.None? { return Failed(InvalidKey); }
      if !reached { return Failed(Network); }
      if full.value !in bucket.objects { return NotFound; }
      var o := bucket.objects[full.value];
      var contentType := if o.contentType.Some? then o.contentType else untyped;
      var plaintext := Opened(encryption, kms, key, o);
      if plaintext.Err? { return Failed(plaintext.error); }
      if contentType.None? { contentType := Lookup(o.metadata, META_CONTENT_TYPE); }
      r := Found(Value(plaintext.value, contentType));
    }

    method Delete(bucket: Bucket, key: string, delivery: Delivery) returns (r: Option<StoreError>)
      modifies bucket
      ensures bucket.objects == DeleteObjects(prefix, old(bucket.objects), key, delivery)
      ensures r == Some(InvalidKey) <==> (key != "" && key[0] == '/') || TwoDots(key)
      ensures r.None? <==> delivery.Confirmed? && r != Some(InvalidKey)
      ensures bucket.objects == if r == Some(InvalidKey) || delivery.Lost? then old(bucket.objects)
                                else old(bucket.objects) - {prefix + key}
    {
      hide TwoDots;
      var full := BuildKey(prefix, key);
      if full.None? { return Some(InvalidKey); }
      if delivery.Lost? { return Some(Network); }
      bucket.objects := bucket.objects - {full.value};
      r := if delivery.Confirmed? then None else Some(Network);
    }
  }

  method EncryptionPairs(version: string, mode: AadMode, nonce: seq<Byte>, contentType: Option<string>)
    returns (pairs: seq<(string, string)>)
    ensures PairsMap(pairs) == MetaFor(version, mode, nonce, contentType)
  {
    pairs := [(META_ENC_SCHEME, ENC_SCHEME_KMS_V1)];
    pairs := pairs + [(META_NONCE, HexEncode(nonce))];
    pairs := pairs + [(META_KEY_VERSION, version)];
    pairs := pairs + [(META_AAD_MODE, AadModeLabel(mode))];
    if contentType.Some? {
      pairs := pairs + [(META_CONTENT_TYPE, contentType.value)];
    }
    PairsAreMeta(version, mode, nonce, contentType, pairs);
  }

  function PairsMap(pairs: seq<(string, string)>): map<string, string> {
    if pairs == [] then map[] else PairsMap(pairs[..|pairs| - 1])[pairs[|pairs| - 1].0 := pairs[|pairs| - 1].1]
  }

  method ToMetadata(pairs: seq<(string, string)>) returns (m: map<string, string>)
    ensures m == PairsMap(pairs)
  {
    m := map[];
    var i := 0;
    while i < |pairs|
      invariant 0 <= i <= |pairs| && m == PairsMap(pairs[..i])
    {
      assert pairs[..i + 1][..i] == pairs[..i];
      m := m[pairs[i].0 := pairs[i].1];
      i := i + 1;
    }
    assert pairs[..i] == pairs;
  }

  lemma {:induction false} PairsSnoc(pairs: seq<(string, string)>, k: string, v: string)
    ensures PairsMap(pairs + [(k, v)]) == PairsMap(pairs)[k := v]
  {
    assert (pairs + [(k, v)])[..|pairs|] == pairs;
  }

  lemma {:induction false} PairsAreMeta(
    version: string, mode: AadMode, nonce: seq<Byte>, contentType: Option<string>, pairs: seq<(string, string)>)
    requires pairs == [(META_ENC_SCHEME, ENC_SCHEME_KMS_V1), (META_NONCE, HexEncode(nonce)),
                       (META_KEY_VERSION, version), (META_AAD_MODE, AadModeLabel(mode))]
                      + (if contentType.Some? then [(META_CONTENT_TYPE, contentType.value)] else [])
    ensures PairsMap(pairs) == MetaFor(version, mode, nonce, contentType)
  {
    var p0: seq<(string, string)> := [];
    PairsSnoc(p0, META_ENC_SCHEME, ENC_SCHEME_KMS_V1);
    var p1 := p0 + [(META_ENC_SCHEME, ENC_SCHEME_KMS_V1)];
    PairsSnoc(p1, META_NONCE, HexEncode(nonce));
    var p2 := p1 + [(META_NONCE, HexEncode(nonce))];
    PairsSnoc(p2, META_KEY_VERSION, version);
    var p3 := p2 + [(META_KEY_VERSION, version)];
    PairsSnoc(p3, META_AAD_MODE, AadModeLabel(mode));
    var p4 := p3 + [(META_AAD_MODE, AadModeLabel(mode))];
    if contentType.Some? {
      PairsSnoc(p4, META_CONTENT_TYPE, contentType.value);
      assert pairs == p4 + [(META_CONTENT_TYPE, contentType.value)];
    } else {
      assert pairs == p4;
    }
  }

  function PutObjects(
    prefix: string, c: Config, kms: Option<Crypto>, objects: map<string, Object>, key: string, data: seq<Byte>,
    contentType: Option<string>, nonce: seq<Byte>, delivery: Delivery): map<string, Object>
  {
    var r := Sealed(c, kms, key, data, contentType, nonce);
    if !delivery.Lost? && AllowedKey(key) && r.Ok? then objects[prefix + key := r.value] else objects
  }

  function DeleteObjects(
    prefix: string, objects: map<string, Object>, key: string, delivery: Delivery): map<string, Object>
  {
    if !delivery.Lost? && AllowedKey(key) then objects - {prefix + key} else objects
  }

  function GetValue(
    prefix: string, c: Config, kms: Option<Crypto>, objects: map<string, Object>, key: string, untyped: Option<string>)
    : Got
  {
    if !AllowedKey(key) then Failed(InvalidKey)
    else if prefix + key !in objects then NotFound
    else
      var o := objects[prefix + key];
      match Opened(c, kms, key, o)
      case Err(e) => Failed(e)
      case Ok(m) => Found(Value(m, TypeOf(o, untyped)))
  }

  function TypeOf(o: Object, untyped: Option<string>): Option<string> {
    if o.contentType.Some? then o.contentType
    else if untyped.Some? then untyped
    else Lookup(o.metadata, META_CONTENT_TYPE)
  }

  //// Histories

  /** An operation, with the configuration and KMS attachment in force when it ran. */
  datatype Op =
    | Put(config: Config, attached: bool, key: string, value: Value, nonce: seq<Byte>, delivery: Delivery)
    | Delete(key: string, delivery: Delivery)

  ghost predicate WellFormed(op: Op) { op.Put? ==> |op.nonce| == 12 }

  function Kms(crypto: Crypto, attached: bool): Option<Crypto> { if attached then Some(crypto) else None }

  /** The bucket after a history. */
  function Objects(prefix: string, crypto: Crypto, ops: seq<Op>): map<string, Object> {
    if ops == [] then map[]
    else
      var before := Objects(prefix, crypto, ops[..|ops| - 1]);
      match ops[|ops| - 1]
      case Put(config, attached, key, v, nonce, delivery) =>
        PutObjects(prefix, config, Kms(crypto, attached), before, key, v.bytes, v.contentType, nonce, delivery)
      case Delete(key, delivery) => DeleteObjects(prefix, before, key, delivery)
  }

  /** The operation changes what is under `key`, whether or not it reports success. */
  predicate Touches(op: Op, key: string) {
    op.key == key && AllowedKey(key) && !op.delivery.Lost? && (op.Put? && KmsEnabled(op.config) ==> op.attached)
  }

  /** The put was made in KMS mode. */
  predicate Seals(op: Op)
    requires op.Put?
  {
    op.config.Some? && op.config.value.kms
  }

  /** The last operation that took effect on a key. */
  function LastOp(ops: seq<Op>, key: string): Option<Op> {
    if ops == [] then None
    else if Touches(ops[|ops| - 1], key) then Some(ops[|ops| - 1])
    else LastOp(ops[..|ops| - 1], key)
  }

  ghost predicate LastToTouch(ops: seq<Op>, key: string, i: int) {
    0 <= i < |ops| && Touches(ops[i], key) && forall j :: i < j < |ops| ==> !Touches(ops[j], key)
  }

  lemma {:induction false} LastOpIsLast(ops: seq<Op>, key: string, i: int)
    requires LastToTouch(ops, key, i)
    ensures LastOp(ops, key) == Some(ops[i])
  {
    var n := |ops| - 1;
    if i < n { LastOpIsLast(ops[..n], key, i); }
  }

  lemma {:induction false} PrefixInjective(prefix: string, a: string, b: string)
    ensures prefix + a == prefix + b <==> a == b
  {
    assert (prefix + a)[|prefix|..] == a && (prefix + b)[|prefix|..] == b;
  }

  /** A key holds an object exactly when the last effective operation put it, and the object stands for it. */
  lemma {:induction false} HoldsLastPut(prefix: string, crypto: Crypto, ops: seq<Op>, key: string)
    requires Ideal(crypto) && forall i :: 0 <= i < |ops| ==> WellFormed(ops[i])
    ensures var objects, last := Objects(prefix, crypto, ops), LastOp(ops, key);
            && (prefix + key in objects <==> last.Some? && last.value.Put?)
            && (prefix + key in objects ==>
                  StoredAs(objects[prefix + key], last.value.config, key, last.value.value, last.value.nonce, crypto))
  {
    if ops != [] {
      var op := ops[|ops| - 1];
      HoldsLastPut(prefix, crypto, ops[..|ops| - 1], key);
      PrefixInjective(prefix, key, op.key);
      if op.Put? {
        SealedStores(op.config, Kms(crypto, op.attached), crypto, op.key, op.value, op.nonce);
      }
      hide StoredAs, Ideal, Sealed;
    }
  }

  /**
   * After any history of puts and deletes, each under its own configuration and some reported as
   * failed although they took effect, a get under any configuration: not-found unless the last
   * operation to take effect was a put; refused exactly if that put sealed and the KMS is detached
   * now, or if it did not seal and plaintext is not accepted now; otherwise exactly its value.
   */
  lemma {:induction false} GetReturnsLastPut(
    prefix: string, crypto: Crypto, ops: seq<Op>, c: Config, attached: bool, key: string, untyped: Option<string>)
    requires Ideal(crypto) && forall i :: 0 <= i < |ops| ==> WellFormed(ops[i])
    ensures var got := GetValue(prefix, c, Kms(crypto, attached), Objects(prefix, crypto, ops), key, untyped);
            var last := LastOp(ops, key);
            got == if !AllowedKey(key) then Failed(InvalidKey)
                   else if last.None? || last.value.Delete? then NotFound
                   else if Seals(last.value) && !attached then Failed(KmsDetached)
                   else if !Seals(last.value) && c.Some? && c.value.kms && !c.value.acceptPlaintext then
                     Failed(PlaintextRefused)
                   else Found(Typed(last.value.value, untyped))
  {
    HoldsLastPut(prefix, crypto, ops, key);
    var objects, last := Objects(prefix, crypto, ops), LastOp(ops, key);
    if prefix + key in objects && AllowedKey(key) {
      var op := last.value;
      GetOfStored(prefix, c, Kms(crypto, attached), crypto, objects, op.config, key, op.value, op.nonce, untyped);
    }
  }

  /** The value as a get shows it: with its own content type, or the one the bucket gives to untyped objects. */
  function Typed(v: Value, untyped: Option<string>): Value {
    if v.contentType.Some? then v else v.(contentType := untyped)
  }

  /**
   * What a caller knows: a put that took effect, so in any case one that was acknowledged, is what a
   * get returns as long as no other operation on that key takes effect.
   */
  lemma {:induction false} EffectivePutIsKept(
    prefix: string, crypto: Crypto, ops: seq<Op>, i: nat, c: Config, untyped: Option<string>)
    requires Ideal(crypto) && forall j :: 0 <= j < |ops| ==> WellFormed(ops[j])
    requires i < |ops| && ops[i].Put? && LastToTouch(ops, ops[i].key, i)
    requires KmsEnabled(c) ==> AcceptPlaintext(c)
    ensures GetValue(prefix, c, Some(crypto), Objects(prefix, crypto, ops), ops[i].key, untyped)
            == Found(Typed(ops[i].value, untyped))
  {
    LastOpIsLast(ops, ops[i].key, i);
    GetReturnsLastPut(prefix, crypto, ops, c, true, ops[i].key, untyped);
  }

  lemma {:induction false} GetOfStored(
    prefix: string, c: Config, kms: Option<Crypto>, crypto: Crypto, objects: map<string, Object>, put: Config,
    key: string, v: Value, nonce: seq<Byte>, untyped: Option<string>)
    requires Ideal(crypto) && (kms.Some? ==> kms.value == crypto)
    requires prefix + key in objects && StoredAs(objects[prefix + key], put, key, v, nonce, crypto) && AllowedKey(key)
    ensures GetValue(prefix, c, kms, objects, key, untyped) ==
            if KmsEnabled(put) && kms.None? then Failed(KmsDetached)
            else if !KmsEnabled(put) && KmsEnabled(c) && !AcceptPlaintext(c) then Failed(PlaintextRefused)
            else Found(Typed(v, untyped))
  {
    var o := objects[prefix + key];
    if KmsEnabled(put) {
      OpenedWith(c, kms, crypto, o, key, v, KeyVersion(put), ConfiguredAadMode(put), nonce);
      assert v.contentType.None? ==> META_CONTENT_TYPE !in o.metadata;
    }
  }
}
