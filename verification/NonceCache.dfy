/** The replay cache of the decryption endpoint, and the collection of seed bytes for its keys. */
module NonceCache {
  import opened Bytes

  const CAPACITY: nat := 4096
  const NONCE_LEN: nat := 12
  const LEGACY_NONCE_LEN: nat := 32

  type Fingerprint = seq<Byte>

  /** The last `n` elements, or all of them. */
  function Last<T>(s: seq<T>, n: nat): seq<T> { if |s| <= n then s else s[|s| - n..] }

  class NonceReplayCache {
    const capacity: nat
    var order: seq<Fingerprint>
    var seen: set<Fingerprint>
    /** Everything accepted so far. */
    ghost var accepted: seq<Fingerprint>

    ghost predicate Valid()
      reads this
    {
      && order == Last(accepted, capacity) && Distinct(order)
      && forall f :: f in seen <==> f in order
    }

    constructor (capacity: nat)
      ensures Valid() && this.capacity == capacity && accepted == []
    {
      this.capacity := capacity;
      order, seen, accepted := [], {}, [];
    }

    /** Accept a fingerprint unless it is among the last `capacity` accepted ones. */
    method InsertIfNew(f: Fingerprint) returns (fresh_: bool)
      requires Valid()
      modifies this
      ensures Valid()
      ensures fresh_ <==> f !in Last(old(accepted), capacity)
      ensures accepted == if fresh_ then old(accepted) + [f] else old(accepted)
    {
      if f in seen { return false; }
      seen := seen + {f};
      order := order + [f];
      accepted := accepted + [f];
      ghost var full := order;
      ghost var k := 0;
      while |order| > capacity
        invariant 0 <= k <= |full| && order == full[k..] && Distinct(order)
        invariant (|order| >= capacity || k == 0) && accepted == old(accepted) + [f]
        invariant forall g :: g in seen <==> g in order
      {
        var oldest := order[0];
        assert forall g :: g in order <==> g == oldest || g in order[1..];
        assert full[k..][1..] == full[k + 1..];
        order := order[1..];
        seen := seen - {oldest};
        k := k + 1;
      }
      LastSnoc(old(accepted), f, capacity, k);
      fresh_ := true;
    }
  }

  /** Trimming the last `n` plus one more element from the front gives the last `n` again. */
  lemma {:induction false} LastSnoc(s: seq<Fingerprint>, f: Fingerprint, n: nat, k: nat)
    requires k <= |Last(s, n)| + 1
    requires var t := (Last(s, n) + [f])[k..]; |t| <= n && (|t| >= n || k == 0)
    ensures (Last(s, n) + [f])[k..] == Last(s + [f], n)
  {
  }

  //// Histories

  /** What a cache of this capacity accepts out of a list of requests. */
  function Accepted(fs: seq<Fingerprint>, capacity: nat): seq<Fingerprint> {
    if fs == [] then []
    else
      var before := Accepted(fs[..|fs| - 1], capacity);
      var f := fs[|fs| - 1];
      if f in Last(before, capacity) then before else before + [f]
  }

  /** The cache object, driven through any list of requests, accepts exactly those. */
  method RegisterAll(cache: NonceReplayCache, fs: seq<Fingerprint>)
    requires cache.Valid() && cache.accepted == []
    modifies cache
    ensures cache.Valid() && cache.accepted == Accepted(fs, cache.capacity)
  {
    var i := 0;
    while i < |fs|
      invariant 0 <= i <= |fs| && cache.Valid() && cache.accepted == Accepted(fs[..i], cache.capacity)
    {
      assert fs[..i + 1][..i] == fs[..i];
      var _ := cache.InsertIfNew(fs[i]);
      i := i + 1;
    }
    assert fs[..i] == fs;
  }

  /** Over every history, the same fingerprint is accepted twice only `capacity` acceptances apart. */
  lemma {:induction false} RepeatsAreFarApart(fs: seq<Fingerprint>, capacity: nat, i: nat, j: nat)
    requires i < j < |Accepted(fs, capacity)| && Accepted(fs, capacity)[i] == Accepted(fs, capacity)[j]
    ensures j - i > capacity
  {
    var before := Accepted(fs[..|fs| - 1], capacity);
    if j < |before| {
      RepeatsAreFarApart(fs[..|fs| - 1], capacity, i, j);
    } else {
      var f := fs[|fs| - 1];
      assert j == |before| && before[i] == f && f !in Last(before, capacity);
    }
  }

  /** The window of the service's cache: the 4096 latest acceptances, or all if there are fewer. */
  lemma {:induction false} WindowIs(accepted: seq<Fingerprint>, f: Fingerprint)
    ensures f in Last(accepted, CAPACITY) <==>
              exists i :: 0 <= i < |accepted| && i >= |accepted| - 4096 && accepted[i] == f
  {
    var w := Last(accepted, CAPACITY);
    var k := |accepted| - |w|;
    assert forall i :: 0 <= i < |w| ==> w[i] == accepted[k + i];
    if i :| 0 <= i < |accepted| && i >= |accepted| - 4096 && accepted[i] == f { assert w[i - k] == f; }
  }

  //// Nonces

  function NormalizeNonce(raw: seq<Byte>): Option<(seq<Byte>, bool)> {
    if |raw| == NONCE_LEN then Some((raw, false))
    else if |raw| == LEGACY_NONCE_LEN then Some((raw[..NONCE_LEN], true))
    else None
  }

  /** Accepted are nonces of twelve bytes, and of the older thirty-two, of which twelve count. */
  lemma {:induction false} NonceMeans(raw: seq<Byte>)
    ensures NormalizeNonce(raw).Some? <==> |raw| == 12 || |raw| == 32
    ensures NormalizeNonce(raw).Some? ==>
              NormalizeNonce(raw).value.0 == raw[..12] && (NormalizeNonce(raw).value.1 <==> |raw| == 32)
  {
  }

  /** The key, as the text the client sent, and the normalised nonce, hashed together. */
  function FingerprintOf(hash: seq<Byte> -> Fingerprint, key: seq<Byte>, raw: seq<Byte>): Option<Fingerprint> {
    match NormalizeNonce(raw)
    case None => None
    case Some(n) => Some(hash(key + n.0))
  }

  /** The fingerprint is the hash of the key text followed by the twelve bytes that count. */
  lemma {:induction false} FingerprintMeans(hash: seq<Byte> -> Fingerprint, key: seq<Byte>, raw: seq<Byte>)
    ensures FingerprintOf(hash, key, raw) ==
            if |raw| == 12 || |raw| == 32 then Some(hash(key + raw[..12])) else None
  {
    assert |raw| == 12 ==> raw[..12] == raw;
  }

  /** So, but for collisions of the hash, key texts of one length never get in each other's way. */
  lemma {:induction false} FingerprintsApart(
    hash: seq<Byte> -> Fingerprint, k: seq<Byte>, a: seq<Byte>, l: seq<Byte>, b: seq<Byte>)
    requires forall x, y :: hash(x) == hash(y) ==> x == y
    requires |k| == |l| && FingerprintOf(hash, k, a).Some? && FingerprintOf(hash, k, a) == FingerprintOf(hash, l, b)
    ensures k == l && a[..12] == b[..12]
  {
    FingerprintMeans(hash, k, a);
    FingerprintMeans(hash, l, b);
    assert hash(k + a[..12]) == hash(l + b[..12]);
    assert (k + a[..12])[..|k|] == k && (l + b[..12])[..|l|] == l;
    assert (k + a[..12])[|k|..] == a[..12] && (l + b[..12])[|l|..] == b[..12];
  }

  /**
   * Two requests with the same key text whose nonces agree in the first twelve bytes, legacy or not,
   * share a fingerprint; so if both are accepted, at least 4096 other acceptances lie between them.
   */
  lemma {:induction false} ReusedNonceIsRejected(
    hash: seq<Byte> -> Fingerprint, fs: seq<Fingerprint>, key: seq<Byte>, a: seq<Byte>, b: seq<Byte>, i: nat, j: nat)
    requires NormalizeNonce(a).Some? && NormalizeNonce(b).Some? && a[..NONCE_LEN] == b[..NONCE_LEN]
    requires i < j < |Accepted(fs, CAPACITY)|
    requires Some(Accepted(fs, CAPACITY)[i]) == FingerprintOf(hash, key, a)
    requires Some(Accepted(fs, CAPACITY)[j]) == FingerprintOf(hash, key, b)
    ensures FingerprintOf(hash, key, a) == FingerprintOf(hash, key, b)
    ensures j - i - 1 >= 4096
  {
    assert |a| == NONCE_LEN ==> a[..NONCE_LEN] == a;
    assert |b| == NONCE_LEN ==> b[..NONCE_LEN] == b;
    RepeatsAreFarApart(fs, CAPACITY, i, j);
  }

  //// Random bytes

  const MAX_EMPTY_CHUNKS: nat := 128

  /** A chunk from the hardware source, or its failure. */
  type Chunk = Option<seq<Byte>>

  /** The bytes of the first `n` draws. */
  ghost function Drawn(source: nat -> Chunk, n: nat): seq<Byte> {
    if n == 0 then []
    else Drawn(source, n - 1) + (if source(n - 1).Some? then source(n - 1).value else [])
  }

  /** None of the first `n` draws failed. */
  ghost predicate AllAnswered(source: nat -> Chunk, n: nat) { forall i :: 0 <= i < n ==> source(i).Some? }

  /** The `m` draws before the n-th were all empty. */
  ghost predicate EmptyRun(source: nat -> Chunk, n: nat, m: nat) {
    m <= n && forall i :: n - m <= i < n ==> source(i) == Some([])
  }

  /**
   * Collect `len` bytes: exactly the first `len` bytes the source delivers, with no draw more than
   * that takes. Failure means exactly that before that the source failed for the first time, or gave
   * nothing 128 times in a row for the first time.
   */
  method CollectRandomBytes(len: nat, source: nat -> Chunk) returns (r: Option<seq<Byte>>, draws: nat)
    ensures r.Some? ==> |r.value| == len && r.value <= Drawn(source, draws)
    ensures r.Some? ==>
              AllAnswered(source, draws) && forall n :: 0 <= n <= draws ==> !EmptyRun(source, n, 128)
    ensures draws > 0 ==> |Drawn(source, draws - 1)| < len
    ensures r.None? ==> draws > 0 && (source(draws - 1).None? || EmptyRun(source, draws, 128))
    ensures r.None? ==> |Drawn(source, draws)| < len && AllAnswered(source, draws - 1)
    ensures r.None? ==> forall n :: 0 <= n < draws ==> !EmptyRun(source, n, 128)
  {
    var buf: seq<Byte> := [];
    var empty := 0;
    draws := 0;
    while |buf| < len
      invariant |buf| <= len && buf <= Drawn(source, draws)
      invariant |buf| < len ==> buf == Drawn(source, draws)
      invariant AllAnswered(source, draws) && (draws > 0 ==> |Drawn(source, draws - 1)| < len)
      invariant empty < MAX_EMPTY_CHUNKS && EmptyRun(source, draws, empty)
      invariant empty < draws ==> source(draws - 1 - empty) != Some([])
      invariant forall n :: 0 <= n <= draws ==> !EmptyRun(source, n, MAX_EMPTY_CHUNKS)
      decreases len - |buf|, MAX_EMPTY_CHUNKS - empty
    {
      var chunk := source(draws);
      draws := draws + 1;
      if chunk.None? { return None, draws; }
      if chunk.value == [] {
        empty := empty + 1;
        assert Drawn(source, draws) == buf;
        if empty >= MAX_EMPTY_CHUNKS { return None, draws; }
      } else {
        empty := 0;
        var remaining := len - |buf|;
        assert buf + chunk.value == Drawn(source, draws);
        buf := buf + if |chunk.value| >= remaining then chunk.value[..remaining] else chunk.value;
      }
    }
    r := Some(buf);
  }
}
