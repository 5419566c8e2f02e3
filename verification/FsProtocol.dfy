/**
 * The hostfs wire format: each message is a 32-bit little-endian length followed by that many bytes.
 * The text inside a frame is an abstract lossless codec.
 */
module FsProtocol {
  import opened Bytes

  const MAX_MSG_LEN: nat := 8 * 1024 * 1024

  datatype Codec<!M> = Codec(encode: M -> seq<Byte>, decode: seq<Byte> -> Option<M>)

  ghost predicate Lossless<M(!new)>(c: Codec<M>) {
    forall m :: c.decode(c.encode(m)) == Some(m)
  }

  datatype RecvError = UnexpectedEof | TooLarge | BadMessage

  //// Frames

  function ToLE32(n: nat): (s: seq<Byte>)
    requires n < 0x1_0000_0000
    ensures |s| == 4 && s[0] == n % 256 && s[3] == n / 0x100_0000
  {
    [n % 256, n / 256 % 256, n / 0x1_0000 % 256, n / 0x100_0000]
  }

  function FromLE32(s: seq<Byte>): nat
    requires |s| == 4
  {
    var a: nat, b: nat, c: nat, d: nat := s[0], s[1], s[2], s[3];
    a + b * 256 + c * 0x1_0000 + d * 0x100_0000
  }

  lemma {:induction false} LE32RoundTrip(n: nat)
    requires n < 0x1_0000_0000
    ensures FromLE32(ToLE32(n)) == n
  {
    var a, b, c := n % 256, n / 256 % 256, n / 0x1_0000 % 256;
    assert n / 256 == n / 0x1_0000 * 256 + b;
    assert n / 0x1_0000 == n / 0x100_0000 * 256 + c;
  }

  predicate Sendable<M>(c: Codec<M>, m: M) { |c.encode(m)| <= MAX_MSG_LEN }

  function Frame<M>(c: Codec<M>, m: M): (f: seq<Byte>)
    requires Sendable(c, m)
    ensures |f| == 4 + |c.encode(m)|
  {
    ToLE32(|c.encode(m)|) + c.encode(m)
  }

  /** One message from the front of the stream, and what follows it. */
  function Receive<M>(c: Codec<M>, b: seq<Byte>): (r: Result<(M, seq<Byte>), RecvError>)
    ensures r.Ok? ==> |r.value.1| < |b|
  {
    if |b| < 4 then Err(UnexpectedEof)
    else
      var len := FromLE32(b[..4]);
      if len > MAX_MSG_LEN then Err(TooLarge)
      else if |b| < 4 + len then Err(UnexpectedEof)
      else match c.decode(b[4..4 + len])
        case None => Err(BadMessage)
        case Some(m) => Ok((m, b[4 + len..]))
  }

  lemma {:induction false} ReceiveFrame<M(!new)>(c: Codec<M>, m: M, rest: seq<Byte>)
    requires Lossless(c) && Sendable(c, m)
    ensures Receive(c, Frame(c, m) + rest) == Ok((m, rest))
  {
    var p := c.encode(m);
    var b := Frame(c, m) + rest;
    LE32RoundTrip(|p|);
    assert b[..4] == ToLE32(|p|);
    assert b[4..4 + |p|] == p;
    assert b[4 + |p|..] == rest;
  }

  /** A frame cut short is an unexpected end of the stream, wherever it is cut. */
  lemma {:induction false} ReceiveTruncated<M(!new)>(c: Codec<M>, m: M, b: seq<Byte>)
    requires Sendable(c, m) && b < Frame(c, m)
    ensures Receive(c, b) == Err(UnexpectedEof)
  {
    if |b| >= 4 {
      LE32RoundTrip(|c.encode(m)|);
      assert b[..4] == Frame(c, m)[..4] == ToLE32(|c.encode(m)|);
    }
  }

  //// Streams of messages

  class ByteStream {
    var bytes: seq<Byte>

    constructor (bytes: seq<Byte>)
      ensures this.bytes == bytes
    {
      this.bytes := bytes;
    }
  }

  /** Write one frame; a message over the limit is refused before anything is written. */
  method SendMsg<M>(w: ByteStream, c: Codec<M>, m: M) returns (ok: bool)
    modifies w
    ensures ok <==> Sendable(c, m)
    ensures ok <==> |c.encode(m)| <= 8_388_608
    ensures w.bytes == if ok then old(w.bytes) + Frame(c, m) else old(w.bytes)
  {
    var payload := c.encode(m);
    if |payload| > MAX_MSG_LEN { return false; }
    w.bytes := w.bytes + ToLE32(|payload|);
    w.bytes := w.bytes + payload;
    ok := true;
    assert old(w.bytes) + ToLE32(|payload|) + payload == old(w.bytes) + Frame(c, m);
  }

  /** Read one frame; whatever a failing read consumed is of no further use. */
  method RecvMsg<M>(r: ByteStream, c: Codec<M>) returns (res: Result<M, RecvError>)
    modifies r
    ensures var spec := Receive(c, old(r.bytes));
            if spec.Ok? then res == Ok(spec.value.0) && r.bytes == spec.value.1 else res == Err(spec.error)
  {
    if |r.bytes| < 4 {
      r.bytes := [];
      return Err(UnexpectedEof);
    }
    var len := FromLE32(r.bytes[..4]);
    if len > MAX_MSG_LEN {
      r.bytes := r.bytes[4..];
      return Err(TooLarge);
    }
    if |r.bytes| < 4 + len {
      r.bytes := [];
      return Err(UnexpectedEof);
    }
    var m := c.decode(r.bytes[4..4 + len]);
    r.bytes := r.bytes[4 + len..];
    res := if m.Some? then Ok(m.value) else Err(BadMessage);
  }

  predicate AllSendable<M>(c: Codec<M>, ms: seq<M>) {
    forall i :: 0 <= i < |ms| ==> Sendable(c, ms[i])
  }

  function Frames<M>(c: Codec<M>, ms: seq<M>): seq<Byte>
    requires AllSendable(c, ms)
  {
    if ms == [] then [] else Frame(c, ms[0]) + Frames(c, ms[1..])
  }

  /** Receive until something stops it. */
  function ReceiveAll<M>(c: Codec<M>, b: seq<Byte>): (seq<M>, RecvError)
    decreases |b|
  {
    match Receive(c, b)
    case Err(e) => ([], e)
    case Ok(r) =>
      var rest := ReceiveAll(c, r.1);
      ([r.0] + rest.0, rest.1)
  }

  /** Cutting a stream of frames after `k` bytes leaves exactly the first `n` frames complete. */
  ghost predicate CutAfter<M>(c: Codec<M>, ms: seq<M>, k: nat, n: nat)
    requires AllSendable(c, ms)
  {
    n <= |ms| && |Frames(c, ms[..n])| <= k && (n < |ms| ==> k < |Frames(c, ms[..n + 1])|)
  }

  /**
   * Any list of messages within the limit decodes to itself; a stream cut at any byte decodes to the
   * messages that were complete and then stops with an unexpected end.
   */
  lemma {:induction false} TruncatedStream<M(!new)>(c: Codec<M>, ms: seq<M>, k: nat) returns (n: nat)
    requires Lossless(c) && AllSendable(c, ms) && k <= |Frames(c, ms)|
    ensures CutAfter(c, ms, k, n)
    ensures ReceiveAll(c, Frames(c, ms)[..k]) == (ms[..n], UnexpectedEof)
    ensures k == |Frames(c, ms)| ==> n == |ms|
    decreases |ms|
  {
    if ms == [] {
      n := 0;
    } else {
      var first := Frame(c, ms[0]);
      var all, rest := Frames(c, ms), Frames(c, ms[1..]);
      assert all == first + rest;
      hide Receive, Frame, Sendable;
      if k < |first| {
        n := 0;
        assert all[..k] == first[..k];
        ReceiveTruncated(c, ms[0], all[..k]);
        assert Frames(c, ms[..1]) == first + Frames(c, ms[..1][1..]);
      } else {
        var m := TruncatedStream(c, ms[1..], k - |first|);
        n := m + 1;
        assert all[..k] == first + rest[..k - |first|];
        ReceiveFrame(c, ms[0], rest[..k - |first|]);
        assert ms[..n] == [ms[0]] + ms[1..][..m];
        FramesPrefix(c, ms, m);
        if m < |ms| - 1 { FramesPrefix(c, ms, m + 1); }
      }
    }
  }

  lemma {:induction false} FramesPrefix<M>(c: Codec<M>, ms: seq<M>, m: nat)
    requires AllSendable(c, ms) && m < |ms|
    ensures Frames(c, ms[..m + 1]) == Frame(c, ms[0]) + Frames(c, ms[1..][..m])
  {
    assert ms[..m + 1][1..] == ms[1..][..m];
  }
}
