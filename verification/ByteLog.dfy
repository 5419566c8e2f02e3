/**
 * The application log: a fixed ring of bytes that keeps the newest output, read by any number of
 * cursors that count bytes since the beginning. `all` is every byte ever appended; it is what the
 * ring has to agree with.
 */
module ByteLog {
  import opened Bytes

  const APP_LOG_CAPACITY: nat := 128 * 1024

  /** The `len` elements of a ring that start at `start`. */
  ghost function Ring<T>(d: seq<T>, start: nat, len: nat): (s: seq<T>)
    requires start < |d| && len <= |d|
    ensures |s| == len
  {
    if start + len <= |d| then d[start..start + len] else d[start..] + d[..start + len - |d|]
  }

  /** A ring position that may have run past the end once. */
  function Wrap(i: nat, n: nat): nat
    requires i < 2 * n
  {
    if i >= n then i - n else i
  }

  lemma {:induction false} RingAt<T>(d: seq<T>, start: nat, len: nat, i: nat)
    requires start < |d| && len <= |d| && i < len
    ensures Ring(d, start, len)[i] == d[Wrap(start + i, |d|)]
  {
  }

  lemma {:induction false} WrapTwice(start: nat, n: nat, i: nat, size: nat)
    requires start < size && start + n < 2 * size && n + i < size
    ensures Wrap(Wrap(start + n, size) + i, size) == Wrap(start + (n + i), size)
  {
  }

  lemma {:induction false} RingDropAt<T>(d: seq<T>, start: nat, len: nat, n: nat, i: nat)
    requires start < |d| && n + i < len <= |d|
    ensures Ring(d, Wrap(start + n, |d|), len - n)[i] == Ring(d, start, len)[n + i]
  {
    hide Ring;
    WrapTwice(start, n, i, |d|);
    RingAt(d, Wrap(start + n, |d|), len - n, i);
    RingAt(d, start, len, n + i);
  }

  lemma {:induction false} RingDrop<T>(d: seq<T>, start: nat, len: nat, n: nat)
    requires start < |d| && n <= len <= |d|
    ensures Ring(d, Wrap(start + n, |d|), len - n) == Ring(d, start, len)[n..]
  {
    var a, b := Ring(d, Wrap(start + n, |d|), len - n), Ring(d, start, len);
    forall i | 0 <= i < len - n
      ensures a[i] == b[n + i]
    {
      RingDropAt(d, start, len, n, i);
    }
    hide *;
    assert a == b[n..];
  }

  lemma {:induction false} RingPush<T>(d: seq<T>, start: nat, len: nat, x: T)
    requires start < |d| && len < |d|
    ensures Ring(d[Wrap(start + len, |d|) := x], start, len + 1) == Ring(d, start, len) + [x]
  {
    var e := d[Wrap(start + len, |d|) := x];
    var a, b := Ring(e, start, len + 1), Ring(d, start, len) + [x];
    hide Ring;
    forall i | 0 <= i < len + 1
      ensures a[i] == b[i]
    {
      RingAt(e, start, len + 1, i);
      if i < len { RingAt(d, start, len, i); }
    }
  }

  /** A ring of bytes in an array, readable as at most two contiguous slices. */
  class CircBuf {
    const data: array<Byte>
    var start: nat
    var len: nat

    ghost predicate Valid()
      reads this
    {
      0 < data.Length && start < data.Length && len <= data.Length
    }

    /** What the ring holds, oldest first. */
    ghost function Contents(): (s: seq<Byte>)
      requires Valid()
      reads this, data
      ensures |s| == len
    {
      Ring(data[..], start, len)
    }

    constructor (capacity: nat)
      requires capacity > 0
      ensures Valid() && fresh(data) && data.Length == capacity && Contents() == []
    {
      data := new Byte[capacity];
      start, len := 0, 0;
    }

    function Avail(): nat
      requires Valid()
      reads this
    {
      data.Length - len
    }

    /** Drop the oldest `n` bytes; asking for more than there are changes nothing. */
    method AdvanceRead(n: nat)
      requires Valid()
      modifies this
      ensures Valid()
      ensures Contents() == if n <= old(len) then old(Contents())[n..] else old(Contents())
    {
      if n <= len {
        RingDrop(data[..], start, len, n);
        hide Ring;
        start := Wrap(start + n, data.Length);
        len := len - n;
      }
    }

    /** Append bytes that fit. */
    method Write(bytes: seq<Byte>)
      requires Valid() && |bytes| <= Avail()
      modifies this, data
      ensures Valid() && Contents() == old(Contents()) + bytes
    {
      ghost var before := Contents();
      var i := 0;
      while i < |bytes|
        invariant 0 <= i <= |bytes| && Valid()
        invariant len + |bytes| - i <= data.Length
        invariant Contents() == before + bytes[..i]
      {
        Push(bytes[i]);
        i := i + 1;
      }
      assert bytes[..i] == bytes;
    }

    method Push(b: Byte)
      requires Valid() && len < data.Length
      modifies this`len, data
      ensures Valid() && len == old(len) + 1 && Contents() == old(Contents()) + [b]
    {
      RingPush(data[..], start, len, b);
      hide Ring;
      var e := Wrap(start + len, data.Length);
      ghost var before := data[..];
      data[e] := b;
      assert data[..] == before[e := b];
      len := len + 1;
    }

    /** The oldest `n` bytes, or all of them, as two slices. */
    method GetBytesUpTo(n: nat) returns (first: seq<Byte>, second: seq<Byte>)
      requires Valid()
      ensures first + second == Contents()[..if n <= len then n else len]
    {
      var k := if n <= len then n else len;
      assert Ring(data[..], start, k) == Ring(data[..], start, len)[..k];
      if start + k <= data.Length {
        first, second := data[start..start + k], [];
      } else {
        first, second := data[start..], data[..start + k - data.Length];
      }
    }
  }

  class LogCursor {
    var pos: nat

    constructor ()
      ensures pos == 0
    {
      pos := 0;
    }
  }

  function Min(a: nat, b: nat): nat { if a < b then a else b }

  /** Where the kept part starts after appending: as far back as the capacity reaches. */
  function HeadAfter(head: nat, total: nat, capacity: nat): nat {
    if total - head <= capacity then head else total - capacity
  }

  /** The next bytes for a cursor at `pos`: from there, or from the head if that was trimmed. */
  ghost function Next(all: seq<Byte>, head: nat, pos: nat, size: nat): (r: (nat, seq<Byte>))
    requires head <= |all|
    ensures r.0 == Max(pos, head)
    ensures r.0 <= |all| ==> |r.1| == Min(size, |all| - r.0) && r.1 == all[r.0..r.0 + |r.1|]
    ensures r.0 > |all| ==> r.1 == []
  {
    var from := Max(pos, head);
    if from > |all| then (from, []) else (from, all[from..from + Min(size, |all| - from)])
  }

  class Log {
    const buffer: CircBuf
    var head: nat
    ghost var all: seq<Byte>

    ghost predicate Valid()
      reads this, buffer, buffer.data
    {
      && buffer.Valid()
      && head <= |all| && buffer.Contents() == all[head..]
    }

    constructor (capacity: nat)
      requires capacity > 0
      ensures Valid() && fresh(buffer) && fresh(buffer.data) && buffer.data.Length == capacity
      ensures all == [] && head == 0
    {
      buffer := new CircBuf(capacity);
      head := 0;
      all := [];
    }

    /**
     * Append a chunk, trimming the oldest bytes if needed. The chunk must fit the ring: the code
     * asserts it, and it is exactly what makes both of its assertions hold.
     */
    method Append(chunk: seq<Byte>) returns (trimmed: nat)
      requires Valid() && |chunk| <= buffer.data.Length
      modifies this, buffer, buffer.data
      ensures Valid() && all == old(all) + chunk
      ensures head == old(head) + trimmed == HeadAfter(old(head), |all|, buffer.data.Length)
    {
      trimmed := 0;
      var avail := buffer.Avail();
      if avail < |chunk| {
        trimmed := |chunk| - avail;
        buffer.AdvanceRead(trimmed);
        head := head + trimmed;
        assert all[old(head)..][trimmed..] == all[head..];
      }
      assert buffer.Avail() >= |chunk|;
      assert all[head..] + chunk == (all + chunk)[head..];
      hide CircBuf.Contents;
      buffer.Write(chunk);
      all := all + chunk;
    }

    /** Copy the next bytes for the cursor into `buf` and move the cursor past them. */
    method Read(cursor: LogCursor, buf: array<Byte>) returns (copied: nat)
      requires Valid() && buf != buffer.data
      modifies cursor, buf
      ensures Valid()
      ensures var next := Next(all, head, old(cursor.pos), buf.Length);
              && copied == |next.1| && copied <= buf.Length && buf[..copied] == next.1
              && cursor.pos == next.0 + copied
    {
      copied := 0;
      var offset;
      if cursor.pos < head {
        cursor.pos := head;
        offset := 0;
      } else {
        offset := cursor.pos - head;
      }
      ghost var from := cursor.pos;
      hide CircBuf.Contents, Next;
      var first, second := buffer.GetBytesUpTo(buf.Length + offset);
      NextIs(all, head, from, buf.Length, first + second);
      copied := CopyFrom(first, second, offset, buf);
      cursor.pos := cursor.pos + copied;
    }
  }

  /** What is left of a sequence after `n` elements. */
  function Skip(s: seq<Byte>, n: nat): seq<Byte> { if n <= |s| then s[n..] else [] }

  lemma {:induction false} NextIs(all: seq<Byte>, head: nat, from: nat, size: nat, got: seq<Byte>)
    requires head <= |all| && head <= from
    requires got == all[head..][..Min(size + from - head, |all| - head)]
    ensures |Skip(got, from - head)| <= size
    ensures Next(all, head, from, size) == (from, Skip(got, from - head))
  {
    if from <= |all| {
      assert Skip(got, from - head) == all[from..from + Min(size, |all| - from)];
    }
  }

  /** Copy both slices, except for the first `offset` bytes, to the front of `buf`. */
  method CopyFrom(first: seq<Byte>, second: seq<Byte>, offset: nat, buf: array<Byte>) returns (copied: nat)
    requires |Skip(first + second, offset)| <= buf.Length
    modifies buf
    ensures copied == |Skip(first + second, offset)| && buf[..copied] == Skip(first + second, offset)
  {
    var n, rest := CopySlice(first, offset, buf, 0);
    ghost var done := buf[..n];
    assert buf[0..n] == done;
    var m, _ := CopySlice(second, rest, buf, n);
    copied := n + m;
    assert buf[..copied] == done + buf[n..n + m];
  }

  /** One slice of the copy loop: skip what lies before the offset, copy the rest. */
  method CopySlice(slice: seq<Byte>, offset: nat, buf: array<Byte>, at: nat) returns (copied: nat, rest: nat)
    requires at + (if offset < |slice| then |slice| - offset else 0) <= buf.Length
    modifies buf
    ensures offset < |slice| ==> copied == |slice| - offset && rest == 0
    ensures offset >= |slice| ==> copied == 0 && rest == offset - |slice|
    ensures at + copied <= buf.Length && buf[..at] == old(buf[..at])
    ensures offset < |slice| ==> buf[at..at + copied] == slice[offset..]
  {
    if offset < |slice| {
      copied, rest := |slice| - offset, 0;
      forall i | 0 <= i < copied {
        buf[at + i] := slice[offset + i];
      }
    } else {
      copied, rest := 0, offset - |slice|;
    }
  }

  const READ_SIZE: nat := 4096

  /** Where streamed bytes go. */
  class Sink {
    var bytes: seq<Byte>
  }

  /**
   * Send until a read finds nothing more. While the k-th piece is being sent the servicer appends
   * `arrivals[k]`. Whatever arrives and is trimmed meanwhile, the sink gets pieces of the log in
   * order that skip only what has been trimmed, and in the end the cursor is at the end of the log.
   * `before` is what the cursor delivered earlier, `ds` all it has delivered, `k` how many arrivals
   * there were.
   */
  method WriteAll(log: Log, cursor: LogCursor, sink: Sink, arrivals: seq<seq<seq<Byte>>>, ghost before: seq<Delivery>)
    returns (ghost ds: seq<Delivery>, ghost k: nat)
    requires log.Valid() && log.buffer.data.Length == 131_072
    requires forall k, i :: 0 <= k < |arrivals| && 0 <= i < |arrivals[k]| ==> |arrivals[k][i]| <= 16_384
    requires InOrder(before, log.all) && cursor.pos == EndOf(before) && sink.bytes == Received(before)
    requires HeadsWithin(before, log.head)
    modifies cursor, sink, log, log.buffer, log.buffer.data
    ensures log.Valid() && k <= |arrivals| && Appended(old(log.all), old(log.head), arrivals[..k], log.all, log.head)
    ensures before < ds && InOrder(ds, log.all) && HeadsWithin(ds, log.head) && sink.bytes == Received(ds)
    ensures cursor.pos == EndOf(ds) == |log.all|
    ensures k < |ds| - |before| && (k < |arrivals| ==> k == |ds| - |before| - 1)
    ensures |arrivals| == 0 ==> SameHeads(ds, |before|, old(log.head))
  {
    var buf := new Byte[READ_SIZE];
    ds := before;
    var sent := 0;
    k := 0;
    EndsInside(before, log.all);
    HeadInside(log);
    assert arrivals[..0] == [] && log.all + [] == log.all;
    assert SameHeads(ds, |before|, log.head) && Appended(log.all, log.head, arrivals[..0], log.all, log.head);
    hide CircBuf.Contents, CircBuf.Valid, Log.Valid, InOrder, Received, EndOf, Joined, SameHeads, HeadsWithin, Appended;
    while true
      invariant log.Valid() && fresh(buf) && buf.Length == READ_SIZE
      invariant log.head <= |log.all| && k == sent <= |arrivals|
      invariant before <= ds && Caught(ds, log, cursor, sink)
      invariant k <= |ds| - |before| && (k < |arrivals| ==> k == |ds| - |before|)
      invariant Appended(old(log.all), old(log.head), arrivals[..k], log.all, log.head)
      invariant |arrivals| == 0 ==> log.head == old(log.head) && SameHeads(ds, |before|, old(log.head))
      decreases |arrivals| - sent, |log.all| - cursor.pos
    {
      var nread;
      nread, ds := SendNext(log, cursor, sink, buf, ds, |before|);
      if nread == 0 { return; }
      if sent < |arrivals| {
        ghost var now, nowHead := log.all, log.head;
        Arrive(log, arrivals[sent], ds);
        AppendedMore(old(log.all), old(log.head), arrivals, k, now, nowHead, log.all, log.head);
        sent, k := sent + 1, k + 1;
      }
    }
  }

  /** All deliveries from the n-th on were made with the same head. */
  ghost predicate SameHeads(ds: seq<Delivery>, n: nat, head: nat)
    decreases |ds|
  {
    |ds| <= n || (ds[|ds| - 1].head == head && SameHeads(ds[..|ds| - 1], n, head))
  }

  /** Then what they brought is exactly the kept bytes that the first n had not reached. */
  lemma {:induction false} QuietDeliveries(ds: seq<Delivery>, n: nat, all: seq<Byte>, head: nat)
    requires n < |ds| && InOrder(ds, all) && SameHeads(ds, n, head)
    ensures var from := Max(EndOf(ds[..n]), head);
            from <= EndOf(ds) <= |all| && Received(ds) == Received(ds[..n]) + all[from..EndOf(ds)]
    decreases |ds|
  {
    var m := |ds| - 1;
    var es := ds[..m];
    if n < m {
      QuietDeliveries(es, n, all, head);
      assert es[..n] == ds[..n];
      var from := Max(EndOf(ds[..n]), head);
      assert ds[m].head == head == es[m - 1].head;
      Extend(Received(ds[..n]), all, from, EndOf(es), EndOf(ds));
    }
  }

  lemma {:induction false} Extend(start: seq<Byte>, s: seq<Byte>, i: nat, j: nat, k: nat)
    requires i <= j <= k <= |s|
    ensures start + s[i..j] + s[j..k] == start + s[i..k]
  {
    assert s[i..j] + s[j..k] == s[i..k];
  }

  /** The servicer appends while a piece is being sent. */
  method Arrive(log: Log, chunks: seq<seq<Byte>>, ghost ds: seq<Delivery>)
    requires log.Valid() && log.buffer.data.Length == 131_072
    requires InOrder(ds, log.all) && HeadsWithin(ds, log.head)
    requires forall i :: 0 <= i < |chunks| ==> |chunks[i]| <= 16_384
    modifies log, log.buffer, log.buffer.data
    ensures log.Valid() && log.all == old(log.all) + Joined(chunks) && log.head <= |log.all|
    ensures log.head == HeadAfter(old(log.head), |log.all|, APP_LOG_CAPACITY)
    ensures InOrder(ds, log.all) && HeadsWithin(ds, log.head)
  {
    ghost var all := log.all;
    HeadInside(log);
    Service(log, chunks);
    Grows(ds, all, Joined(chunks));
    HeadInside(log);
  }

  ghost function Arrived(arrivals: seq<seq<seq<Byte>>>): seq<Byte> {
    if arrivals == [] then [] else Arrived(arrivals[..|arrivals| - 1]) + Joined(arrivals[|arrivals| - 1])
  }

  /** What was appended while pieces were being sent, and how far that trimmed the log. */
  ghost predicate Appended(all: seq<Byte>, head: nat, arrivals: seq<seq<seq<Byte>>>, now: seq<Byte>, nowHead: nat) {
    now == all + Arrived(arrivals) && nowHead == HeadAfter(head, |now|, APP_LOG_CAPACITY)
  }

  lemma {:induction false} AppendedMore(
    all: seq<Byte>, head: nat, arrivals: seq<seq<seq<Byte>>>, k: nat,
    now: seq<Byte>, nowHead: nat, later: seq<Byte>, laterHead: nat)
    requires k < |arrivals| && head <= |all| && Appended(all, head, arrivals[..k], now, nowHead)
    requires later == now + Joined(arrivals[k]) && laterHead == HeadAfter(nowHead, |later|, APP_LOG_CAPACITY)
    ensures Appended(all, head, arrivals[..k + 1], later, laterHead)
  {
    assert arrivals[..k + 1][..k] == arrivals[..k];
  }

  /** The cursor has delivered `ds` to the sink and stands at the end of it. */
  ghost predicate Caught(ds: seq<Delivery>, log: Log, cursor: LogCursor, sink: Sink)
    reads log, cursor, sink
  {
    && InOrder(ds, log.all) && HeadsWithin(ds, log.head)
    && sink.bytes == Received(ds) && cursor.pos == EndOf(ds) <= |log.all|
  }

  /** Read once and send what was read. */
  method SendNext(log: Log, cursor: LogCursor, sink: Sink, buf: array<Byte>, ghost ds: seq<Delivery>, ghost n: nat)
    returns (nread: nat, ghost es: seq<Delivery>)
    requires log.Valid() && buf != log.buffer.data && buf.Length > 0 && log.head <= |log.all|
    requires Caught(ds, log, cursor, sink)
    modifies cursor, sink, buf
    ensures log.Valid() && ds <= es && Caught(es, log, cursor, sink)
    ensures cursor.pos == Max(old(cursor.pos), log.head) + nread && (nread == 0 ==> cursor.pos == |log.all|)
    ensures SameHeads(ds, n, log.head) && n <= |ds| ==> SameHeads(es, n, log.head)
    ensures |es| == |ds| + 1
  {
    ghost var at := Max(cursor.pos, log.head);
    hide CircBuf.Contents, CircBuf.Valid, Log.Valid, InOrder, Received, EndOf, Next;
    nread := log.Read(cursor, buf);
    ghost var d := Delivery(at, log.head, buf[..nread]);
    ReadDelivers(ds, log.all, log.head, buf.Length);
    ReceivedSnoc(ds, d);
    es := ds + [d];
    assert es[..|ds|] == ds;
    if nread > 0 { sink.bytes := sink.bytes + buf[..nread]; }
  }

  lemma {:induction false} HeadInside(log: Log)
    requires log.Valid()
    ensures log.head <= |log.all| && |log.all| - log.head <= log.buffer.data.Length
  {
    assert |log.buffer.Contents()| == |log.all| - log.head;
  }

  lemma {:induction false} EndsInside(ds: seq<Delivery>, all: seq<Byte>)
    requires InOrder(ds, all)
    ensures EndOf(ds) <= |all|
  {
  }

  lemma {:induction false} ReceivedSnoc(ds: seq<Delivery>, d: Delivery)
    ensures Received(ds + [d]) == Received(ds) + d.bytes
  {
    assert (ds + [d])[..|ds|] == ds;
  }

  /** The log of the application, empty. */
  method NewAppLog() returns (log: Log)
    ensures fresh(log) && log.Valid() && log.buffer.data.Length == 131_072 && log.all == [] && log.head == 0
  {
    log := new Log(APP_LOG_CAPACITY);
  }

  /** The pipe servicer: chunks of at most 16 KiB, so appending never fails its assertions. */
  method Service(log: Log, chunks: seq<seq<Byte>>)
    requires log.Valid() && log.buffer.data.Length == 131_072
    requires forall i :: 0 <= i < |chunks| ==> |chunks[i]| <= 16_384
    modifies log, log.buffer, log.buffer.data
    ensures log.Valid() && log.all == old(log.all) + Joined(chunks)
    ensures log.head == HeadAfter(old(log.head), |log.all|, APP_LOG_CAPACITY)
  {
    var i := 0;
    HeadInside(log);
    assert log.head == HeadAfter(log.head, |log.all|, APP_LOG_CAPACITY);
    assert log.all == log.all + Joined(chunks[..0]);
    hide CircBuf.Contents, CircBuf.Valid, Log.Valid, HeadAfter, Joined;
    while i < |chunks|
      invariant 0 <= i <= |chunks| && log.Valid()
      invariant log.all == old(log.all) + Joined(chunks[..i])
      invariant log.head == HeadAfter(old(log.head), |log.all|, APP_LOG_CAPACITY)
    {
      JoinedStep(old(log.all), chunks, i);
      HeadAfterTwice(old(log.head), |log.all|, |log.all| + |chunks[i]|, APP_LOG_CAPACITY);
      var _ := log.Append(chunks[i]);
      i := i + 1;
    }
    assert chunks[..i] == chunks;
  }

  lemma {:induction false} HeadAfterTwice(head: nat, total: nat, later: nat, capacity: nat)
    requires total <= later
    ensures HeadAfter(HeadAfter(head, total, capacity), later, capacity) == HeadAfter(head, later, capacity)
  {
  }

  ghost function Joined(chunks: seq<seq<Byte>>): seq<Byte> {
    if chunks == [] then [] else Joined(chunks[..|chunks| - 1]) + chunks[|chunks| - 1]
  }

  lemma {:induction false} JoinedStep(all: seq<Byte>, chunks: seq<seq<Byte>>, i: nat)
    requires i < |chunks|
    ensures all + Joined(chunks[..i]) + chunks[i] == all + Joined(chunks[..i + 1])
  {
    assert chunks[..i + 1][..i] == chunks[..i];
  }

  //// Many cursors and interleaved appends

  datatype Step = Append(chunk: seq<Byte>) | Read(cursor: nat, size: nat)

  /** Positions the cursor skipped to and the bytes it got, one entry per read. */
  datatype Delivery = Delivery(from: nat, head: nat, bytes: seq<Byte>)

  datatype State = State(all: seq<Byte>, head: nat, pos: map<nat, nat>, got: map<nat, seq<Delivery>>)

  function PosOf(s: State, c: nat): nat { if c in s.pos then s.pos[c] else 0 }

  function GotBy(s: State, c: nat): seq<Delivery> { if c in s.got then s.got[c] else [] }

  ghost function Apply(s: State, capacity: nat, x: Step): State
    requires s.head <= |s.all|
  {
    match x
    case Append(chunk) =>
      var all := s.all + chunk;
      s.(all := all, head := HeadAfter(s.head, |all|, capacity))
    case Read(c, size) =>
      var next := Next(s.all, s.head, PosOf(s, c), size);
      s.(pos := s.pos[c := next.0 + |next.1|], got := s.got[c := GotBy(s, c) + [Delivery(next.0, s.head, next.1)]])
  }

  /** A read gives its own cursor as many of the next bytes as fit, and touches nothing else. */
  lemma {:induction false} ReadIsPrivate(s: State, capacity: nat, c: nat, size: nat, other: nat)
    requires s.head <= |s.all| && PosOf(s, c) <= |s.all|
    ensures var t := Apply(s, capacity, Read(c, size));
            && t.all == s.all && t.head == s.head && |GotBy(t, c)| == |GotBy(s, c)| + 1
            && (other != c ==> GotBy(t, other) == GotBy(s, other) && PosOf(t, other) == PosOf(s, other))
            && var d := GotBy(t, c)[|GotBy(s, c)|];
               && d.head == s.head && |d.bytes| == Min(size, |s.all| - Max(PosOf(s, c), s.head))
               && GotBy(t, c)[..|GotBy(s, c)|] == GotBy(s, c) && PosOf(t, c) == d.from + |d.bytes|
  {
  }

  /** Where a cursor stands after its deliveries. */
  ghost function EndOf(ds: seq<Delivery>): nat {
    if ds == [] then 0 else ds[|ds| - 1].from + |ds[|ds| - 1].bytes|
  }

  /**
   * Each delivery is a contiguous piece of the log. It starts where the previous one ended, or at
   * the head of that moment if the bytes in between had been trimmed.
   */
  ghost predicate InOrder(ds: seq<Delivery>, all: seq<Byte>) {
    ds == [] ||
    var d, before := ds[|ds| - 1], ds[..|ds| - 1];
    && InOrder(before, all)
    && d.from == Max(EndOf(before), d.head)
    && EndOf(ds) <= |all| && d.bytes == all[d.from..EndOf(ds)]
  }

  /** What these deliveries skipped had been trimmed by the time the log's head was here. */
  ghost predicate HeadsWithin(ds: seq<Delivery>, head: nat) {
    forall i :: 0 <= i < |ds| ==> ds[i].head <= head
  }

  ghost predicate Good(s: State, capacity: nat) {
    && s.head <= |s.all| && |s.all| - s.head <= capacity
    && forall c :: InOrder(GotBy(s, c), s.all) && HeadsWithin(GotBy(s, c), s.head) && PosOf(s, c) == EndOf(GotBy(s, c))
  }

  const START := State([], 0, map[], map[])

  lemma {:induction false} StepKeepsGood(s: State, capacity: nat, x: Step)
    requires Good(s, capacity)
    ensures Good(Apply(s, capacity, x), capacity)
  {
    var t := Apply(s, capacity, x);
    hide InOrder, EndOf;
    forall c
      ensures InOrder(GotBy(t, c), t.all) && HeadsWithin(GotBy(t, c), t.head) && PosOf(t, c) == EndOf(GotBy(t, c))
    {
      assert InOrder(GotBy(s, c), s.all) && HeadsWithin(GotBy(s, c), s.head);
      CursorStep(s, capacity, x, c);
    }
  }

  lemma {:induction false} CursorStep(s: State, capacity: nat, x: Step, c: nat)
    requires s.head <= |s.all| && InOrder(GotBy(s, c), s.all) && HeadsWithin(GotBy(s, c), s.head)
    requires PosOf(s, c) == EndOf(GotBy(s, c))
    ensures var t := Apply(s, capacity, x);
            InOrder(GotBy(t, c), t.all) && HeadsWithin(GotBy(t, c), t.head) && PosOf(t, c) == EndOf(GotBy(t, c))
  {
    match x
    case Append(chunk) => Grows(GotBy(s, c), s.all, chunk);
    case Read(cursor, size) =>
      if c == cursor {
        ReadDelivers(GotBy(s, c), s.all, s.head, size);
      }
  }

  lemma {:induction false} ReadDelivers(ds: seq<Delivery>, all: seq<Byte>, head: nat, size: nat)
    requires head <= |all| && InOrder(ds, all)
    ensures var next := Next(all, head, EndOf(ds), size);
            var es := ds + [Delivery(next.0, head, next.1)];
            InOrder(es, all) && EndOf(es) == next.0 + |next.1|
  {
    var next := Next(all, head, EndOf(ds), size);
    assert EndOf(ds) <= |all|;
    Delivered(ds, all, Delivery(next.0, head, next.1));
  }

  lemma {:induction false} Grows(ds: seq<Delivery>, all: seq<Byte>, chunk: seq<Byte>)
    requires InOrder(ds, all)
    ensures InOrder(ds, all + chunk)
  {
    if ds != [] {
      Grows(ds[..|ds| - 1], all, chunk);
    }
  }

  lemma {:induction false} Delivered(ds: seq<Delivery>, all: seq<Byte>, d: Delivery)
    requires InOrder(ds, all) && d.from == Max(EndOf(ds), d.head) && d.from + |d.bytes| <= |all|
    requires d.bytes == all[d.from..d.from + |d.bytes|]
    ensures InOrder(ds + [d], all) && EndOf(ds + [d]) == d.from + |d.bytes|
  {
    assert (ds + [d])[..|ds|] == ds;
  }

  ghost function Run(s: State, capacity: nat, steps: seq<Step>): State
    requires Good(s, capacity)
    decreases |steps|
  {
    if steps == [] then s
    else
      StepKeepsGood(s, capacity, steps[0]);
      Run(Apply(s, capacity, steps[0]), capacity, steps[1..])
  }

  /** A run takes its steps one after the other. */
  lemma {:induction false} RunSnoc(s: State, capacity: nat, steps: seq<Step>, x: Step)
    requires Good(s, capacity)
    ensures Good(Run(s, capacity, steps), capacity)
    ensures Run(s, capacity, steps + [x]) == Apply(Run(s, capacity, steps), capacity, x)
    decreases |steps|
  {
    RunKeepsGood(s, capacity, steps);
    hide Good, Apply;
    if steps == [] {
      assert steps + [x] == [x] && [x][1..] == [];
      StepKeepsGood(s, capacity, x);
    } else {
      StepKeepsGood(s, capacity, steps[0]);
      assert (steps + [x])[1..] == steps[1..] + [x];
      RunSnoc(Apply(s, capacity, steps[0]), capacity, steps[1..], x);
    }
  }

  /**
   * Any interleaving of appends and reads by any number of cursors: each cursor received contiguous
   * pieces of the log in order, without repetition, missing only bytes that had been trimmed, and
   * the kept part is never longer than the ring.
   */
  lemma {:induction false} ReadersInOrder(capacity: nat, steps: seq<Step>)
    ensures Good(Run(START, capacity, steps), capacity)
  {
    RunKeepsGood(START, capacity, steps);
  }

  lemma {:induction false} RunKeepsGood(s: State, capacity: nat, steps: seq<Step>)
    requires Good(s, capacity)
    ensures Good(Run(s, capacity, steps), capacity)
    decreases |steps|
  {
    if steps != [] {
      StepKeepsGood(s, capacity, steps[0]);
      RunKeepsGood(Apply(s, capacity, steps[0]), capacity, steps[1..]);
    }
  }

  ghost function Received(ds: seq<Delivery>): seq<Byte> {
    if ds == [] then [] else Received(ds[..|ds| - 1]) + ds[|ds| - 1].bytes
  }

  /** The delivery brought the byte at this position of the log. */
  ghost predicate Covers(d: Delivery, k: nat) { d.from <= k < d.from + |d.bytes| }

  /**
   * Every byte before a cursor was delivered, or had been trimmed; none was delivered twice, and what
   * was delivered is the byte that was appended.
   */
  lemma {:induction false} OnceOrTrimmed(ds: seq<Delivery>, all: seq<Byte>, head: nat, k: nat)
    requires InOrder(ds, all) && HeadsWithin(ds, head) && k < EndOf(ds)
    ensures k < head || exists i :: 0 <= i < |ds| && Covers(ds[i], k)
    ensures k < |all| && forall i :: 0 <= i < |ds| && Covers(ds[i], k) ==> ds[i].bytes[k - ds[i].from] == all[k]
    ensures forall i, j :: 0 <= i < j < |ds| ==> !(Covers(ds[i], k) && Covers(ds[j], k))
  {
    var n := |ds| - 1;
    var before := ds[..n];
    EarlierEnd(ds, all);
    EarlierEnd(before, all);
    assert forall i :: 0 <= i < n ==> before[i] == ds[i];
    if k < EndOf(before) {
      OnceOrTrimmed(before, all, head, k);
      assert !Covers(ds[n], k);
      if i :| 0 <= i < n && Covers(before[i], k) { assert Covers(ds[i], k); }
    } else {
      assert forall i :: 0 <= i < n ==> !Covers(ds[i], k);
      if k >= ds[n].from { assert Covers(ds[n], k); }
    }
  }

  /** Deliveries end in order. */
  lemma {:induction false} EarlierEnd(ds: seq<Delivery>, all: seq<Byte>)
    requires InOrder(ds, all)
    ensures forall i :: 0 <= i < |ds| ==> ds[i].from + |ds[i].bytes| <= EndOf(ds)
    ensures ds != [] ==> forall i :: 0 <= i < |ds| - 1 ==> ds[i].from + |ds[i].bytes| <= ds[|ds| - 1].from
  {
    if ds != [] {
      var before := ds[..|ds| - 1];
      EarlierEnd(before, all);
      assert forall i :: 0 <= i < |before| ==> before[i] == ds[i];
    }
  }

  /** At each read, nothing past the cursor had been trimmed. */
  ghost predicate NeverOvertaken(ds: seq<Delivery>) {
    ds == [] || (ds[|ds| - 1].head <= EndOf(ds[..|ds| - 1]) && NeverOvertaken(ds[..|ds| - 1]))
  }

  /** A cursor that is never overtaken by the head has received the log itself, byte for byte. */
  lemma {:induction false} NothingMissed(ds: seq<Delivery>, all: seq<Byte>)
    requires InOrder(ds, all) && NeverOvertaken(ds)
    ensures EndOf(ds) <= |all| && Received(ds) == all[..EndOf(ds)]
  {
    if ds != [] {
      var before := ds[..|ds| - 1];
      NothingMissed(before, all);
      assert all[..EndOf(ds)] == all[..EndOf(before)] + all[EndOf(before)..EndOf(ds)];
    }
  }
}
