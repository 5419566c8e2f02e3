/**
 * Setting the enclave clock from the host's: the offset and delay formulas of section 8 of RFC 5905
 * in integer nanoseconds, with division that truncates toward zero, and the error this leaves.
 */
module ClockSync {
  const NANOS: int := 1_000_000_000
  const I64_MIN: int := -0x8000_0000_0000_0000
  const I64_LIMIT: int := 0x8000_0000_0000_0000

  //// Timestamps

  datatype Timestamp = Timestamp(secs: int, nanos: nat)

  function AsNanos(t: Timestamp): int { t.secs * NANOS + t.nanos }

  /** Keep the low 64 bits, read as a signed number. */
  function ToI64(n: int): (r: int)
    ensures I64_MIN <= r < I64_LIMIT
    ensures r == n <==> I64_MIN <= n < I64_LIMIT
  {
    (n - I64_MIN) % 0x1_0000_0000_0000_0000 + I64_MIN
  }

  /** Seconds and a non-negative remainder, seconds cut to 64 bits. */
  function FromNanos(total: int): (t: Timestamp)
    ensures 0 <= t.nanos < NANOS && I64_MIN <= t.secs < I64_LIMIT
  {
    Timestamp(ToI64(total / NANOS), total % NANOS)
  }

  /** Both conversions undo each other exactly on the representable range. */
  lemma {:induction false} TimestampRoundTrip(total: int, t: Timestamp)
    ensures AsNanos(FromNanos(total)) == total <==> I64_MIN <= total / NANOS < I64_LIMIT
    ensures FromNanos(AsNanos(t)) == t <==> t.nanos < NANOS && I64_MIN <= t.secs < I64_LIMIT
  {
    assert total == total / NANOS * NANOS + total % NANOS;
    var n := AsNanos(t);
    if t.nanos < NANOS {
      assert n / NANOS == t.secs && n % NANOS == t.nanos;
    }
  }

  /** A timestamp is its seconds in nanoseconds plus its remainder, below one second after conversion. */
  lemma {:induction false} TimestampMeans(total: int, t: Timestamp)
    ensures AsNanos(t) == t.secs * 1_000_000_000 + t.nanos
    ensures FromNanos(total).nanos < 1_000_000_000
    ensures -0x8000_0000_0000_0000 * 1_000_000_000 <= total < 0x8000_0000_0000_0000 * 1_000_000_000 ==>
              FromNanos(total).secs * 1_000_000_000 + FromNanos(total).nanos == total
  {
    TimestampRoundTrip(total, t);
  }

  //// One synchronisation

  /** Half of a number, cut toward zero. */
  function TruncatingHalf(n: int): (h: int)
    ensures n % 2 == 0 ==> 2 * h == n
    ensures n % 2 == 1 ==> 2 * h == if n > 0 then n - 1 else n + 1
  {
    if n >= 0 then n / 2 else -(-n / 2)
  }

  /** t1, t4: enclave clock at sending and receiving; t2, t3: host clock at receiving and sending. */
  function Offset(t1: int, t2: int, t3: int, t4: int): int { TruncatingHalf((t2 - t1) + (t3 - t4)) }

  function Rtt(t1: int, t2: int, t3: int, t4: int): int { (t4 - t1) - (t3 - t2) }

  function Abs(n: int): nat { if n < 0 then -n else n }

  /**
   * An exchange as it happens: the host clock is ahead of the enclave clock by `ahead` throughout,
   * the request takes `there`, the host `work`, the answer `back`; the clock is read `gap` after the
   * answer and set `latency` after that reading.
   */
  datatype Exchange = Exchange(start: int, ahead: int, there: nat, work: nat, back: nat, gap: nat, latency: nat)

  function T1(x: Exchange): int { x.start }
  function T2(x: Exchange): int { x.start + x.there + x.ahead }
  function T3(x: Exchange): int { T2(x) + x.work }
  function T4(x: Exchange): int { x.start + x.there + x.work + x.back }

  /** What the enclave clock is set to, and what the host clock shows at that moment. */
  function SetTo(x: Exchange): int { T4(x) + x.gap + Offset(T1(x), T2(x), T3(x), T4(x)) }
  function HostThen(x: Exchange): int { T4(x) + x.gap + x.latency + x.ahead }

  function ErrorAfter(x: Exchange): int { SetTo(x) - HostThen(x) }

  /** What the clock is set to: its reading plus the offset, unless that is beyond any timestamp. */
  method SyncOnce(t1: Timestamp, t2: Timestamp, t3: Timestamp, t4: Timestamp, now: Timestamp)
    returns (target: Timestamp)
    ensures var sum := (AsNanos(t2) - AsNanos(t1)) + (AsNanos(t3) - AsNanos(t4));
            var due := 2 * AsNanos(now) + sum;
            -0x8000_0000_0000_0000 * 2_000_000_000 < due - 1 && due + 1 < 0x8000_0000_0000_0000 * 2_000_000_000 ==>
              && target.nanos < 1_000_000_000
              && 2 * AsNanos(target) == due - (if sum % 2 == 0 then 0 else if sum > 0 then 1 else -1)
  {
    var offset := Offset(AsNanos(t1), AsNanos(t2), AsNanos(t3), AsNanos(t4));
    target := FromNanos(AsNanos(now) + offset);
    TimestampMeans(AsNanos(now) + offset, target);
  }

  /** The measured round trip is the sum of the path delays, whatever the clocks say. */
  lemma {:induction false} RttIsDelay(x: Exchange)
    ensures Rtt(T1(x), T2(x), T3(x), T4(x)) == x.there + x.back
  {
  }

  /**
   * Twice the error left by a sync is at most the round trip, plus one nanosecond for the truncated
   * half, plus twice the time between reading and setting the clock.
   */
  lemma {:induction false} SyncErrorBound(x: Exchange)
    ensures 2 * Abs(ErrorAfter(x)) <= Rtt(T1(x), T2(x), T3(x), T4(x)) + 1 + 2 * x.latency
  {
    var sum := (T2(x) - T1(x)) + (T3(x) - T4(x));
    assert sum == 2 * x.ahead + x.there - x.back;
    assert -1 <= 2 * TruncatingHalf(sum) - sum <= 1;
  }

  /** The nanosecond is really lost: with one nanosecond of asymmetry the bound is reached. */
  lemma {:induction false} SyncErrorBoundIsTight(start: int) returns (x: Exchange)
    ensures x.start == start && x.latency == 0 && 2 * Abs(ErrorAfter(x)) == Rtt(T1(x), T2(x), T3(x), T4(x)) + 1
  {
    x := Exchange(start, -1, 1, 0, 0, 0, 0);
    assert TruncatingHalf((T2(x) - T1(x)) + (T3(x) - T4(x))) == 0;
    assert SetTo(x) == start + 1 && HostThen(x) == start;
  }

  //// Runs of synchronisations

  /** Between syncs the clocks drift apart; a failed sync leaves the clock as it is. */
  datatype Event = Drift(change: int) | Synced(x: Exchange) | Failed

  /** The exchange sees the offset that is really there: host minus enclave is minus the error. */
  predicate Possible(error: int, e: Event, drift: nat, rtt: nat, latency: nat) {
    match e
    case Drift(change) => Abs(change) <= drift
    case Synced(x) => x.ahead == -error && x.there + x.back <= rtt && x.latency <= latency
    case Failed => true
  }

  function ErrorNext(error: int, e: Event): int {
    match e
    case Drift(change) => error + change
    case Synced(x) => ErrorAfter(x)
    case Failed => error
  }

  function ErrorOver(error: int, es: seq<Event>): int {
    if es == [] then error else ErrorNext(ErrorOver(error, es[..|es| - 1]), es[|es| - 1])
  }

  ghost predicate PossibleRun(error: int, es: seq<Event>, drift: nat, rtt: nat, latency: nat) {
    forall i :: 0 <= i < |es| ==> Possible(ErrorOver(error, es[..i]), es[i], drift, rtt, latency)
  }

  /** Drift intervals since the last successful sync. */
  function DriftsSinceSync(es: seq<Event>): nat {
    if es == [] then 0
    else match es[|es| - 1]
      case Synced(_) => 0
      case Drift(_) => DriftsSinceSync(es[..|es| - 1]) + 1
      case Failed => DriftsSinceSync(es[..|es| - 1])
  }

  /** The drift those intervals may have added. */
  function DriftBudget(es: seq<Event>, drift: nat): nat {
    if es == [] then 0
    else match es[|es| - 1]
      case Synced(_) => 0
      case Drift(_) => DriftBudget(es[..|es| - 1], drift) + drift
      case Failed => DriftBudget(es[..|es| - 1], drift)
  }

  lemma {:induction false} DriftBudgetIs(es: seq<Event>, drift: nat)
    ensures DriftBudget(es, drift) == DriftsSinceSync(es) * drift
  {
    if es != [] {
      DriftBudgetIs(es[..|es| - 1], drift);
      var k := DriftsSinceSync(es[..|es| - 1]);
      assert (k + 1) * drift == k * drift + drift;
    }
  }

  predicate EverSynced(es: seq<Event>) { exists i :: 0 <= i < |es| && es[i].Synced? }

  lemma {:induction false} ErrorWithinBudget(error: int, es: seq<Event>, drift: nat, rtt: nat, latency: nat)
    requires PossibleRun(error, es, drift, rtt, latency) && EverSynced(es)
    ensures 2 * Abs(ErrorOver(error, es)) <= rtt + 1 + 2 * latency + 2 * DriftBudget(es, drift)
  {
    var n := |es| - 1;
    var before := es[..n];
    assert Possible(ErrorOver(error, before), es[n], drift, rtt, latency);
    if es[n].Synced? {
      SyncErrorBound(es[n].x);
      RttIsDelay(es[n].x);
    } else {
      RunWithoutLast(error, es, drift, rtt, latency);
      ErrorWithinBudget(error, before, drift, rtt, latency);
    }
  }

  lemma {:induction false} RunWithoutLast(error: int, es: seq<Event>, drift: nat, rtt: nat, latency: nat)
    requires es != [] && PossibleRun(error, es, drift, rtt, latency) && EverSynced(es) && !es[|es| - 1].Synced?
    ensures PossibleRun(error, es[..|es| - 1], drift, rtt, latency) && EverSynced(es[..|es| - 1])
  {
    var before := es[..|es| - 1];
    var i :| 0 <= i < |es| && es[i].Synced?;
    assert before[i].Synced?;
    forall j | 0 <= j < |before|
      ensures Possible(ErrorOver(error, before[..j]), before[j], drift, rtt, latency)
    {
      assert before[..j] == es[..j] && before[j] == es[j];
    }
  }

  /**
   * Over every run with bounded drift per interval, round trip and latency: once a sync succeeded,
   * the error is bounded by that of a single sync plus the drift of the intervals since the last one.
   */
  lemma {:induction false} RunErrorBound(error: int, es: seq<Event>, drift: nat, rtt: nat, latency: nat)
    requires PossibleRun(error, es, drift, rtt, latency) && EverSynced(es)
    ensures 2 * Abs(ErrorOver(error, es)) <= rtt + 1 + 2 * latency + 2 * (DriftsSinceSync(es) * drift)
  {
    ErrorWithinBudget(error, es, drift, rtt, latency);
    DriftBudgetIs(es, drift);
  }

  lemma {:induction false} DriftsAfter(a: seq<Event>, x: Exchange, b: seq<Event>)
    ensures DriftsSinceSync(a + [Synced(x)] + b) <= |b|
    decreases |b|
  {
    var es := a + [Synced(x)] + b;
    if b == [] {
      assert es[|es| - 1] == Synced(x);
    } else {
      var c := b[..|b| - 1];
      DriftsAfter(a, x, c);
      assert es[..|es| - 1] == a + [Synced(x)] + c && es[|es| - 1] == b[|b| - 1];
    }
  }

  /** So `k` events after a sync, failed ones included, it is off by at most one sync and `k` drifts. */
  lemma {:induction false} ErrorAfterSync(
    error: int, a: seq<Event>, x: Exchange, b: seq<Event>, drift: nat, rtt: nat, latency: nat)
    requires PossibleRun(error, a + [Synced(x)] + b, drift, rtt, latency)
    ensures 2 * Abs(ErrorOver(error, a + [Synced(x)] + b)) <= rtt + 1 + 2 * latency + 2 * (|b| * drift)
  {
    var es := a + [Synced(x)] + b;
    assert es[|a|].Synced?;
    RunErrorBound(error, es, drift, rtt, latency);
    DriftsAfter(a, x, b);
    Fewer(DriftsSinceSync(es), |b|, drift);
  }

  lemma {:induction false} Fewer(a: nat, b: nat, c: nat)
    requires a <= b
    ensures a * c <= b * c
  {
    assert b * c == a * c + (b - a) * c;
  }
}
