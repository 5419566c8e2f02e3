/** Choosing KMS nodes for a call, and the call's retry loop over them. */
module KmsCalls {
  import opened Bytes
  import opened KmsNodes

  //// Candidates

  datatype Standing = FreshReachable | Unknown | FreshUnreachable

  function StandingOf(n: Node, now: nat): Standing {
    if n.obs.reachable == Some(true) && now < n.obs.expiresAt then FreshReachable
    else if n.obs.reachable == Some(false) && now < n.obs.expiresAt then FreshUnreachable
    else Unknown
  }

  function Rank(s: Standing): nat {
    match s
    case FreshReachable => 0
    case Unknown => 1
    case FreshUnreachable => 2
  }

  /** The standing of every node, as a number: reachable 0, unknown 1, unreachable 2. */
  function Ranks(ns: seq<Node>, now: nat): (r: seq<int>)
    ensures |r| == |ns|
    ensures forall i :: 0 <= i < |ns| ==> r[i] == Rank(StandingOf(ns[i], now))
  {
    seq(|ns|, i requires 0 <= i < |ns| => Rank(StandingOf(ns[i], now)))
  }

  predicate Before(ranks: seq<int>, a: int, b: int)
    requires 0 <= a < |ranks| && 0 <= b < |ranks|
  {
    ranks[a] < ranks[b] || (ranks[a] == ranks[b] && a < b)
  }

  /**
   * `idx` lists, without repetition, exactly the positions of rank below 2: reachable nodes first,
   * unknown ones after them, each group in list order.
   */
  ghost predicate StableOrder(ranks: seq<int>, idx: seq<int>) {
    && (forall k :: 0 <= k < |idx| ==> 0 <= idx[k] < |ranks| && ranks[idx[k]] < 2)
    && (forall j, k :: 0 <= j < k < |idx| ==> Before(ranks, idx[j], idx[k]))
    && (forall i :: 0 <= i < |ranks| && ranks[i] < 2 ==> i in idx)
  }

  ghost predicate Selects(out: seq<Node>, ns: seq<Node>, idx: seq<int>) {
    |out| == |idx| && forall k :: 0 <= k < |idx| ==> 0 <= idx[k] < |ns| && out[k] == ns[idx[k]]
  }

  ghost predicate Prioritized(ns: seq<Node>, now: nat, out: seq<Node>) {
    exists idx :: StableOrder(Ranks(ns, now), idx) && Selects(out, ns, idx)
  }

  /** `idx` are the positions below `n` of one rank, ascending. */
  ghost predicate Positions(ranks: seq<int>, rank: nat, n: nat, idx: seq<int>)
    requires n <= |ranks|
  {
    && (forall k :: 0 <= k < |idx| ==> 0 <= idx[k] < n && ranks[idx[k]] == rank)
    && (forall j, k :: 0 <= j < k < |idx| ==> idx[j] < idx[k])
    && (forall i :: 0 <= i < n && ranks[i] == rank ==> i in idx)
  }

  lemma {:induction false} PositionsStep(ranks: seq<int>, rank: nat, n: nat, idx: seq<int>)
    requires n < |ranks| && Positions(ranks, rank, n, idx)
    ensures Positions(ranks, rank, n + 1, if ranks[n] == rank then idx + [n] else idx)
  {
    if ranks[n] == rank {
      var grown := idx + [n];
      assert grown[|idx|] == n;
      assert forall i :: i in idx ==> i in grown;
    }
  }

  lemma {:induction false} JoinGroups(ranks: seq<int>, a: seq<int>, b: seq<int>)
    requires Positions(ranks, 0, |ranks|, a) && Positions(ranks, 1, |ranks|, b)
    requires forall i :: 0 <= i < |ranks| ==> ranks[i] >= 0
    ensures StableOrder(ranks, a + b)
  {
    assert forall i :: i in a || i in b ==> i in a + b;
  }

  lemma {:induction false} SelectsSnoc(out: seq<Node>, ns: seq<Node>, idx: seq<int>, i: nat)
    requires Selects(out, ns, idx) && i < |ns|
    ensures Selects(out + [ns[i]], ns, idx + [i])
  {
  }

  lemma {:induction false} SelectsConcat(a: seq<Node>, b: seq<Node>, ns: seq<Node>, x: seq<int>, y: seq<int>)
    requires Selects(a, ns, x) && Selects(b, ns, y)
    ensures Selects(a + b, ns, x + y)
  {
  }

  /** The first `n` nodes, split into the reachable and the unknown ones. */
  ghost predicate Grouped(ns: seq<Node>, now: nat, n: nat, reachable: seq<Node>, unknown: seq<Node>)
    requires n <= |ns|
  {
    exists a, b ::
      && Positions(Ranks(ns, now), 0, n, a) && Selects(reachable, ns, a)
      && Positions(Ranks(ns, now), 1, n, b) && Selects(unknown, ns, b)
  }

  lemma {:induction false} GroupedStart(ns: seq<Node>, now: nat)
    ensures Grouped(ns, now, 0, [], [])
  {
    var none: seq<int> := [];
    assert Positions(Ranks(ns, now), 0, 0, none) && Positions(Ranks(ns, now), 1, 0, none) && Selects([], ns, none);
  }

  lemma {:induction false} GroupedStep(ns: seq<Node>, now: nat, n: nat, reachable: seq<Node>, unknown: seq<Node>)
    requires n < |ns| && Grouped(ns, now, n, reachable, unknown)
    ensures Grouped(ns, now, n + 1,
                    if StandingOf(ns[n], now) == FreshReachable then reachable + [ns[n]] else reachable,
                    if StandingOf(ns[n], now) == Unknown then unknown + [ns[n]] else unknown)
  {
    var ranks := Ranks(ns, now);
    var a, b :|
      && Positions(ranks, 0, n, a) && Selects(reachable, ns, a)
      && Positions(ranks, 1, n, b) && Selects(unknown, ns, b);
    PositionsStep(ranks, 0, n, a);
    PositionsStep(ranks, 1, n, b);
    SelectsSnoc(reachable, ns, a, n);
    SelectsSnoc(unknown, ns, b, n);
    assert ranks[n] == 0 <==> StandingOf(ns[n], now) == FreshReachable;
    assert ranks[n] == 1 <==> StandingOf(ns[n], now) == Unknown;
    hide Positions, Selects, StandingOf;
  }

  lemma {:induction false} GroupsPrioritized(ns: seq<Node>, now: nat, reachable: seq<Node>, unknown: seq<Node>)
    requires Grouped(ns, now, |ns|, reachable, unknown)
    ensures Prioritized(ns, now, reachable + unknown)
  {
    var ranks := Ranks(ns, now);
    var a, b :|
      && Positions(ranks, 0, |ns|, a) && Selects(reachable, ns, a)
      && Positions(ranks, 1, |ns|, b) && Selects(unknown, ns, b);
    JoinGroups(ranks, a, b);
    SelectsConcat(reachable, unknown, ns, a, b);
    hide StableOrder, Positions, Ranks, Selects;
    var idx := a + b;
    assert StableOrder(ranks, idx) && Selects(reachable + unknown, ns, idx);
  }

  /** Sort the discovered nodes into what is worth calling. */
  method ResolveConnectableNodes(ns: seq<Node>, now: nat) returns (out: seq<Node>)
    ensures Prioritized(ns, now, out)
  {
    var reachable: seq<Node>, unknown: seq<Node> := [], [];
    hide Grouped, Prioritized;
    GroupedStart(ns, now);
    var i := 0;
    while i < |ns|
      invariant 0 <= i <= |ns|
      invariant Grouped(ns, now, i, reachable, unknown)
    {
      var n := ns[i];
      GroupedStep(ns, now, i, reachable, unknown);
      if n.obs.reachable == Some(true) && now < n.obs.expiresAt {
        reachable := reachable + [n];
      } else if !(n.obs.reachable == Some(false) && now < n.obs.expiresAt) {
        unknown := unknown + [n];
      }
      i := i + 1;
    }
    GroupsPrioritized(ns, now, reachable, unknown);
    out := reachable + unknown;
  }

  /** A candidate chosen by standing is one of the nodes and not known to be down. */
  lemma {:induction false} CandidateIsNotDown(ns: seq<Node>, now: nat, out: seq<Node>, n: Node)
    requires Prioritized(ns, now, out) && n in out
    ensures n in ns && !(n.obs.reachable == Some(false) && now < n.obs.expiresAt)
  {
    var ranks := Ranks(ns, now);
    var idx :| StableOrder(ranks, idx) && Selects(out, ns, idx);
    var k :| 0 <= k < |out| && out[k] == n;
    hide Prioritized, Ranks;
    ChosenRank(ns, now, ranks, out, idx, k);
  }

  lemma {:induction false} ChosenRank(ns: seq<Node>, now: nat, ranks: seq<int>, out: seq<Node>, idx: seq<int>, k: nat)
    requires ranks == Ranks(ns, now) && StableOrder(ranks, idx) && Selects(out, ns, idx) && k < |out|
    ensures out[k] in ns && StandingOf(out[k], now) != FreshUnreachable
  {
    var i := idx[k];
    assert ranks[i] == Ranks(ns, now)[i] == Rank(StandingOf(ns[i], now));
  }

  /** All nodes are known to be down; then, and only then, they are tried anyway. */
  ghost predicate AllUnreachable(ns: seq<Node>, now: nat) {
    forall i :: 0 <= i < |ns| ==> StandingOf(ns[i], now) == FreshUnreachable
  }

  method ResolveNodeCandidates(ns: seq<Node>, now: nat) returns (out: seq<Node>)
    ensures AllUnreachable(ns, now) ==> out == ns
    ensures !AllUnreachable(ns, now) ==> Prioritized(ns, now, out)
    ensures ns != [] ==> out != []
  {
    out := ResolveConnectableNodes(ns, now);
    EmptyWhenUnreachable(ns, now, out);
    if out == [] {
      out := ns;
    }
  }

  lemma {:induction false} EmptyWhenUnreachable(ns: seq<Node>, now: nat, out: seq<Node>)
    requires Prioritized(ns, now, out)
    ensures out == [] <==> AllUnreachable(ns, now)
  {
    var ranks := Ranks(ns, now);
    var idx :| StableOrder(ranks, idx) && Selects(out, ns, idx);
    if out != [] {
      assert ranks[idx[0]] < 2;
      assert StandingOf(ns[idx[0]], now) != FreshUnreachable;
    } else {
      assert forall i :: 0 <= i < |ns| ==> ranks[i] == 2;
    }
  }

  /** The candidate list is determined by the node list and the time: a stable order is unique. */
  lemma {:induction false} CandidatesDetermined(ns: seq<Node>, now: nat, a: seq<Node>, b: seq<Node>)
    requires Prioritized(ns, now, a) && Prioritized(ns, now, b)
    ensures a == b
  {
    var ranks := Ranks(ns, now);
    var x :| StableOrder(ranks, x) && Selects(a, ns, x);
    var y :| StableOrder(ranks, y) && Selects(b, ns, y);
    StableOrderPrefix(ranks, x, y, |x|);
    StableOrderPrefix(ranks, y, x, |y|);
    assert x == x[..|x|] && y == y[..|y|];
  }

  lemma {:induction false} StableOrderPrefix(ranks: seq<int>, x: seq<int>, y: seq<int>, k: nat)
    requires StableOrder(ranks, x) && StableOrder(ranks, y) && k <= |x|
    ensures k <= |y| && x[..k] == y[..k]
  {
    if k > 0 {
      StableOrderPrefix(ranks, x, y, k - 1);
      var n := k - 1;
      NoEarlier(ranks, x, y, n);
      NoEarlier(ranks, y, x, n);
      var m :| n <= m < |y| && y[m] == x[n];
      var l :| n <= l < |x| && x[l] == y[n];
      assert x[n] == y[n];
      assert x[..k] == x[..n] + [x[n]] && y[..k] == y[..n] + [y[n]];
    }
  }

  /** With equal beginnings, the next entry of one order is at or after the same place in the other. */
  lemma {:induction false} NoEarlier(ranks: seq<int>, x: seq<int>, y: seq<int>, n: nat)
    requires StableOrder(ranks, x) && StableOrder(ranks, y) && n < |x| && n <= |y| && x[..n] == y[..n]
    ensures n < |y| && exists m :: n <= m < |y| && y[m] == x[n]
  {
    assert x[n] in y;
    var m :| 0 <= m < |y| && y[m] == x[n];
    assert forall j :: 0 <= j < n ==> y[j] == y[..n][j] == x[..n][j] == x[j];
    assert forall j :: 0 <= j < n ==> Before(ranks, x[j], x[n]);
    assert m >= n;
  }

  //// The retry loop

  /** An error text and what the code reads into it. */
  datatype CallError = CallError(text: string, notFound: bool, connectivity: bool)

  datatype Reply = Value(value: Option<string>) | Failure(error: CallError)

  const UNKNOWN_ERROR := CallError("KMS call failed with unknown error", false, false)

  /** The nodes called when nothing succeeds: every round visits every candidate in order. */
  function Schedule<U>(urls: seq<U>, rounds: nat): seq<U> {
    if rounds == 0 then [] else Schedule(urls, rounds - 1) + urls
  }

  lemma {:induction false} ScheduleLength<U>(urls: seq<U>, rounds: nat)
    ensures |Schedule(urls, rounds)| == rounds * |urls|
  {
    if rounds > 0 {
      ScheduleLength(urls, rounds - 1);
      assert rounds * |urls| == (rounds - 1) * |urls| + |urls|;
    }
  }

  const DEFAULT_KMS_MAX_ATTEMPTS: nat := 3

  lemma {:induction false} CallBudget<U>(urls: seq<U>, calls: seq<U>)
    requires calls <= Schedule(urls, DEFAULT_KMS_MAX_ATTEMPTS)
    ensures |calls| <= 3 * |urls|
  {
    ScheduleLength(urls, 3);
  }

  lemma {:induction false} SchedulePrefix<U>(urls: seq<U>, a: nat, b: nat)
    requires a <= b
    ensures Schedule(urls, a) <= Schedule(urls, b)
  {
    if a < b {
      SchedulePrefix(urls, a, b - 1);
    }
  }

  /** The reachability report a reply gives rise to, if any. */
  function ReportOf<U>(url: U, r: Reply): seq<(U, bool)> {
    match r
    case Value(_) => [(url, true)]
    case Failure(e) => if e.connectivity then [(url, false)] else []
  }

  function Reports<U>(calls: seq<U>, reply: nat -> Reply): seq<(U, bool)> {
    if calls == [] then []
    else Reports(calls[..|calls| - 1], reply) + ReportOf(calls[|calls| - 1], reply(|calls| - 1))
  }

  lemma {:induction false} ReportsSnoc<U>(calls: seq<U>, url: U, reply: nat -> Reply)
    ensures Reports(calls + [url], reply) == Reports(calls, reply) + ReportOf(url, reply(|calls|))
  {
    assert (calls + [url])[..|calls|] == calls;
  }

  /** A node is reported up exactly for an answer, and down exactly for a failure to connect. */
  lemma {:induction false} ReportsMean<U>(calls: seq<U>, reply: nat -> Reply, url: U)
    ensures (url, true) in Reports(calls, reply) <==>
              exists k: nat :: k < |calls| && calls[k] == url && reply(k).Value?
    ensures (url, false) in Reports(calls, reply) <==>
              exists k: nat :: k < |calls| && calls[k] == url && reply(k).Failure? && reply(k).error.connectivity
  {
    if calls != [] {
      var n := |calls| - 1;
      ReportsMean(calls[..n], reply, url);
      assert forall k :: 0 <= k < n ==> calls[..n][k] == calls[k];
      assert reply(n).Value? || reply(n).Failure?;
    }
  }

  /** Every round of the schedule goes through the candidates in order. */
  lemma {:induction false} ScheduleMeans<U>(urls: seq<U>, rounds: nat, q: nat, r: nat)
    requires q < rounds && r < |urls|
    ensures q * |urls| + r < |Schedule(urls, rounds)| == rounds * |urls|
    ensures Schedule(urls, rounds)[q * |urls| + r] == urls[r]
  {
    ScheduleLength(urls, rounds);
    ScheduleLength(urls, rounds - 1);
    if q < rounds - 1 { ScheduleMeans(urls, rounds - 1, q, r); }
  }

  ghost predicate FirstNotFound(reply: nat -> Reply, n: nat, k: nat) {
    && k < n && reply(k).Failure? && reply(k).error.notFound
    && forall j :: 0 <= j < k ==> reply(j).Failure? && !reply(j).error.notFound
  }

  ghost predicate AllFailed(reply: nat -> Reply, n: nat) {
    forall j :: 0 <= j < n ==> reply(j).Failure?
  }

  ghost predicate NoneNotFound(reply: nat -> Reply, n: nat) {
    forall j :: 0 <= j < n ==> reply(j).Failure? && !reply(j).error.notFound
  }

  /** All calls failed; the first not-found error is preferred, otherwise the last error counts. */
  ghost predicate ReportedError(reply: nat -> Reply, n: nat, error: CallError) {
    && AllFailed(reply, n)
    && (forall k :: FirstNotFound(reply, n, k) ==> error == reply(k).error)
    && (NoneNotFound(reply, n) && n > 0 ==> error == reply(n - 1).error)
    && (n == 0 ==> error == CallError("KMS call failed with unknown error", false, false))
  }

  /** What the loop remembers while every call fails. */
  ghost predicate ErrorOf(reply: nat -> Reply, n: nat, notFound: Option<CallError>, last: Option<CallError>) {
    && AllFailed(reply, n)
    && (last == if n == 0 then None else Some(reply(n - 1).error))
    && (notFound.None? ==> NoneNotFound(reply, n))
    && (notFound.Some? ==> exists k :: FirstNotFound(reply, n, k) && notFound.value == reply(k).error)
  }

  /**
   * Call the candidates in order, at most `maxRetries` rounds. `reply(k)` is what the network does
   * with the k-th call.
   */
  method CallKms<U>(urls: seq<U>, maxRetries: nat, reply: nat -> Reply)
    returns (r: Result<Option<string>, CallError>, calls: seq<U>, reports: seq<(U, bool)>)
    ensures calls <= Schedule(urls, maxRetries)
    ensures reports == Reports(calls, reply)
    ensures r.Ok? ==> calls != [] && AllFailed(reply, |calls| - 1) && reply(|calls| - 1) == Value(r.value)
    ensures r.Err? ==> calls == Schedule(urls, maxRetries) && ReportedError(reply, |calls|, r.error)
  {
    calls, reports := [], [];
    var last, notFound: Option<CallError> := None, None;
    var attempt := 0;
    assert calls == Schedule(urls, 0) && reports == Reports(calls, reply);
    NothingYet(reply);
    hide *;
    while attempt < maxRetries
      invariant 0 <= attempt <= maxRetries
      invariant calls == Schedule(urls, attempt) && reports == Reports(calls, reply)
      invariant ErrorOf(reply, |calls|, notFound, last)
    {
      var done, n;
      WithinSchedule(urls, attempt, maxRetries);
      done, n, calls, reports, last, notFound := CallRound(urls, reply, calls, reports, last, notFound);
      if done.Some? {
        return Ok(done.value), calls, reports;
      }
      attempt := attempt + 1;
    }
    FailedSoFar(reply, |calls|, notFound, last);
    r := Err(Preferred(notFound, last));
  }

  /** One round over the candidates; `n` of them were called. */
  method CallRound<U>(urls: seq<U>, reply: nat -> Reply, before: seq<U>, reported: seq<(U, bool)>,
                      lastBefore: Option<CallError>, notFoundBefore: Option<CallError>)
    returns (done: Option<Option<string>>, n: nat, calls: seq<U>, reports: seq<(U, bool)>,
             last: Option<CallError>, notFound: Option<CallError>)
    requires reported == Reports(before, reply) && ErrorOf(reply, |before|, notFoundBefore, lastBefore)
    ensures n <= |urls| && calls == before + urls[..n] && reports == Reports(calls, reply)
    ensures done.None? ==> n == |urls| && calls == before + urls && ErrorOf(reply, |calls|, notFound, last)
    ensures done.Some? ==> n > 0 && AllFailed(reply, |calls| - 1) && reply(|calls| - 1) == Value(done.value)
  {
    calls, reports, last, notFound := before, reported, lastBefore, notFoundBefore;
    hide *;
    n := 0;
    while n < |urls|
      invariant 0 <= n <= |urls|
      invariant calls == before + urls[..n] && reports == Reports(calls, reply)
      invariant ErrorOf(reply, |calls|, notFound, last)
    {
      var k := |calls|;
      ReportsSnoc(calls, urls[n], reply);
      calls := calls + [urls[n]];
      reports := reports + ReportOf(urls[n], reply(k));
      n := n + 1;
      match reply(k) {
        case Value(v) =>
          FailedSoFar(reply, k, notFound, last);
          return Some(v), n, calls, reports, last, notFound;
        case Failure(e) =>
          RecordFailure(reply, k, notFound, last);
          if e.notFound && notFound.None? {
            notFound := Some(e);
          }
          last := Some(e);
      }
    }
    assert urls[..n] == urls;
    done := None;
  }

  function Preferred(notFound: Option<CallError>, last: Option<CallError>): CallError {
    if notFound.Some? then notFound.value else if last.Some? then last.value else UNKNOWN_ERROR
  }

  lemma {:induction false} RecordFailure(
    reply: nat -> Reply, n: nat, notFound: Option<CallError>, last: Option<CallError>)
    requires ErrorOf(reply, n, notFound, last) && reply(n).Failure?
    ensures var e := reply(n).error;
            ErrorOf(reply, n + 1, if notFound.None? && e.notFound then Some(e) else notFound, Some(e))
  {
    var e := reply(n).error;
    if notFound.Some? {
      var k :| FirstNotFound(reply, n, k) && notFound.value == reply(k).error;
      assert FirstNotFound(reply, n + 1, k);
    } else if e.notFound {
      assert FirstNotFound(reply, n + 1, n);
    }
  }

  lemma {:induction false} NothingYet(reply: nat -> Reply)
    ensures ErrorOf(reply, 0, None, None)
  {
  }

  lemma {:induction false} FailedSoFar(
    reply: nat -> Reply, n: nat, notFound: Option<CallError>, last: Option<CallError>)
    requires ErrorOf(reply, n, notFound, last)
    ensures AllFailed(reply, n) && ReportedError(reply, n, Preferred(notFound, last))
  {
    if notFound.Some? {
      var k :| FirstNotFound(reply, n, k) && notFound.value == reply(k).error;
      assert forall j :: FirstNotFound(reply, n, j) ==> j == k;
    }
  }

  lemma {:induction false} WithinSchedule<U>(urls: seq<U>, rounds: nat, maxRounds: nat)
    requires rounds < maxRounds
    ensures Schedule(urls, rounds + 1) == Schedule(urls, rounds) + urls
    ensures forall n :: 0 <= n <= |urls| ==> Schedule(urls, rounds) + urls[..n] <= Schedule(urls, maxRounds)
  {
    SchedulePrefix(urls, rounds + 1, maxRounds);
    forall n | 0 <= n <= |urls|
      ensures Schedule(urls, rounds) + urls[..n] <= Schedule(urls, rounds + 1)
    {
    }
  }

  /**
   * Reading a key gives "absent" exactly when the answering node had no value, or when no node
   * answered and at least one said not found.
   */
  method KvGet<U>(urls: seq<U>, maxRetries: nat, reply: nat -> Reply)
    returns (r: Result<Option<string>, CallError>, calls: seq<U>)
    ensures calls <= Schedule(urls, maxRetries)
    ensures r == Ok(None) <==>
            || (calls != [] && AllFailed(reply, |calls| - 1) && reply(|calls| - 1) == Value(None))
            || (exists k :: FirstNotFound(reply, |calls|, k) && AllFailed(reply, |calls|))
    ensures r.Ok? && r.value.Some? ==> calls != [] && reply(|calls| - 1) == Value(r.value)
    ensures r.Err? ==> calls == Schedule(urls, maxRetries) && NoneNotFound(reply, |calls|)
  {
    var res, reports;
    res, calls, reports := CallKms(urls, maxRetries, reply);
    if res.Err? && res.error.notFound {
      r := Ok(None);
    } else {
      r := res;
    }
    if res.Err? {
      NotFoundOrNone(reply, |calls|);
    }
  }

  lemma {:induction false} NotFoundOrNone(reply: nat -> Reply, n: nat)
    requires AllFailed(reply, n)
    ensures NoneNotFound(reply, n) || exists k :: FirstNotFound(reply, n, k)
  {
    if n > 0 {
      NotFoundOrNone(reply, n - 1);
      if NoneNotFound(reply, n - 1) {
        if reply(n - 1).error.notFound { assert FirstNotFound(reply, n, n - 1); }
      } else {
        var k :| FirstNotFound(reply, n - 1, k);
        assert FirstNotFound(reply, n, k);
      }
    }
  }
}
