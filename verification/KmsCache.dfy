/**
 * The node discovery cache under concurrency. Any number of tasks refresh in the background,
 * discover in the foreground or report reachability; registry calls, probes and clock reads sit
 * between reading and overwriting the cache. Each step below is one atomic action of one task. The
 * clock is wall time assumed not to go backwards.
 */
module KmsCache {
  import opened Bytes
  import opened KmsNodes

  datatype Task =
    | Idle
      // background refresh
    | RefreshStarted(start: nat)
    | RefreshSnapped(start: nat, snapshot: Option<Entry>)
    | RefreshProbing(nodes: seq<Node>, next: nat)
    | RefreshMarking(nodes: seq<Node>, next: nat, outcome: Probe, expiresAt: nat)
    | RefreshSwapping(nodes: seq<Node>, swapNow: nat)
      // foreground discovery
    | DiscoverStarted(start: nat)
    | DiscoverWaiting
    | DiscoverLocked
    | DiscoverRechecking(start: nat)
    | DiscoverFetching(start: nat)
    | DiscoverWriting(start: nat, nodes: seq<Node>)
    | DiscoverReturned(nodes: seq<Node>)
      // report of a call's outcome
    | Reporting(url: Url, outcome: Probe, expiresAt: nat)

  datatype Probe = Probe(reachable: bool, httpStatus: Option<nat>, error: Option<string>)

  datatype Event =
    | Tick(elapsed: nat)
    | StartRefresh
    | ReadSnapshot
    | RegistryReply(nodes: Option<seq<Node>>)
    | Probed(outcome: Probe)
    | Mark
    | ReadSwapClock
    | Swap
    | StartDiscovery
    | CheckCache
    | TakeLock
    | ReadClock
    | WriteDiscovered
    | Report(url: Url, outcome: Probe)
    | WriteReport
    | Finish

  datatype State = State(
    now: nat,
    cache: Option<Entry>,
    tasks: map<nat, Task>,
    lock: Option<nat>,
    registry: set<seq<Node>>)

  const INIT := State(0, None, map[], None, {})

  /** How long a node list is served without asking the registry again. */
  const DISCOVERY_TTL: nat := 60_000

  function TaskOf(s: State, p: nat): Task { if p in s.tasks then s.tasks[p] else Idle }

  ghost function Put(s: State, p: nat, t: Task): State { s.(tasks := s.tasks[p := t]) }

  function Marked(o: Probe, expiresAt: nat, now: nat): Observation {
    Observation(Some(o.reachable), expiresAt, now, o.httpStatus, o.error)
  }

  /** Overwrite the observation of the first node with this URL, if it is listed. */
  function MarkUrl(ns: seq<Node>, url: Url, obs: Observation): (r: seq<Node>)
    ensures |r| == |ns|
    ensures forall i :: 0 <= i < |ns| ==> r[i] == ns[i] || (ns[i].url == url && r[i] == ns[i].(obs := obs))
  {
    if ns == [] then []
    else if ns[0].url == url then [ns[0].(obs := obs)] + ns[1..]
    else [ns[0]] + MarkUrl(ns[1..], url, obs)
  }

  /** The list is served from the cache: unexpired and not empty. */
  predicate Hit(cache: Option<Entry>, now: nat) {
    cache.Some? && now < cache.value.expiresAt && cache.value.nodes != []
  }

  /** What discovery from the registry delivers. */
  ghost predicate RegistryResult(ns: seq<Node>) {
    Ordered(ns) && forall i :: 0 <= i < |ns| ==> ns[i].obs == UNCHECKED
  }

  /** One step of task `p`; `None` if the event cannot happen now. */
  ghost function Step(s: State, p: nat, e: Event): Option<State> {
    match e
    case Tick(d) => Some(s.(now := s.now + d))
    case RegistryReply(r) =>
      if r.Some? && !RegistryResult(r.value) then None
      else OnReply(s.(registry := if r.Some? then s.registry + {r.value} else s.registry), p, r)
    case Swap => OnSwap(s, p)
    case WriteDiscovered => OnWriteDiscovered(s, p)
    case WriteReport => OnWriteReport(s, p)
    case Mark => OnMark(s, p)
    case CheckCache => OnCheckCache(s, p)
    case _ => Private(s, p, e)
  }

  /** The refreshed list replaces the live one, except where the live one knows more. */
  ghost function OnSwap(s: State, p: nat): Option<State> {
    var t := TaskOf(s, p);
    if !t.RefreshSwapping? then None
    else
      var merged := MergeRefreshed(t.nodes, s.cache, t.swapNow);
      Some(Put(s, p, Idle).(cache := Some(Entry(merged, SaturatingAdd(t.swapNow, DISCOVERY_TTL)))))
  }

  ghost function OnWriteDiscovered(s: State, p: nat): Option<State> {
    var t := TaskOf(s, p);
    if !t.DiscoverWriting? then None
    else
      var merged := MergeDiscovered(t.nodes, s.cache, t.start);
      var entry := Entry(merged, SaturatingAdd(t.start, DISCOVERY_TTL));
      Some(Put(s, p, DiscoverReturned(merged)).(cache := Some(entry), lock := None))
  }

  ghost function OnWriteReport(s: State, p: nat): Option<State> {
    var t := TaskOf(s, p);
    if !t.Reporting? then None
    else if s.cache.None? then Some(Put(s, p, Idle))
    else
      var c := s.cache.value;
      Some(Put(s, p, Idle).(cache := Some(c.(nodes := MarkUrl(c.nodes, t.url, Marked(t.outcome, t.expiresAt, s.now))))))
  }

  ghost function OnMark(s: State, p: nat): Option<State> {
    var t := TaskOf(s, p);
    if !t.RefreshMarking? || t.next >= |t.nodes| then None
    else
      var marked := t.nodes[t.next].(obs := Marked(t.outcome, t.expiresAt, s.now));
      Some(Put(s, p, RefreshProbing(t.nodes[t.next := marked], t.next + 1)))
  }

  /** Serve from the cache, before or after taking the lock, or go on. */
  ghost function OnCheckCache(s: State, p: nat): Option<State> {
    var t := TaskOf(s, p);
    if t.DiscoverStarted? then
      Some(Put(s, p, if Hit(s.cache, t.start) then DiscoverReturned(CachedNodes(s.cache)) else DiscoverWaiting))
    else if t.DiscoverRechecking? then
      if Hit(s.cache, t.start) then Some(Put(s, p, DiscoverReturned(CachedNodes(s.cache))).(lock := None))
      else Some(Put(s, p, DiscoverFetching(t.start)))
    else None
  }

  /** Steps that only change the task itself, or take the lock. */
  ghost function Private(s: State, p: nat, e: Event): Option<State> {
    var t := TaskOf(s, p);
    if t.Idle? && e.StartRefresh? then Some(Put(s, p, RefreshStarted(s.now)))
    else if t.RefreshStarted? && e.ReadSnapshot? then Some(Put(s, p, RefreshSnapped(t.start, s.cache)))
    else if t.RefreshProbing? && e.Probed? && t.next < |t.nodes| then
      Some(Put(s, p, RefreshMarking(t.nodes, t.next, e.outcome, SaturatingAdd(s.now, Ttl(e.outcome.reachable)))))
    else if t.RefreshProbing? && e.ReadSwapClock? && t.next == |t.nodes| then
      Some(Put(s, p, RefreshSwapping(t.nodes, s.now)))
    else if t.Idle? && e.StartDiscovery? then Some(Put(s, p, DiscoverStarted(s.now)))
    else if t.DiscoverWaiting? && e.TakeLock? && s.lock.None? then Some(Put(s, p, DiscoverLocked).(lock := Some(p)))
    else if t.DiscoverLocked? && e.ReadClock? then Some(Put(s, p, DiscoverRechecking(s.now)))
    else if t.Idle? && e.Report? then
      Some(Put(s, p, Reporting(e.url, e.outcome, SaturatingAdd(s.now, Ttl(e.outcome.reachable)))))
    else if t.DiscoverReturned? && e.Finish? then Some(Put(s, p, Idle))
    else None
  }

  /** The registry answered a refresh or a discovery; the result is already recorded. */
  ghost function OnReply(s: State, p: nat, r: Option<seq<Node>>): Option<State> {
    match TaskOf(s, p)
    case RefreshSnapped(t, snapshot) =>
      if r.None? then Some(Put(s, p, Idle))
      else if r.value == [] then Some(Put(s, p, RefreshProbing(CachedNodes(snapshot), 0)))
      else Some(Put(s, p, RefreshProbing(MergeDiscovered(r.value, snapshot, t), 0)))
    case DiscoverFetching(t) =>
      if r.None? || r.value == [] then Some(Put(s, p, Idle).(lock := None))
      else Some(Put(s, p, DiscoverWriting(t, r.value)))
    case _ => None
  }

  ghost function Run(s: State, trace: seq<(nat, Event)>): Option<State>
    decreases trace
  {
    if trace == [] then Some(s)
    else match Step(s, trace[0].0, trace[0].1)
      case None => None
      case Some(t) => Run(t, trace[1..])
  }

  /** A run takes its steps one after the other. */
  lemma {:induction false} RunSnoc(s: State, trace: seq<(nat, Event)>, p: nat, e: Event)
    requires Run(s, trace).Some?
    ensures Run(s, trace + [(p, e)]) == Step(Run(s, trace).value, p, e)
    decreases trace
  {
    hide Step;
    if trace == [] {
      assert trace + [(p, e)] == [(p, e)] && [(p, e)][1..] == [];
    } else {
      assert (trace + [(p, e)])[1..] == trace[1..] + [(p, e)];
      RunSnoc(Step(s, trace[0].0, trace[0].1).value, trace[1..], p, e);
    }
  }

  //// The invariant

  /** An observation was made in the past and is not trusted beyond its last check plus its TTL. */
  ghost predicate Sound(o: Observation, now: nat) {
    if o.reachable.None? then o == UNCHECKED
    else o.lastChecked <= now && o.expiresAt <= o.lastChecked + Ttl(o.reachable.value)
  }

  ghost predicate AllSound(ns: seq<Node>, now: nat) {
    forall i :: 0 <= i < |ns| ==> Sound(ns[i].obs, now)
  }

  /** The whole list, wallet by wallet, URL by URL and key by key, is one registry result. */
  ghost predicate FromRegistry(ns: seq<Node>, registry: set<seq<Node>>) {
    exists r :: r in registry && Identities(ns) == Identities(r)
  }

  ghost predicate Good(ns: seq<Node>, s: State) {
    AllSound(ns, s.now) && FromRegistry(ns, s.registry)
  }

  ghost predicate GoodEntry(e: Option<Entry>, s: State) {
    e.Some? ==> Good(e.value.nodes, s)
  }

  predicate HoldsLock(t: Task) {
    t.DiscoverLocked? || t.DiscoverRechecking? || t.DiscoverFetching? || t.DiscoverWriting?
  }

  ghost predicate TaskOk(s: State, t: Task) {
    match t
    case RefreshStarted(start) => start <= s.now
    case RefreshSnapped(start, snapshot) => start <= s.now && GoodEntry(snapshot, s)
    case RefreshProbing(ns, k) => Good(ns, s) && k <= |ns| && Checked(ns, k)
    case RefreshMarking(ns, k, o, x) => Good(ns, s) && k < |ns| && Checked(ns, k) && x <= s.now + Ttl(o.reachable)
    case RefreshSwapping(ns, t) => Good(ns, s) && Checked(ns, |ns|) && t <= s.now
    case DiscoverStarted(start) => start <= s.now
    case DiscoverRechecking(start) => start <= s.now
    case DiscoverFetching(start) => start <= s.now
    case DiscoverWriting(start, ns) => start <= s.now && Good(ns, s) && ns != []
    case DiscoverReturned(ns) => Good(ns, s) && ns != []
    case Reporting(url, o, x) => x <= s.now + Ttl(o.reachable)
    case _ => true
  }

  ghost predicate Checked(ns: seq<Node>, k: nat)
    requires k <= |ns|
  {
    forall i :: 0 <= i < k ==> ns[i].obs.reachable.Some?
  }

  ghost predicate Inv(s: State) {
    && (forall r :: r in s.registry ==> Ordered(r))
    && GoodEntry(s.cache, s)
    && (forall p :: p in s.tasks ==> TaskOk(s, s.tasks[p]))
    && (forall p :: p in s.tasks && HoldsLock(s.tasks[p]) ==> s.lock == Some(p))
  }

  //// Preservation

  /** Time passing and new registry results keep everything good. */
  lemma {:induction false} GoodLater(ns: seq<Node>, s: State, t: State)
    requires Good(ns, s) && s.now <= t.now && s.registry <= t.registry
    ensures Good(ns, t)
  {
    var r :| r in s.registry && Identities(ns) == Identities(r);
    assert r in t.registry;
  }

  lemma {:induction false} TaskLater(task: Task, s: State, t: State)
    requires TaskOk(s, task) && s.now <= t.now && s.registry <= t.registry
    ensures TaskOk(t, task)
  {
    match task
    case RefreshSnapped(_, snapshot) => if snapshot.Some? { GoodLater(snapshot.value.nodes, s, t); }
    case RefreshProbing(ns, _) => GoodLater(ns, s, t);
    case RefreshMarking(ns, _, _, _) => GoodLater(ns, s, t);
    case RefreshSwapping(ns, _) => GoodLater(ns, s, t);
    case DiscoverWriting(_, ns) => GoodLater(ns, s, t);
    case DiscoverReturned(ns) => GoodLater(ns, s, t);
    case _ =>
  }

  lemma {:induction false} InvLater(s: State, t: State)
    requires Inv(s) && s.now <= t.now && s.registry <= t.registry
    requires t == s.(now := t.now, registry := t.registry)
    requires forall r :: r in t.registry ==> Ordered(r)
    ensures Inv(t)
  {
    if s.cache.Some? { GoodLater(s.cache.value.nodes, s, t); }
    forall p | p in t.tasks ensures TaskOk(t, t.tasks[p]) { TaskLater(s.tasks[p], s, t); }
  }

  /** Replacing one task's state and the cache by good ones. */
  lemma {:induction false} InvUpdate(s: State, p: nat, task: Task, cache: Option<Entry>, lock: Option<nat>)
    requires Inv(s) && TaskOk(s, task) && GoodEntry(cache, s)
    requires HoldsLock(task) ==> lock == Some(p)
    requires lock == s.lock || s.lock.None? || s.lock == Some(p)
    ensures Inv(Put(s, p, task).(cache := cache, lock := lock))
  {
    var t := Put(s, p, task).(cache := cache, lock := lock);
    if cache.Some? { GoodLater(cache.value.nodes, s, t); }
    forall q | q in t.tasks
      ensures TaskOk(t, t.tasks[q])
    {
      TaskLater(t.tasks[q], s, t);
    }
  }

  lemma {:induction false} MergedGood(ns: seq<Node>, live: Option<Entry>, t: nat, s: State)
    requires Good(ns, s) && GoodEntry(live, s)
    ensures Good(MergeDiscovered(ns, live, t), s) && Good(MergeRefreshed(ns, live, t), s)
    ensures Checked(ns, |ns|) ==> Checked(MergeRefreshed(ns, live, t), |ns|)
  {
    forall n | n in CachedNodes(live)
      ensures Sound(n.obs, s.now)
    {
    }
  }

  lemma {:induction false} MarkUrlGood(ns: seq<Node>, url: Url, obs: Observation, s: State)
    requires Good(ns, s) && Sound(obs, s.now)
    ensures Good(MarkUrl(ns, url, obs), s)
  {
    assert Identities(MarkUrl(ns, url, obs)) == Identities(ns);
  }

  lemma {:induction false} MarkedGood(ns: seq<Node>, k: nat, obs: Observation, s: State)
    requires Good(ns, s) && k < |ns| && Sound(obs, s.now)
    ensures Good(ns[k := ns[k].(obs := obs)], s)
  {
    assert Identities(ns[k := ns[k].(obs := obs)]) == Identities(ns);
  }

  lemma {:induction false} ReplyKeepsInv(s: State, p: nat, r: Option<seq<Node>>)
    requires Inv(s) && Step(s, p, RegistryReply(r)).Some?
    ensures Inv(Step(s, p, RegistryReply(r)).value)
  {
    var t := s.(registry := if r.Some? then s.registry + {r.value} else s.registry);
    InvLater(s, t);
    var task := TaskOf(t, p);
    if r.Some? {
      assert r.value in t.registry;
      assert Good(r.value, t);
    }
    match task
    case RefreshSnapped(start, snapshot) =>
      if r.None? {
        InvUpdate(t, p, Idle, t.cache, t.lock);
      } else if r.value == [] {
        if snapshot.None? { assert Identities([]) == Identities(r.value); }
        InvUpdate(t, p, RefreshProbing(CachedNodes(snapshot), 0), t.cache, t.lock);
      } else {
        MergedGood(r.value, snapshot, start, t);
        InvUpdate(t, p, RefreshProbing(MergeDiscovered(r.value, snapshot, start), 0), t.cache, t.lock);
      }
    case DiscoverFetching(start) =>
      if r.None? || r.value == [] {
        InvUpdate(t, p, Idle, t.cache, None);
      } else {
        InvUpdate(t, p, DiscoverWriting(start, r.value), t.cache, t.lock);
      }
    case _ =>
  }

  lemma {:induction false} WriteKeepsInv(s: State, p: nat, e: Event)
    requires Inv(s) && (e.Swap? || e.WriteDiscovered?) && Step(s, p, e).Some?
    ensures Inv(Step(s, p, e).value)
  {
    var t := TaskOf(s, p);
    if e.Swap? {
      MergedGood(t.nodes, s.cache, t.swapNow, s);
      var merged := MergeRefreshed(t.nodes, s.cache, t.swapNow);
      InvUpdate(s, p, Idle, Some(Entry(merged, SaturatingAdd(t.swapNow, DISCOVERY_TTL))), s.lock);
    } else {
      MergedGood(t.nodes, s.cache, t.start, s);
      var merged := MergeDiscovered(t.nodes, s.cache, t.start);
      InvUpdate(s, p, DiscoverReturned(merged), Some(Entry(merged, SaturatingAdd(t.start, DISCOVERY_TTL))), None);
    }
  }

  lemma {:induction false} MarkKeepsInv(s: State, p: nat)
    requires Inv(s) && OnMark(s, p).Some?
    ensures Inv(OnMark(s, p).value)
  {
    var t := TaskOf(s, p);
    var obs := Marked(t.outcome, t.expiresAt, s.now);
    MarkedGood(t.nodes, t.next, obs, s);
    InvUpdate(s, p, RefreshProbing(t.nodes[t.next := t.nodes[t.next].(obs := obs)], t.next + 1), s.cache, s.lock);
  }

  lemma {:induction false} ReportKeepsInv(s: State, p: nat)
    requires Inv(s) && OnWriteReport(s, p).Some?
    ensures Inv(OnWriteReport(s, p).value)
  {
    var t := TaskOf(s, p);
    if s.cache.Some? {
      var obs := Marked(t.outcome, t.expiresAt, s.now);
      var c := s.cache.value;
      MarkUrlGood(c.nodes, t.url, obs, s);
      InvUpdate(s, p, Idle, Some(c.(nodes := MarkUrl(c.nodes, t.url, obs))), s.lock);
    } else {
      InvUpdate(s, p, Idle, s.cache, s.lock);
    }
  }

  lemma {:induction false} PrivateKeepsInv(s: State, p: nat, e: Event)
    requires Inv(s) && Private(s, p, e).Some?
    ensures Inv(Private(s, p, e).value) && Private(s, p, e).value.cache == s.cache
  {
    var t := Private(s, p, e).value;
    InvUpdate(s, p, t.tasks[p], s.cache, t.lock);
  }

  lemma {:induction false} CheckKeepsInv(s: State, p: nat)
    requires Inv(s) && OnCheckCache(s, p).Some?
    ensures Inv(OnCheckCache(s, p).value)
  {
    var t := OnCheckCache(s, p).value;
    InvUpdate(s, p, t.tasks[p], s.cache, t.lock);
  }

  /** Every step of every task keeps the invariant. */
  lemma {:induction false} StepKeepsInv(s: State, p: nat, e: Event)
    requires Inv(s) && Step(s, p, e).Some?
    ensures Inv(Step(s, p, e).value)
  {
    hide Private, OnMark, OnWriteReport, OnCheckCache, Good;
    match e
    case Tick(d) => InvLater(s, s.(now := s.now + d));
    case RegistryReply(r) => ReplyKeepsInv(s, p, r);
    case Swap => WriteKeepsInv(s, p, e);
    case WriteDiscovered => WriteKeepsInv(s, p, e);
    case WriteReport => ReportKeepsInv(s, p);
    case Mark => MarkKeepsInv(s, p);
    case CheckCache => CheckKeepsInv(s, p);
    case _ => PrivateKeepsInv(s, p, e);
  }

  /** Reachable states of every interleaving satisfy the invariant. */
  lemma {:induction false} RunKeepsInv(s: State, trace: seq<(nat, Event)>)
    requires Inv(s) && Run(s, trace).Some?
    ensures Inv(Run(s, trace).value)
    decreases trace
  {
    if trace != [] {
      StepKeepsInv(s, trace[0].0, trace[0].1);
      RunKeepsInv(Step(s, trace[0].0, trace[0].1).value, trace[1..]);
    }
  }

  /** A list a caller may trust: distinct sorted URLs, one registry result, no reading past its TTL. */
  ghost predicate Trustworthy(ns: seq<Node>, s: State) {
    && Ordered(ns) && FromRegistry(ns, s.registry)
    && forall i :: 0 <= i < |ns| && Fresh(ns[i].obs, s.now) ==>
         var o := ns[i].obs; o.lastChecked <= s.now < o.lastChecked + Ttl(o.reachable.value)
  }

  lemma {:induction false} GoodIsTrustworthy(ns: seq<Node>, s: State)
    requires Inv(s) && Good(ns, s)
    ensures Trustworthy(ns, s)
  {
    var r :| r in s.registry && Identities(ns) == Identities(r);
    OrderedByIdentity(ns, r);
  }

  /**
   * In every state that any interleaving can reach: in the cache and in every list handed to a caller
   * the URLs are distinct and sorted, the listed identities are those of one registry result, and no
   * observation is trusted past its last check plus its TTL; lists handed out are not empty, and at
   * most one foreground discovery is past the lock.
   */
  lemma {:induction false} CacheSafety(trace: seq<(nat, Event)>)
    requires Run(INIT, trace).Some?
    ensures var s := Run(INIT, trace).value;
            && (s.cache.Some? ==> Trustworthy(s.cache.value.nodes, s))
            && (forall p :: p in s.tasks && s.tasks[p].DiscoverReturned? ==>
                  s.tasks[p].nodes != [] && Trustworthy(s.tasks[p].nodes, s))
            && (forall p, q ::
                  p in s.tasks && q in s.tasks && HoldsLock(s.tasks[p]) && HoldsLock(s.tasks[q]) ==> p == q)
  {
    RunKeepsInv(INIT, trace);
    var s := Run(INIT, trace).value;
    if s.cache.Some? { GoodIsTrustworthy(s.cache.value.nodes, s); }
    forall p | p in s.tasks && s.tasks[p].DiscoverReturned?
      ensures s.tasks[p].nodes != [] && Trustworthy(s.tasks[p].nodes, s)
    {
      assert TaskOk(s, s.tasks[p]);
      GoodIsTrustworthy(s.tasks[p].nodes, s);
    }
  }

  //// Observations are only replaced by later ones

  ghost function CachedObs(s: State, url: Url): Option<Observation> {
    match Lookup(CachedNodes(s.cache), url)
    case Some(n) => Some(n.obs)
    case None => None
  }

  lemma {:induction false} LookupUnique(ns: seq<Node>, i: nat)
    requires Ordered(ns) && i < |ns|
    ensures Lookup(ns, ns[i].url) == Some(ns[i])
  {
    var r := Lookup(ns, ns[i].url);
    assert ns[i] in ns;
    assert r.Some?;
    var j :| 0 <= j < |ns| && ns[j] == r.value;
    assert j == i;
  }

  lemma {:induction false} CacheOrdered(s: State)
    requires Inv(s)
    ensures Ordered(CachedNodes(s.cache))
  {
    if s.cache.Some? {
      var r :| r in s.registry && Identities(s.cache.value.nodes) == Identities(r);
      OrderedByIdentity(s.cache.value.nodes, r);
    }
  }

  /**
   * No step replaces a fresh observation by an older one: afterwards the URL is off the list, or its
   * observation is the same, or it comes from a check at least as late.
   */
  lemma {:induction false} FreshIsNotLost(s: State, p: nat, e: Event, url: Url)
    requires Inv(s) && Step(s, p, e).Some?
    requires CachedObs(s, url).Some? && Fresh(CachedObs(s, url).value, s.now)
    ensures var before, after := CachedObs(s, url).value, CachedObs(Step(s, p, e).value, url);
            after.None? || after.value == before
            || (after.value.reachable.Some? && after.value.lastChecked >= before.lastChecked)
  {
    if e.WriteReport? { assert TaskOf(s, p).Reporting?; }
    hide Inv, Fresh, OnSwap, OnWriteDiscovered, OnWriteReport, OnMark, OnCheckCache, OnReply, Private, CachedObs;
    match e
    case Swap => SwapKeepsFresh(s, p, url);
    case WriteDiscovered => DiscoveryKeepsFresh(s, p, url);
    case WriteReport => ReportKeepsFresh(s, p, url);
    case _ =>
      CacheUntouched(s, p, e);
      SameCache(s, Step(s, p, e).value, url);
  }

  lemma {:induction false} SameCache(s: State, t: State, url: Url)
    requires s.cache == t.cache
    ensures CachedObs(s, url) == CachedObs(t, url)
  {
  }

  lemma {:induction false} SwapKeepsFresh(s: State, p: nat, url: Url)
    requires Inv(s) && OnSwap(s, p).Some?
    requires CachedObs(s, url).Some? && Fresh(CachedObs(s, url).value, s.now)
    ensures var before, after := CachedObs(s, url).value, CachedObs(OnSwap(s, p).value, url);
            after.None? || after.value == before
            || (after.value.reachable.Some? && after.value.lastChecked >= before.lastChecked)
  {
    var t := TaskOf(s, p);
    assert TaskOk(s, t);
    hide Inv, Lookup, Good;
    SwapReplaces(t.nodes, s.cache, t.swapNow, s.now, url);
  }

  lemma {:induction false} DiscoveryKeepsFresh(s: State, p: nat, url: Url)
    requires Inv(s) && OnWriteDiscovered(s, p).Some?
    requires CachedObs(s, url).Some? && Fresh(CachedObs(s, url).value, s.now)
    ensures var after := CachedObs(OnWriteDiscovered(s, p).value, url);
            after.None? || after.value == CachedObs(s, url).value
  {
    var t := TaskOf(s, p);
    assert TaskOk(s, t);
    hide Inv, Lookup, Good;
    DiscoverReplaces(t.nodes, s.cache, t.start, s.now, url);
  }

  lemma {:induction false} ReportKeepsFresh(s: State, p: nat, url: Url)
    requires Inv(s) && TaskOf(s, p).Reporting? && CachedObs(s, url).Some?
    ensures var before, after := CachedObs(s, url).value, CachedObs(OnWriteReport(s, p).value, url);
            after == Some(before)
            || (after.Some? && after.value.reachable.Some? && after.value.lastChecked >= before.lastChecked)
  {
    ReportWritten(s, p, url);
    PastCheck(s, url);
    hide Inv, Lookup, OnWriteReport;
  }

  lemma {:induction false} PastCheck(s: State, url: Url)
    requires Inv(s) && Lookup(CachedNodes(s.cache), url).Some?
    ensures Lookup(CachedNodes(s.cache), url).value.obs.lastChecked <= s.now
  {
    var ns := CachedNodes(s.cache);
    var i :| 0 <= i < |ns| && ns[i] == Lookup(ns, url).value;
    assert Sound(ns[i].obs, s.now);
  }

  lemma {:induction false} CacheUntouched(s: State, p: nat, e: Event)
    requires Inv(s) && Step(s, p, e).Some? && !e.Swap? && !e.WriteDiscovered? && !e.WriteReport?
    ensures Step(s, p, e).value.cache == s.cache
  {
    if !e.RegistryReply? && !e.Tick? && !e.Mark? && !e.CheckCache? {
      PrivateKeepsInv(s, p, e);
    }
  }

  lemma {:induction false} SwapReplaces(ns: seq<Node>, live: Option<Entry>, t: nat, now: nat, url: Url)
    requires Checked(ns, |ns|) && t <= now
    requires Lookup(CachedNodes(live), url).Some? && Fresh(Lookup(CachedNodes(live), url).value.obs, now)
    ensures var before := Lookup(CachedNodes(live), url).value.obs;
            var after := Lookup(MergeRefreshed(ns, live, t), url);
            after.Some? ==>
              || after.value.obs == before
              || (after.value.obs.reachable.Some? && after.value.obs.lastChecked >= before.lastChecked)
  {
    var merged := MergeRefreshed(ns, live, t);
    var after := Lookup(merged, url);
    if after.Some? {
      var i :| 0 <= i < |merged| && merged[i] == after.value;
      assert merged[i] == KeepLater(ns[i], CachedNodes(live), t);
    }
  }

  lemma {:induction false} DiscoverReplaces(ns: seq<Node>, live: Option<Entry>, t: nat, now: nat, url: Url)
    requires t <= now
    requires Lookup(CachedNodes(live), url).Some? && Fresh(Lookup(CachedNodes(live), url).value.obs, now)
    ensures var after := Lookup(MergeDiscovered(ns, live, t), url);
            after.Some? ==> after.value.obs == Lookup(CachedNodes(live), url).value.obs
  {
    var merged := MergeDiscovered(ns, live, t);
    var after := Lookup(merged, url);
    if after.Some? {
      var i :| 0 <= i < |merged| && merged[i] == after.value;
      assert merged[i] == KeepCached(ns[i], CachedNodes(live), t);
    }
  }

  //// Observations take effect

  lemma {:induction false} MarkHits(ns: seq<Node>, url: Url, obs: Observation, i: nat)
    requires i < |ns| && ns[i].url == url && forall j :: 0 <= j < i ==> ns[j].url != url
    ensures MarkUrl(ns, url, obs)[i] == ns[i].(obs := obs)
  {
    if i > 0 { MarkHits(ns[1..], url, obs, i - 1); }
  }

  lemma {:induction false} MarkedLookup(ns: seq<Node>, target: Url, obs: Observation, url: Url)
    requires Ordered(ns) && Lookup(ns, url).Some?
    ensures var n := Lookup(ns, url).value;
            Lookup(MarkUrl(ns, target, obs), url) == Some(if url == target then n.(obs := obs) else n)
  {
    var marked := MarkUrl(ns, target, obs);
    var i :| 0 <= i < |ns| && ns[i] == Lookup(ns, url).value;
    assert Identities(marked) == Identities(ns);
    OrderedByIdentity(marked, ns);
    hide Lookup, MarkUrl;
    LookupUnique(marked, i);
    if url == target { MarkHits(ns, url, obs, i); }
  }

  /** The observation records this outcome, checked now and trusted until `expiresAt`. */
  ghost predicate Records(obs: Observation, o: Probe, now: nat, expiresAt: nat) {
    && obs.reachable == Some(o.reachable) && obs.lastChecked == now && obs.expiresAt == expiresAt
    && obs.httpStatus == o.httpStatus && obs.error == o.error
  }

  /** After the report the cache says this about a listed URL. */
  ghost predicate Told(s: State, t: Task, url: Url, after: State)
    requires t.Reporting?
  {
    && CachedObs(after, url).Some?
    && (url != t.url ==> CachedObs(after, url) == CachedObs(s, url))
    && (url == t.url ==> Records(CachedObs(after, url).value, t.outcome, s.now, t.expiresAt))
  }

  lemma {:induction false} ReportWritten(s: State, p: nat, url: Url)
    requires Inv(s) && TaskOf(s, p).Reporting? && CachedObs(s, url).Some?
    ensures OnWriteReport(s, p).Some? && Told(s, TaskOf(s, p), url, OnWriteReport(s, p).value)
  {
    CacheOrdered(s);
    var t := TaskOf(s, p);
    hide Inv, Lookup, MarkUrl, Ordered, Told, Marked;
    var obs := Marked(t.outcome, t.expiresAt, s.now);
    MarkedLookup(CachedNodes(s.cache), t.url, obs, url);
    var after := OnWriteReport(s, p).value;
    assert CachedObs(after, url) == if url == t.url then Some(obs) else CachedObs(s, url);
    ToldSo(s, t, url, after);
  }

  lemma {:induction false} ToldSo(s: State, t: Task, url: Url, after: State)
    requires t.Reporting? && CachedObs(s, url).Some?
    requires CachedObs(after, url) ==
             if url == t.url then Some(Marked(t.outcome, t.expiresAt, s.now)) else CachedObs(s, url)
    ensures Told(s, t, url, after)
  {
    hide CachedObs;
  }

  /** A report on a listed URL is what the cache then says about it, and about no other URL. */
  lemma {:induction false} ReportIsVisible(s: State, p: nat, url: Url)
    requires Inv(s) && TaskOf(s, p).Reporting? && CachedObs(s, url).Some?
    ensures Step(s, p, WriteReport).Some? && Told(s, TaskOf(s, p), url, Step(s, p, WriteReport).value)
  {
    hide Inv, CachedObs, OnWriteReport, Told;
    ReportWritten(s, p, url);
  }

  /** How long an outcome is trusted from a clock reading on: thirty seconds or ten. */
  ghost predicate ExpiresFrom(expiresAt: nat, now: nat, reachable: bool) {
    now + 30_000 <= U64_MAX ==> expiresAt == now + if reachable then 30_000 else 10_000
  }

  /** A report or a probe fixes when its outcome expires by the clock at that moment. */
  lemma {:induction false} OutcomeExpires(s: State, p: nat, url: Url, o: Probe)
    ensures TaskOf(s, p).Idle? ==>
              var t := Step(s, p, Report(url, o));
              && t.Some? && TaskOf(t.value, p).Reporting? && TaskOf(t.value, p).url == url
              && TaskOf(t.value, p).outcome == o && ExpiresFrom(TaskOf(t.value, p).expiresAt, s.now, o.reachable)
    ensures TaskOf(s, p).RefreshProbing? && TaskOf(s, p).next < |TaskOf(s, p).nodes| ==>
              var t := Step(s, p, Probed(o));
              && t.Some? && TaskOf(t.value, p).RefreshMarking? && TaskOf(t.value, p).nodes == TaskOf(s, p).nodes
              && TaskOf(t.value, p).next == TaskOf(s, p).next
              && TaskOf(t.value, p).outcome == o && ExpiresFrom(TaskOf(t.value, p).expiresAt, s.now, o.reachable)
  {
  }

  /** The outcome of a probe is recorded with its node, and with no other. */
  lemma {:induction false} ProbeIsRecorded(s: State, p: nat)
    requires TaskOf(s, p).RefreshMarking? && TaskOf(s, p).next < |TaskOf(s, p).nodes|
    ensures var t, after := TaskOf(s, p), Step(s, p, Mark);
            && after.Some? && TaskOf(after.value, p).RefreshProbing? && TaskOf(after.value, p).next == t.next + 1
            && var ns := TaskOf(after.value, p).nodes;
               && |ns| == |t.nodes| && Identities(ns) == Identities(t.nodes)
               && Records(ns[t.next].obs, t.outcome, s.now, t.expiresAt)
               && forall i :: 0 <= i < |ns| && i != t.next ==> ns[i] == t.nodes[i]
  {
    var t := TaskOf(s, p);
    assert Identities(TaskOf(Step(s, p, Mark).value, p).nodes) == Identities(t.nodes);
  }

  /** A call is served the cached list exactly while it is unexpired and not empty. */
  lemma {:induction false} ServedFromCache(s: State, p: nat)
    requires TaskOf(s, p).DiscoverStarted? || TaskOf(s, p).DiscoverRechecking?
    ensures var t, after := TaskOf(s, p), Step(s, p, CheckCache);
            && after.Some? && after.value.cache == s.cache
            && (TaskOf(after.value, p).DiscoverReturned? <==>
                  s.cache.Some? && t.start < s.cache.value.expiresAt && s.cache.value.nodes != [])
            && (TaskOf(after.value, p).DiscoverReturned? ==> TaskOf(after.value, p).nodes == s.cache.value.nodes)
  {
  }

  /**
   * A discovery publishes and hands out the registry's list, trusted for a minute from its start; a
   * node keeps a cached observation unexpired by then and is unchecked otherwise.
   */
  lemma {:induction false} DiscoveryPublishes(s: State, p: nat)
    requires TaskOf(s, p).DiscoverWriting?
    ensures var t, after := TaskOf(s, p), Step(s, p, WriteDiscovered);
            && after.Some? && after.value.cache.Some? && after.value.lock == None
            && TaskOf(after.value, p) == DiscoverReturned(after.value.cache.value.nodes)
            && (t.start + 60_000 <= U64_MAX ==> after.value.cache.value.expiresAt == t.start + 60_000)
            && var ns := after.value.cache.value.nodes;
               && |ns| == |t.nodes| && Identities(ns) == Identities(t.nodes)
               && forall i :: 0 <= i < |ns| ==>
                    var old_ := CachedObs(s, ns[i].url);
                    ns[i].obs == if old_.Some? && t.start < old_.value.expiresAt then old_.value else t.nodes[i].obs
  {
    var t := TaskOf(s, p);
    var ns := MergeDiscovered(t.nodes, s.cache, t.start);
    assert forall i :: 0 <= i < |ns| ==> ns[i] == KeepCached(t.nodes[i], CachedNodes(s.cache), t.start);
    assert forall i :: 0 <= i < |ns| ==> Identities(ns)[i] == Identities(t.nodes)[i];
  }

  ghost predicate Becomes(s: State, p: nat, e: Event, task: Task, lock: Option<nat>) {
    Step(s, p, e) == Some(s.(tasks := s.tasks[p := task], lock := lock))
  }

  /** The steps a task takes by itself, and the clock readings and the snapshot it takes with it. */
  lemma {:induction false} TasksGoOn(s: State, p: nat)
    ensures match TaskOf(s, p)
            case Idle =>
              && Becomes(s, p, StartRefresh, RefreshStarted(s.now), s.lock)
              && Becomes(s, p, StartDiscovery, DiscoverStarted(s.now), s.lock)
            case RefreshStarted(start) => Becomes(s, p, ReadSnapshot, RefreshSnapped(start, s.cache), s.lock)
            case RefreshSnapped(_, _) => Becomes(s, p, RegistryReply(None), Idle, s.lock)
            case RefreshProbing(ns, k) =>
              k == |ns| ==> Becomes(s, p, ReadSwapClock, RefreshSwapping(ns, s.now), s.lock)
            case DiscoverWaiting => s.lock.None? ==> Becomes(s, p, TakeLock, DiscoverLocked, Some(p))
            case DiscoverLocked => Becomes(s, p, ReadClock, DiscoverRechecking(s.now), s.lock)
            case DiscoverReturned(_) => Becomes(s, p, Finish, Idle, s.lock)
            case DiscoverFetching(_) => Becomes(s, p, RegistryReply(None), Idle, None)
            case _ => true
  {
  }

  /** Each of these steps is one of a task in the right place, and of no other. */
  lemma {:induction false} StepsFitTasks(s: State, p: nat, e: Event)
    requires Step(s, p, e).Some?
    ensures e.StartRefresh? || e.StartDiscovery? || e.Report? ==> TaskOf(s, p).Idle?
    ensures e.ReadSnapshot? ==> TaskOf(s, p).RefreshStarted?
    ensures e.Probed? || e.ReadSwapClock? ==> TaskOf(s, p).RefreshProbing?
    ensures e.Mark? ==> TaskOf(s, p).RefreshMarking?
    ensures e.Swap? ==> TaskOf(s, p).RefreshSwapping?
    ensures e.CheckCache? ==> TaskOf(s, p).DiscoverStarted? || TaskOf(s, p).DiscoverRechecking?
    ensures e.TakeLock? ==> TaskOf(s, p).DiscoverWaiting? && s.lock.None?
    ensures e.ReadClock? ==> TaskOf(s, p).DiscoverLocked?
    ensures e.RegistryReply? ==> TaskOf(s, p).RefreshSnapped? || TaskOf(s, p).DiscoverFetching?
    ensures e.WriteDiscovered? ==> TaskOf(s, p).DiscoverWriting?
    ensures e.WriteReport? ==> TaskOf(s, p).Reporting?
    ensures e.Finish? ==> TaskOf(s, p).DiscoverReturned?
  {
  }

  /** A discovery that the registry answers: an empty list ends it, another one is to be written. */
  lemma {:induction false} DiscoveryReplies(s: State, p: nat, r: seq<Node>)
    requires TaskOf(s, p).DiscoverFetching? && RegistryResult(r)
    ensures var t := Step(s, p, RegistryReply(Some(r)));
            && t.Some? && r in t.value.registry && t.value.cache == s.cache
            && TaskOf(t.value, p) == (if r == [] then Idle else DiscoverWriting(TaskOf(s, p).start, r))
            && t.value.lock == if r == [] then None else s.lock
  {
  }

  /** A refresh works on the registry's list, or on its snapshot of the cache if that list is empty. */
  lemma {:induction false} RefreshStartsFrom(s: State, p: nat, r: seq<Node>)
    requires TaskOf(s, p).RefreshSnapped? && RegistryResult(r)
    ensures var t, after := TaskOf(s, p), Step(s, p, RegistryReply(Some(r)));
            && after.Some? && TaskOf(after.value, p).RefreshProbing? && TaskOf(after.value, p).next == 0
            && var ns := TaskOf(after.value, p).nodes;
               if r == [] then ns == CachedNodes(t.snapshot) else Identities(ns) == Identities(r)
  {
  }

  /**
   * A refresh publishes its own list: each node has a reading, the one of the refresh or one that was
   * checked later and is unexpired in the live cache.
   */
  lemma {:induction false} SwapPublishes(s: State, p: nat)
    requires Inv(s) && TaskOf(s, p).RefreshSwapping?
    ensures var t, after := TaskOf(s, p), OnSwap(s, p).value;
            && after.cache.Some? && Identities(after.cache.value.nodes) == Identities(t.nodes)
            && (t.swapNow + 60_000 <= U64_MAX ==> after.cache.value.expiresAt == t.swapNow + 60_000)
            && forall i :: 0 <= i < |t.nodes| ==>
                 && after.cache.value.nodes[i].obs.reachable.Some?
                 && after.cache.value.nodes[i].obs.lastChecked >= t.nodes[i].obs.lastChecked
                 && var live := CachedObs(s, t.nodes[i].url);
                    after.cache.value.nodes[i].obs ==
                    if && live.Some? && live.value.lastChecked > t.nodes[i].obs.lastChecked
                       && t.swapNow < live.value.expiresAt
                    then live.value else t.nodes[i].obs
  {
    var t := TaskOf(s, p);
    assert TaskOk(s, t);
    hide Inv, Good;
    var merged := MergeRefreshed(t.nodes, s.cache, t.swapNow);
    assert forall i :: 0 <= i < |t.nodes| ==> merged[i] == KeepLater(t.nodes[i], CachedNodes(s.cache), t.swapNow);
  }

  /** The trace can happen, and the URL stays listed with a fresh observation all through it. */
  ghost predicate FreshThroughout(s: State, trace: seq<(nat, Event)>, url: Url)
    decreases trace
  {
    && CachedObs(s, url).Some? && Fresh(CachedObs(s, url).value, s.now)
    && (trace != [] ==>
          match Step(s, trace[0].0, trace[0].1)
          case None => false
          case Some(t) => FreshThroughout(t, trace[1..], url))
  }

  /** Over a whole run, the last check of a URL that stays listed and fresh never moves back. */
  lemma {:induction false} LastCheckMonotone(s: State, trace: seq<(nat, Event)>, url: Url)
    requires Inv(s) && FreshThroughout(s, trace, url)
    ensures Run(s, trace).Some? && CachedObs(Run(s, trace).value, url).Some?
    ensures CachedObs(s, url).value.lastChecked <= CachedObs(Run(s, trace).value, url).value.lastChecked
    decreases trace
  {
    if trace != [] {
      var t := Step(s, trace[0].0, trace[0].1).value;
      FreshIsNotLost(s, trace[0].0, trace[0].1, url);
      StepKeepsInv(s, trace[0].0, trace[0].1);
      LastCheckMonotone(t, trace[1..], url);
    }
  }

  //// What a check says holds until it expires

  /** The trace can happen, and the URL stays listed all through it. */
  ghost predicate ListedThroughout(s: State, trace: seq<(nat, Event)>, url: Url)
    decreases trace
  {
    && CachedObs(s, url).Some?
    && (trace != [] ==>
          match Step(s, trace[0].0, trace[0].1)
          case None => false
          case Some(t) => ListedThroughout(t, trace[1..], url))
  }

  /** On the way some check at least as late replaces the observation. */
  ghost predicate Rechecked(s: State, trace: seq<(nat, Event)>, url: Url, obs: Observation)
    decreases trace
  {
    trace != [] &&
    match Step(s, trace[0].0, trace[0].1)
    case None => false
    case Some(t) =>
      || Rechecked(t, trace[1..], url, obs)
      || (match CachedObs(t, url)
          case None => false
          case Some(o) => o != obs && o.reachable.Some? && o.lastChecked >= obs.lastChecked)
  }

  lemma {:induction false} ClockRuns(s: State, trace: seq<(nat, Event)>)
    requires Run(s, trace).Some?
    ensures s.now <= Run(s, trace).value.now
    decreases trace
  {
    if trace != [] {
      var t := Step(s, trace[0].0, trace[0].1).value;
      StepClock(s, trace[0].0, trace[0].1);
      ClockRuns(t, trace[1..]);
    }
  }

  lemma {:induction false} StepClock(s: State, p: nat, e: Event)
    requires Step(s, p, e).Some?
    ensures s.now <= Step(s, p, e).value.now
  {
  }

  /** While a URL stays listed, an unexpired observation of it stays, or a check as late replaces it. */
  lemma {:induction false} ObservationHolds(s: State, trace: seq<(nat, Event)>, url: Url, obs: Observation)
    requires Inv(s) && ListedThroughout(s, trace, url) && CachedObs(s, url) == Some(obs) && obs.reachable.Some?
    ensures Run(s, trace).Some?
    ensures Run(s, trace).value.now < obs.expiresAt && !Rechecked(s, trace, url, obs) ==>
              CachedObs(Run(s, trace).value, url) == Some(obs)
    decreases trace
  {
    hide Step, Inv, CachedObs;
    if trace != [] {
      var t := Step(s, trace[0].0, trace[0].1).value;
      StepKeepsInv(s, trace[0].0, trace[0].1);
      StepClock(s, trace[0].0, trace[0].1);
      ListedRuns(t, trace[1..], url);
      ClockRuns(t, trace[1..]);
      if Run(t, trace[1..]).value.now < obs.expiresAt && !Rechecked(s, trace, url, obs) {
        FreshIsNotLost(s, trace[0].0, trace[0].1, url);
        ListedNow(t, trace[1..], url);
        ObservationHolds(t, trace[1..], url, obs);
      }
    }
  }

  lemma {:induction false} ListedNow(s: State, trace: seq<(nat, Event)>, url: Url)
    requires ListedThroughout(s, trace, url)
    ensures CachedObs(s, url).Some?
  {
  }

  lemma {:induction false} ListedRuns(s: State, trace: seq<(nat, Event)>, url: Url)
    requires ListedThroughout(s, trace, url)
    ensures Run(s, trace).Some?
    decreases trace
  {
    hide Step;
    if trace != [] { ListedRuns(Step(s, trace[0].0, trace[0].1).value, trace[1..], url); }
  }
}
