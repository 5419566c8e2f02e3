/**
 * What the start-up of an enclave asks of the host, and what its results mean in terms of the
 * answers: which services are tried in which order, when another CID is tried, and why it gives up.
 */
module EnclaveStartup {
  import opened Bytes
  import opened RuntimeVsock
  import opened EnclaveHost

  datatype Mount = Mount(present: bool, required: bool)

  datatype Manifest = Manifest(egress: bool, mounts: seq<Mount>, clockSync: bool, ingress: seq<nat>)

  /** Every mount fits the port block, and the required ones are there. */
  ghost predicate Startable(m: Manifest) {
    |m.mounts| <= HOSTFS_CAPACITY && forall i :: 0 <= i < |m.mounts| ==> m.mounts[i].present || !m.mounts[i].required
  }

  //// Services of one attempt

  /** A port to listen on, or a reason to give up on the spot. */
  datatype Want = Port(port: nat) | Refusal

  /** A mount needs a port even if it is absent; absent it is skipped, unless it is required. */
  function MountWant(ports: HostPorts, mount: Mount, index: nat): seq<Want> {
    if MountPort(ports, index).None? then [Refusal]
    else if mount.present then [Port(MountPort(ports, index).value)]
    else if mount.required then [Refusal]
    else []
  }

  function MountWants(ports: HostPorts, mounts: seq<Mount>): seq<Want> {
    if mounts == [] then []
    else MountWants(ports, mounts[..|mounts| - 1]) + MountWant(ports, mounts[|mounts| - 1], |mounts| - 1)
  }

  function EgressWants(m: Manifest, ports: HostPorts): seq<Want> { if m.egress then [Port(ports.egress)] else [] }

  function ClockWants(m: Manifest, ports: HostPorts): seq<Want> { if m.clockSync then [Port(ports.clockSync)] else [] }

  function ServiceWants(m: Manifest, ports: HostPorts): seq<Want> {
    EgressWants(m, ports) + MountWants(ports, m.mounts) + ClockWants(m, ports)
  }

  function IngressWants(ports: seq<nat>): seq<Want> {
    if ports == [] then [] else IngressWants(ports[..|ports| - 1]) + [Port(ports[|ports| - 1])]
  }

  /** The ports were tried in order; the first that could not be had, or a refusal, ended it. */
  ghost predicate Went(wants: seq<Want>, calls: seq<HostCall>, r: Start)
    decreases |wants|
  {
    if wants == [] then calls == [] && r == Up
    else if wants[0].Refusal? then calls == [] && r == StartFailed
    else
      && calls != [] && calls[0].Bound? && calls[0].port == wants[0].port
      && if calls[0].result.Up? then Went(wants[1..], calls[1..], r) else |calls| == 1 && r == calls[0].result
  }

  lemma {:induction false} WentOn(a: seq<Want>, s: seq<HostCall>, b: seq<Want>, t: seq<HostCall>, r: Start)
    requires Went(a, s, Up) && Went(b, t, r)
    ensures Went(a + b, s + t, r)
    decreases |a|
  {
    if a == [] {
      assert a + b == b && s + t == t;
    } else {
      WentOn(a[1..], s[1..], b, t, r);
      assert (a + b)[1..] == a[1..] + b && (s + t)[1..] == s[1..] + t;
    }
  }

  lemma {:induction false} WentWrong(a: seq<Want>, s: seq<HostCall>, b: seq<Want>, r: Start)
    requires Went(a, s, r) && r != Up
    ensures Went(a + b, s, r)
    decreases |a|
  {
    if a[0].Port? && s[0].result.Up? {
      WentWrong(a[1..], s[1..], b, r);
      assert (a + b)[1..] == a[1..] + b;
    }
  }

  lemma {:induction false} WentOne(port: nat, r: Start)
    ensures Went([Port(port)], [Bound(port, r)], r)
  {
    if r.Up? { assert Went([Port(port)][1..], [Bound(port, r)][1..], Up); }
  }

  /** If it went well, exactly the wanted ports were bound and nothing was refused. */
  lemma {:induction false} WentUp(wants: seq<Want>, calls: seq<HostCall>)
    requires Went(wants, calls, Up)
    ensures |calls| == |wants|
    ensures forall i :: 0 <= i < |wants| ==> wants[i].Port? && calls[i] == Bound(wants[i].port, Up)
    decreases |wants|
  {
    if wants != [] {
      WentUp(wants[1..], calls[1..]);
      assert forall i :: 1 <= i < |wants| ==> wants[i] == wants[1..][i - 1] && calls[i] == calls[1..][i - 1];
    }
  }

  /** Every port that these calls got is being listened on. */
  ghost predicate HeldAll(calls: seq<HostCall>, live: map<nat, Option<nat>>) {
    forall i :: 0 <= i < |calls| && calls[i].Bound? && calls[i].result.Up? ==> Listening(live, calls[i].port)
  }

  /**
   * One attempt. In the last one a clock port in use is done without; the clock comes last, so that
   * is when every port was tried and the last one was in use.
   */
  ghost predicate Served(m: Manifest, ports: HostPorts, last: bool, calls: seq<HostCall>, r: Start) {
    var wants := ServiceWants(m, ports);
    if Degraded(m, ports, last, calls) then r == Up else Went(wants, calls, r)
  }

  ghost predicate Degraded(m: Manifest, ports: HostPorts, last: bool, calls: seq<HostCall>) {
    last && m.clockSync && |calls| == |ServiceWants(m, ports)| && Went(ServiceWants(m, ports), calls, AddrInUse)
  }

  /** Stopped by a port in use: everything before it was bound. */
  lemma {:induction false} WentInUse(wants: seq<Want>, calls: seq<HostCall>)
    requires Went(wants, calls, AddrInUse)
    ensures 0 < |calls| <= |wants|
    ensures forall i :: 0 <= i < |calls| - 1 ==> wants[i].Port? && calls[i] == Bound(wants[i].port, Up)
    ensures wants[|calls| - 1].Port? && calls[|calls| - 1] == Bound(wants[|calls| - 1].port, AddrInUse)
    decreases |wants|
  {
    if calls[0].result.Up? {
      WentInUse(wants[1..], calls[1..]);
      assert forall i :: 1 <= i < |calls| ==> wants[i] == wants[1..][i - 1] && calls[i] == calls[1..][i - 1];
    }
  }

  /** A mount that is served is among the wanted ports, and one that must be refused is a refusal. */
  lemma {:induction false} MountWanted(ports: HostPorts, mounts: seq<Mount>, i: nat)
    requires i < |mounts|
    ensures mounts[i].present && MountPort(ports, i).Some? ==>
              Port(MountPort(ports, i).value) in MountWants(ports, mounts)
    ensures MountPort(ports, i).None? || (!mounts[i].present && mounts[i].required) ==>
              Refusal in MountWants(ports, mounts)
  {
    var n := |mounts| - 1;
    if i < n { MountWanted(ports, mounts[..n], i); }
  }

  /** What a runtime that is up offers; only a clock port that was in use may be missing. */
  ghost predicate RuntimeUp(m: Manifest, ports: HostPorts, calls: seq<HostCall>, live: map<nat, Option<nat>>) {
    && (m.egress ==> Listening(live, ports.egress))
    && (forall i :: 0 <= i < |m.mounts| ==> MountUp(ports, m.mounts[i], i, live))
    && (m.clockSync ==> Listening(live, ports.clockSync) || Bound(ports.clockSync, AddrInUse) in calls)
  }

  ghost predicate MountUp(ports: HostPorts, mount: Mount, index: nat, live: map<nat, Option<nat>>) {
    && MountPort(ports, index).Some? && (mount.required ==> mount.present)
    && (mount.present ==> Listening(live, MountPort(ports, index).value))
  }

  ghost predicate GotFirst(wants: seq<Want>, calls: seq<HostCall>, n: nat) {
    n <= |wants| && n <= |calls| && forall i :: 0 <= i < n ==> wants[i].Port? && calls[i] == Bound(wants[i].port, Up)
  }

  lemma {:induction false} GotListens(
    wants: seq<Want>, calls: seq<HostCall>, n: nat, live: map<nat, Option<nat>>, i: nat)
    requires GotFirst(wants, calls, n) && HeldAll(calls, live) && i < n
    ensures wants[i].Port? && Listening(live, wants[i].port)
  {
  }

  lemma {:induction false} MountsListen(
    m: Manifest, ports: HostPorts, calls: seq<HostCall>, n: nat, live: map<nat, Option<nat>>, i: nat)
    requires GotFirst(ServiceWants(m, ports), calls, n) && HeldAll(calls, live) && i < |m.mounts|
    requires n >= |EgressWants(m, ports)| + |MountWants(ports, m.mounts)|
    ensures MountUp(ports, m.mounts[i], i, live)
  {
    var e, w := |EgressWants(m, ports)|, MountWants(ports, m.mounts);
    MountWanted(ports, m.mounts, i);
    hide GotFirst, HeldAll, Listening, MountWants;
    forall k | 0 <= k < |w|
      ensures w[k].Port? && Listening(live, w[k].port)
    {
      assert ServiceWants(m, ports)[e + k] == w[k];
      GotListens(ServiceWants(m, ports), calls, n, live, e + k);
    }
  }

  /** Every wanted port is being listened on, except perhaps a clock port in use in the last attempt. */
  lemma {:induction false} ServedListens(
    m: Manifest, ports: HostPorts, last: bool, calls: seq<HostCall>, live: map<nat, Option<nat>>)
    requires Served(m, ports, last, calls, Up) && HeldAll(calls, live)
    ensures RuntimeUp(m, ports, calls, live)
    ensures m.clockSync && !last ==> Listening(live, ports.clockSync)
  {
    var wants := ServiceWants(m, ports);
    var n := |wants|;
    if Degraded(m, ports, last, calls) {
      WentInUse(wants, calls);
      n := n - 1;
    } else {
      WentUp(wants, calls);
    }
    assert GotFirst(wants, calls, n);
    hide GotFirst, HeldAll, Listening, MountWants, Went, MountUp;
    forall i | 0 <= i < |m.mounts|
      ensures MountUp(ports, m.mounts[i], i, live)
    {
      MountsListen(m, ports, calls, n, live, i);
    }
    if m.egress {
      assert wants[0] == Port(ports.egress);
      GotListens(wants, calls, n, live, 0);
    }
    if m.clockSync {
      assert wants[|wants| - 1] == Port(ports.clockSync);
      if n == |wants| { GotListens(wants, calls, n, live, n - 1); }
    }
  }

  //// Attempts with one CID after the other

  /** Why no runtime could be prepared. */
  datatype PrepareError = DescribeFailed | NoFreeCid | ServiceFailed | BindsExhausted

  /** The CIDs in use when it began, the ports it went for, the calls it made and what came of it. */
  datatype Try = Try(used: set<nat>, ports: HostPorts, calls: seq<HostCall>, outcome: Start)

  ghost function TriedCids(tries: seq<Try>): set<nat> {
    if tries == [] then {} else TriedCids(tries[..|tries| - 1]) + {tries[|tries| - 1].ports.cid}
  }

  ghost function TryCalls(tries: seq<Try>): seq<HostCall> {
    if tries == [] then []
    else
      var t := tries[|tries| - 1];
      TryCalls(tries[..|tries| - 1]) + ([Described(Some(t.used))] + t.calls)
  }

  predicate LeastFree(cid: nat, used: set<nat>) {
    && MANAGED_CID_START <= cid <= MANAGED_CID_END && cid !in used
    && forall c :: MANAGED_CID_START <= c < cid ==> c in used
  }

  lemma {:induction false} LeastFreeIsOne(c: nat, d: nat, used: set<nat>)
    requires LeastFree(c, used) && LeastFree(d, used)
    ensures c == d && 16 <= c <= 4096
  {
  }

  lemma {:induction false} LeastFreeIsManaged(cid: nat, used: set<nat>)
    requires LeastFree(cid, used)
    ensures MANAGED_CID_START <= cid <= MANAGED_CID_END
  {
  }

  ghost predicate Collided(tries: seq<Try>) { tries == [] || tries[|tries| - 1].outcome.AddrInUse? }

  /** Each try is for the least CID that is free and untried, and follows a collision. */
  ghost predicate Tries(m: Manifest, rejected: set<nat>, tries: seq<Try>)
    decreases |tries|
  {
    tries == [] ||
    var before, t := tries[..|tries| - 1], tries[|tries| - 1];
    && Tries(m, rejected, before) && Collided(before)
    && LeastFree(t.ports.cid, t.used + rejected + TriedCids(before)) && ForCid(t.ports.cid) == Some(t.ports)
    && Served(m, t.ports, |tries| == 16, t.calls, t.outcome)
  }

  /** How a preparation ends: with a try that went well, or for exactly one of four reasons. */
  ghost predicate Prepared(
    m: Manifest, rejected: set<nat>, tries: seq<Try>, calls: seq<HostCall>, r: Result<HostPorts, PrepareError>)
  {
    && Tries(m, rejected, tries) && |tries| <= 16
    && match r
       case Ok(ports) =>
         && tries != [] && tries[|tries| - 1].outcome.Up? && tries[|tries| - 1].ports == ports
         && calls == TryCalls(tries)
       case Err(ServiceFailed) => tries != [] && tries[|tries| - 1].outcome.StartFailed? && calls == TryCalls(tries)
       case Err(BindsExhausted) => |tries| == 16 && Collided(tries) && calls == TryCalls(tries)
       case Err(DescribeFailed) =>
         |tries| < 16 && Collided(tries) && calls == TryCalls(tries) + [Described(None)]
       case Err(NoFreeCid) =>
         |tries| < 16 && Collided(tries) &&
         exists used: set<nat> ::
           && calls == TryCalls(tries) + [Described(Some(used))]
           && forall c :: MANAGED_CID_START <= c <= MANAGED_CID_END ==> c in used + rejected + TriedCids(tries)
  }

  lemma {:induction false} TryAt(m: Manifest, rejected: set<nat>, tries: seq<Try>, i: nat)
    requires Tries(m, rejected, tries) && i < |tries|
    ensures var cid := tries[i].ports.cid;
            MANAGED_CID_START <= cid <= MANAGED_CID_END && cid !in rejected && cid in TriedCids(tries)
  {
    hide Served;
    var n := |tries| - 1;
    if i < n {
      TryAt(m, rejected, tries[..n], i);
      assert tries[..n][i] == tries[i];
    }
  }

  lemma {:induction false} TryPair(m: Manifest, rejected: set<nat>, tries: seq<Try>, i: nat, j: nat)
    requires Tries(m, rejected, tries) && i < j < |tries|
    ensures tries[i].ports.cid != tries[j].ports.cid
  {
    hide Served;
    var n := |tries| - 1;
    assert tries[..n][i] == tries[i];
    if j < n {
      TryPair(m, rejected, tries[..n], i, j);
      assert tries[..n][j] == tries[j];
    } else {
      TryAt(m, rejected, tries[..n], i);
    }
  }

  /** The CIDs tried are managed, all different and none of them was rejected before. */
  lemma {:induction false} TriesDiffer(m: Manifest, rejected: set<nat>, tries: seq<Try>)
    requires Tries(m, rejected, tries)
    ensures forall i :: 0 <= i < |tries| ==>
              var cid := tries[i].ports.cid;
              MANAGED_CID_START <= cid <= MANAGED_CID_END && cid !in rejected && cid in TriedCids(tries)
    ensures forall i, j :: 0 <= i < j < |tries| ==> tries[i].ports.cid != tries[j].ports.cid
  {
    hide Tries, TriedCids;
    forall i | 0 <= i < |tries|
      ensures var cid := tries[i].ports.cid;
              MANAGED_CID_START <= cid <= MANAGED_CID_END && cid !in rejected && cid in TriedCids(tries)
    {
      TryAt(m, rejected, tries, i);
    }
    forall i, j | 0 <= i < j < |tries|
      ensures tries[i].ports.cid != tries[j].ports.cid
    {
      TryPair(m, rejected, tries, i, j);
    }
  }

  //// Launches with one CID after the other

  datatype Round = Round(tries: seq<Try>, calls: seq<HostCall>, ports: HostPorts, result: Launch)

  ghost function ConflictCids(rounds: seq<Round>): set<nat> {
    if rounds == [] then {} else ConflictCids(rounds[..|rounds| - 1]) + {rounds[|rounds| - 1].ports.cid}
  }

  ghost function RoundCalls(rounds: seq<Round>): seq<HostCall> {
    if rounds == [] then [] else RoundCalls(rounds[..|rounds| - 1]) + rounds[|rounds| - 1].calls
  }

  ghost function RoundLaunches(rounds: seq<Round>): (ls: seq<LaunchCall>)
    ensures |ls| == |rounds|
  {
    if rounds == [] then []
    else
      var r := rounds[|rounds| - 1];
      RoundLaunches(rounds[..|rounds| - 1]) + [LaunchCall(r.ports.cid, r.result)]
  }

  ghost predicate Conflicted(rounds: seq<Round>) { rounds == [] || rounds[|rounds| - 1].result.CidConflict? }

  /** Each round prepares a runtime on a CID no earlier launch conflicted on, and follows a conflict. */
  ghost predicate Rounds(m: Manifest, rounds: seq<Round>)
    decreases |rounds|
  {
    rounds == [] ||
    var before, r := rounds[..|rounds| - 1], rounds[|rounds| - 1];
    && Rounds(m, before) && Conflicted(before)
    && Prepared(m, ConflictCids(before), r.tries, r.calls, Ok(r.ports))
  }

  /** All launches but the last one were conflicts, and each was on a CID of its own. */
  ghost predicate Retried(ls: seq<LaunchCall>) {
    && |ls| <= 8
    && (forall i :: 0 <= i < |ls| - 1 ==> ls[i].result.CidConflict?)
    && (forall i, j :: 0 <= i < j < |ls| ==> ls[i].cid != ls[j].cid)
    && (forall i :: 0 <= i < |ls| ==> MANAGED_CID_START <= ls[i].cid <= MANAGED_CID_END)
  }

  lemma {:induction false} OneMoreLaunch(ls: seq<LaunchCall>, l: LaunchCall)
    requires Retried(ls) && |ls| < 8 && (ls != [] ==> ls[|ls| - 1].result.CidConflict?)
    requires MANAGED_CID_START <= l.cid <= MANAGED_CID_END && forall i :: 0 <= i < |ls| ==> ls[i].cid != l.cid
    ensures Retried(ls + [l])
  {
  }

  lemma {:induction false} RoundsRetry(m: Manifest, rounds: seq<Round>)
    requires Rounds(m, rounds) && |rounds| <= 8
    ensures Retried(RoundLaunches(rounds))
    ensures rounds != [] ==> RoundLaunches(rounds)[|rounds| - 1].result == rounds[|rounds| - 1].result
    ensures forall i :: 0 <= i < |rounds| ==> RoundLaunches(rounds)[i].cid in ConflictCids(rounds)
  {
    if rounds != [] {
      var before, r := rounds[..|rounds| - 1], rounds[|rounds| - 1];
      var ls, l := RoundLaunches(before), LaunchCall(r.ports.cid, r.result);
      assert RoundLaunches(rounds) == ls + [l] && ConflictCids(rounds) == ConflictCids(before) + {r.ports.cid};
      assert Prepared(m, ConflictCids(before), r.tries, r.calls, Ok(r.ports)) && Conflicted(before);
      hide Rounds, RoundLaunches, ConflictCids, Retried;
      RoundsRetry(m, before);
      TriesDiffer(m, ConflictCids(before), r.tries);
      OneMoreLaunch(ls, l);
    }
  }

  //// Recording an attempt step by step

  lemma {:induction false} WentNowhere()
    ensures Went([], [], Up)
  {
  }

  lemma {:induction false} NoMounts(ports: HostPorts)
    ensures Went(MountWants(ports, []), [], Up)
  {
  }

  lemma {:induction false} MountWantsNext(ports: HostPorts, mounts: seq<Mount>, index: nat)
    requires index < |mounts|
    ensures MountWants(ports, mounts[..index + 1])
            == MountWants(ports, mounts[..index]) + MountWant(ports, mounts[index], index)
  {
    assert mounts[..index + 1][..index] == mounts[..index];
  }

  /** What is wanted for the first mounts is the beginning of what is wanted for all. */
  lemma {:induction false} MountWantsPrefix(ports: HostPorts, mounts: seq<Mount>, n: nat) returns (rest: seq<Want>)
    requires n <= |mounts|
    ensures MountWants(ports, mounts) == MountWants(ports, mounts[..n]) + rest
    decreases |mounts|
  {
    if n == |mounts| {
      assert mounts[..n] == mounts;
      rest := [];
    } else {
      var before := mounts[..|mounts| - 1];
      rest := MountWantsPrefix(ports, before, n);
      assert before[..n] == mounts[..n];
      rest := rest + MountWant(ports, mounts[|mounts| - 1], |mounts| - 1);
    }
  }

  lemma {:induction false} RefusedMount(ports: HostPorts, mounts: seq<Mount>, index: nat, calls: seq<HostCall>)
    requires index < |mounts| && Went(MountWants(ports, mounts[..index]), calls, Up)
    requires MountWant(ports, mounts[index], index) == [Refusal]
    ensures Went(MountWants(ports, mounts), calls, StartFailed)
  {
    hide MountWants;
    assert Went([Refusal], [], StartFailed);
    NextMount(ports, mounts, index, calls, [], StartFailed);
    assert calls + [] == calls;
  }

  lemma {:induction false} NextMount(
    ports: HostPorts, mounts: seq<Mount>, index: nat, calls: seq<HostCall>, call: seq<HostCall>, r: Start)
    requires index < |mounts| && Went(MountWants(ports, mounts[..index]), calls, Up)
    requires Went(MountWant(ports, mounts[index], index), call, r)
    ensures Went(MountWants(ports, mounts[..index + 1]), calls + call, r)
    ensures r != Up ==> Went(MountWants(ports, mounts), calls + call, r)
  {
    hide Went, MountWants;
    MountWantsNext(ports, mounts, index);
    WentOn(MountWants(ports, mounts[..index]), calls, MountWant(ports, mounts[index], index), call, r);
    if r != Up {
      var rest := MountWantsPrefix(ports, mounts, index + 1);
      WentWrong(MountWants(ports, mounts[..index + 1]), calls + call, rest, r);
    }
  }

  lemma {:induction false} WentLength(wants: seq<Want>, calls: seq<HostCall>, r: Start)
    requires Went(wants, calls, r)
    ensures |calls| <= |wants|
    decreases |wants|
  {
    if calls != [] && calls[0].result.Up? { WentLength(wants[1..], calls[1..], r); }
  }

  /** The calls determine the outcome. */
  lemma {:induction false} WentOnce(wants: seq<Want>, calls: seq<HostCall>, r: Start, q: Start)
    requires Went(wants, calls, r) && Went(wants, calls, q)
    ensures r == q
    decreases |wants|
  {
    if calls != [] && calls[0].result.Up? { WentOnce(wants[1..], calls[1..], r, q); }
  }

  lemma {:induction false} EgressFailed(m: Manifest, ports: HostPorts, last: bool, egress: seq<HostCall>, r: Start)
    requires Went(EgressWants(m, ports), egress, r) && r != Up
    ensures Served(m, ports, last, egress, r)
  {
    var rest := MountWants(ports, m.mounts) + ClockWants(m, ports);
    WentLength(EgressWants(m, ports), egress, r);
    WentWrong(EgressWants(m, ports), egress, rest, r);
    hide Went, MountWants;
    assert ServiceWants(m, ports) == EgressWants(m, ports) + rest;
  }

  lemma {:induction false} MountsFailed(
    m: Manifest, ports: HostPorts, last: bool, egress: seq<HostCall>, mounts: seq<HostCall>, r: Start)
    requires Went(EgressWants(m, ports), egress, Up) && Went(MountWants(ports, m.mounts), mounts, r) && r != Up
    ensures Served(m, ports, last, egress + mounts, r)
  {
    hide Went, MountWants;
    var first := EgressWants(m, ports) + MountWants(ports, m.mounts);
    WentOn(EgressWants(m, ports), egress, MountWants(ports, m.mounts), mounts, r);
    WentLength(first, egress + mounts, r);
    WentWrong(first, egress + mounts, ClockWants(m, ports), r);
  }

  lemma {:induction false} ClockTried(
    m: Manifest, ports: HostPorts, last: bool,
    egress: seq<HostCall>, mounts: seq<HostCall>, clock: seq<HostCall>, met: Start)
    requires Went(EgressWants(m, ports), egress, Up) && Went(MountWants(ports, m.mounts), mounts, Up)
    requires Went(ClockWants(m, ports), clock, met)
    ensures Served(m, ports, last, egress + mounts + clock, if met.AddrInUse? && last then Up else met)
  {
    var first := EgressWants(m, ports) + MountWants(ports, m.mounts);
    assert met.AddrInUse? ==> m.clockSync && |clock| == 1;
    hide Went, MountWants;
    WentOn(EgressWants(m, ports), egress, MountWants(ports, m.mounts), mounts, Up);
    WentOn(first, egress + mounts, ClockWants(m, ports), clock, met);
    WentUp(first, egress + mounts);
    if Went(ServiceWants(m, ports), egress + mounts + clock, AddrInUse) {
      WentOnce(ServiceWants(m, ports), egress + mounts + clock, met, AddrInUse);
    }
  }

  lemma {:induction false} NoIngress()
    ensures Went(IngressWants([]), [], Up)
  {
  }

  lemma {:induction false} IngressWantsPrefix(ports: seq<nat>, n: nat) returns (rest: seq<Want>)
    requires n <= |ports|
    ensures IngressWants(ports) == IngressWants(ports[..n]) + rest
    decreases |ports|
  {
    if n == |ports| {
      assert ports[..n] == ports;
      rest := [];
    } else {
      var before := ports[..|ports| - 1];
      rest := IngressWantsPrefix(before, n);
      assert before[..n] == ports[..n];
      rest := rest + [Port(ports[|ports| - 1])];
    }
  }

  lemma {:induction false} NextIngress(ports: seq<nat>, i: nat, calls: seq<HostCall>, r: Start)
    requires i < |ports| && Went(IngressWants(ports[..i]), calls, Up)
    ensures Went(IngressWants(ports[..i + 1]), calls + [Bound(ports[i], r)], r)
    ensures r != Up ==> Went(IngressWants(ports), calls + [Bound(ports[i], r)], r)
  {
    assert ports[..i + 1][..i] == ports[..i];
    assert IngressWants(ports[..i + 1]) == IngressWants(ports[..i]) + [Port(ports[i])];
    hide Went, IngressWants;
    WentOne(ports[i], r);
    WentOn(IngressWants(ports[..i]), calls, [Port(ports[i])], [Bound(ports[i], r)], r);
    if r != Up {
      var rest := IngressWantsPrefix(ports, i + 1);
      WentWrong(IngressWants(ports[..i + 1]), calls + [Bound(ports[i], r)], rest, r);
    }
  }

  //// Recording attempts and rounds

  /** The record went from `before` to `now` by these calls. */
  ghost predicate Logged(before: seq<HostCall>, calls: seq<HostCall>, now: seq<HostCall>) { now == before + calls }

  /** Excluded from selection are the CIDs rejected before and those tried already. */
  ghost predicate Excluding(unavailable: set<nat>, rejected: set<nat>, tries: seq<Try>) {
    unavailable == rejected + TriedCids(tries)
  }

  lemma {:induction false} ExcludingMore(
    unavailable: set<nat>, rejected: set<nat>, tries: seq<Try>, next: seq<Try>, cid: nat)
    requires Excluding(unavailable, rejected, tries) && TriedCids(next) == TriedCids(tries) + {cid}
    ensures Excluding(unavailable + {cid}, rejected, next)
  {
  }

  lemma {:induction false} NoTries(m: Manifest, rejected: set<nat>)
    ensures Tries(m, rejected, []) && TryCalls([]) == [] && TriedCids([]) == {}
  {
  }

  lemma {:induction false} OneMoreTry(m: Manifest, rejected: set<nat>, tries: seq<Try>, t: Try)
    requires Tries(m, rejected, tries) && Collided(tries) && ForCid(t.ports.cid) == Some(t.ports)
    requires LeastFree(t.ports.cid, t.used + (rejected + TriedCids(tries)))
    requires Served(m, t.ports, |tries| + 1 == 16, t.calls, t.outcome)
    ensures Tries(m, rejected, tries + [t])
    ensures TryCalls(tries + [t]) == TryCalls(tries) + ([Described(Some(t.used))] + t.calls)
    ensures TriedCids(tries + [t]) == TriedCids(tries) + {t.ports.cid}
  {
    assert (tries + [t])[..|tries|] == tries;
    assert t.used + (rejected + TriedCids(tries)) == t.used + rejected + TriedCids(tries);
    hide Served;
  }

  lemma {:induction false} NotSelected(
    m: Manifest, rejected: set<nat>, tries: seq<Try>, calls: seq<HostCall>, used: Option<set<nat>>, e: PrepareError)
    requires Tries(m, rejected, tries) && Collided(tries) && |tries| < 16
    requires calls == TryCalls(tries) + [Described(used)]
    requires if e.DescribeFailed? then used.None?
             else e.NoFreeCid? && used.Some? && forall c ::
                    MANAGED_CID_START <= c <= MANAGED_CID_END ==> c in used.value + (rejected + TriedCids(tries))
    ensures Prepared(m, rejected, tries, calls, Err(e))
  {
    if used.Some? { assert used.value + (rejected + TriedCids(tries)) == used.value + rejected + TriedCids(tries); }
  }

  /** The last try decides: its ports, its failure, or the end of the attempts. */
  lemma {:induction false} PreparedBy(m: Manifest, rejected: set<nat>, tries: seq<Try>)
    requires Tries(m, rejected, tries) && 0 < |tries| <= 16
    ensures match tries[|tries| - 1].outcome
            case Up => Prepared(m, rejected, tries, TryCalls(tries), Ok(tries[|tries| - 1].ports))
            case StartFailed => Prepared(m, rejected, tries, TryCalls(tries), Err(ServiceFailed))
            case AddrInUse =>
              |tries| == 16 ==> Prepared(m, rejected, tries, TryCalls(tries), Err(BindsExhausted))
  {
    hide Tries, TryCalls;
  }

  lemma {:induction false} TryListens(m: Manifest, rejected: set<nat>, tries: seq<Try>, live: map<nat, Option<nat>>)
    requires Tries(m, rejected, tries) && tries != []
    requires tries[|tries| - 1].outcome.Up? && HeldAll(tries[|tries| - 1].calls, live)
    ensures var t := tries[|tries| - 1];
            && RuntimeUp(m, t.ports, t.calls, live)
            && (m.clockSync && |tries| < 16 ==> Listening(live, t.ports.clockSync))
  {
    var t := tries[|tries| - 1];
    hide Served, RuntimeUp, Listening, HeldAll;
    ServedListens(m, t.ports, |tries| == 16, t.calls, live);
  }

  lemma {:induction false} NoRounds(m: Manifest)
    ensures Rounds(m, []) && RoundCalls([]) == [] && RoundLaunches([]) == [] && ConflictCids([]) == {}
  {
  }

  lemma {:induction false} NoConflictCids(rounds: seq<Round>)
    ensures rounds == [] ==> ConflictCids(rounds) == {}
  {
  }

  lemma {:induction false} OneMoreRound(m: Manifest, rounds: seq<Round>, r: Round)
    requires Rounds(m, rounds) && Conflicted(rounds) && Prepared(m, ConflictCids(rounds), r.tries, r.calls, Ok(r.ports))
    ensures Rounds(m, rounds + [r]) && RoundCalls(rounds + [r]) == RoundCalls(rounds) + r.calls
    ensures RoundLaunches(rounds + [r]) == RoundLaunches(rounds) + [LaunchCall(r.ports.cid, r.result)]
    ensures ConflictCids(rounds + [r]) == ConflictCids(rounds) + {r.ports.cid} && r.ports.cid !in ConflictCids(rounds)
  {
    TriesDiffer(m, ConflictCids(rounds), r.tries);
    assert r.ports.cid !in ConflictCids(rounds);
    hide Prepared;
    assert (rounds + [r])[..|rounds|] == rounds;
  }
}
