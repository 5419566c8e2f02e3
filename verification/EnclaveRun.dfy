/**
 * The life of one enclave: reserve ports, launch with retries, watch, and clean up on every way out.
 */
module EnclaveRun {
  import opened Bytes
  import opened RuntimeVsock
  import opened ExitWait
  import opened EnclaveHost
  import opened EnclaveStartup

  const BIND_RETRY_LIMIT: nat := 16
  const CONFLICT_RETRY_LIMIT: nat := 8

  datatype RunError =
    | AlreadyStarted
    | ConflictsExhausted
    | NoRuntime(reason: PrepareError)
    | FailedToStart
    | SetupFailed
    | WaitFailed
    | TerminateFailed

  class Enclave {
    const host: Host
    const manifest: Manifest
    const debugMode: bool
    var enclaveInfo: Option<Info>
    var runtimeVsock: Option<HostPorts>
    var debugConsole: bool
    var tasks: seq<nat>

    constructor (host: Host, manifest: Manifest, debugMode: bool)
      requires host.Valid() && host.scene == NOTHING
      ensures this.host == host && this.manifest == manifest && this.debugMode == debugMode
      ensures Valid() && Quiet() && enclaveInfo.None?
    {
      this.host, this.manifest, this.debugMode := host, manifest, debugMode;
      enclaveInfo, runtimeVsock, debugConsole, tasks := None, None, false, [];
    }

    /** Every task that is running is held; the console handle is held from opening to the stop. */
    ghost predicate Valid()
      reads this, host
    {
      && host.Valid()
      && (forall t :: t in host.scene.live ==> t in tasks)
      && (debugConsole <==> host.scene.attached && host.scene.stop == None)
    }

    /** Nothing tracked is left: no task, so no listener and no port, and no handle. */
    ghost predicate Quiet()
      reads this, host
    {
      tasks == [] && host.scene.live == map[] && !debugConsole && runtimeVsock.None?
    }

    /** Only tasks start or end; nothing else that is tracked changes, and nothing is launched. */
    twostate predicate OnlyTasks()
      reads this, host
    {
      && unchanged(this`enclaveInfo, this`runtimeVsock, this`debugConsole)
      && host.LaunchesKept() && host.ConsoleKept() && host.Moves()
    }

    /** In a calm plan listeners stay. */
    twostate predicate ListenersKept()
      reads host
    {
      Calm(host.plan) ==> forall p: nat :: Listening(old(host.scene.live), p) ==> Listening(host.scene.live, p)
    }

    /** Listen on a port and serve it. */
    method Listen(port: nat) returns (r: Start)
      requires Valid()
      modifies this`tasks, host
      ensures Valid() && OnlyTasks() && ListenersKept() && host.calls == old(host.calls) + [Bound(port, r)]
      ensures forall t :: t in host.scene.live ==>
                || host.scene.live[t] == Some(port)
                || (t in old(host.scene.live) && host.scene.live[t] == old(host.scene.live)[t])
      ensures Smooth(host.plan) ==> r.Up?
      ensures r.Up? ==> Listening(host.scene.live, port)
      ensures |tasks| == |old(tasks)| + if r.Up? then 1 else 0
    {
      r := host.Bind(port);
      if r.Up? { Track(Some(port)); }
    }

    method Track(port: Option<nat>)
      requires Valid()
      modifies this`tasks, host`scene, host`nextTask
      ensures Valid() && OnlyTasks() && |tasks| == |old(tasks)| + 1
      ensures forall t :: t in host.scene.live ==>
                || host.scene.live[t] == port
                || (t in old(host.scene.live) && host.scene.live[t] == old(host.scene.live)[t])
      ensures port.Some? ==> Listening(host.scene.live, port.value)
      ensures forall p: nat :: Listening(old(host.scene.live), p) ==> Listening(host.scene.live, p)
    {
      var task := host.Spawn(port);
      tasks := tasks + [task];
      assert host.scene.live[task] == port;
      forall p: nat | Listening(old(host.scene.live), p)
        ensures Listening(host.scene.live, p)
      {
        var t :| t in old(host.scene.live) && old(host.scene.live)[t] == Some(p);
        assert t in host.scene.live && host.scene.live[t] == Some(p);
      }
    }

    /** Every port that is held lies in the block of `cid`. */
    ghost predicate PortsOf(cid: nat)
      reads this, host
    {
      forall t :: t in host.scene.live && host.scene.live[t].Some? ==> InBlock(host.scene.live[t].value, cid)
    }

    /** The calls just made are on record, and in a calm plan every port they got is being listened on. */
    twostate predicate Recorded(calls: seq<HostCall>)
      reads host
    {
      host.calls == old(host.calls) + calls && (Calm(host.plan) ==> HeldAll(calls, host.scene.live))
    }

    method StartEgressProxy(ports: HostPorts) returns (r: Start, ghost calls: seq<HostCall>)
      requires Valid() && ForCid(ports.cid) == Some(ports) && PortsOf(ports.cid)
      modifies this`tasks, host
      ensures Valid() && OnlyTasks() && PortsOf(ports.cid) && ListenersKept()
      ensures Recorded(calls) && Went(EgressWants(manifest, ports), calls, r)
      ensures Smooth(host.plan) ==> r.Up?
    {
      if !manifest.egress { return Up, []; }
      PortsStayInBlock(ports.cid, Egress);
      r := Listen(ports.egress);
      calls := [Bound(ports.egress, r)];
      WentOne(ports.egress, r);
    }

    /** Serve the mounts in order; a required one that is missing, or one without a port, is refused. */
    method StartHostfsProxies(ports: HostPorts) returns (r: Start, ghost calls: seq<HostCall>)
      requires Valid() && ForCid(ports.cid) == Some(ports) && PortsOf(ports.cid)
      requires MANAGED_CID_START <= ports.cid <= MANAGED_CID_END
      modifies this`tasks, host
      ensures Valid() && OnlyTasks() && PortsOf(ports.cid) && ListenersKept()
      ensures Recorded(calls) && Went(MountWants(ports, manifest.mounts), calls, r)
      ensures Smooth(host.plan) && Startable(manifest) ==> r.Up?
    {
      hide Smooth, Calm, Accounted, Went, MountWants, Listening;
      var index := 0;
      calls := [];
      NoMounts(ports);
      assert manifest.mounts[..0] == [];
      while index < |manifest.mounts|
        invariant 0 <= index <= |manifest.mounts|
        invariant Valid() && OnlyTasks() && PortsOf(ports.cid) && ListenersKept()
        invariant Recorded(calls) && Went(MountWants(ports, manifest.mounts[..index]), calls, Up)
      {
        var mount := manifest.mounts[index];
        ghost var want := MountWant(ports, mount, index);
        var port := MountPort(ports, index);
        if port.None? {
          RefusedMount(ports, manifest.mounts, index, calls);
          return StartFailed, calls;
        }
        if !mount.present {
          if mount.required {
            RefusedMount(ports, manifest.mounts, index, calls);
            return StartFailed, calls;
          }
          WentNowhere();
          NextMount(ports, manifest.mounts, index, calls, [], Up);
          assert calls + [] == calls;
        } else {
          PortsStayInBlock(ports.cid, Service.Mount(index));
          r := Listen(port.value);
          ghost var call := [Bound(port.value, r)];
          WentOne(port.value, r);
          NextMount(ports, manifest.mounts, index, calls, call, r);
          calls := calls + call;
          if !r.Up? { return; }
        }
        index := index + 1;
      }
      assert manifest.mounts[..index] == manifest.mounts;
      r := Up;
    }

    /** In the last attempt a port in use is done without. */
    method StartClockSyncServer(ports: HostPorts, allowDegraded: bool)
      returns (r: Start, ghost calls: seq<HostCall>, ghost met: Start)
      requires Valid() && ForCid(ports.cid) == Some(ports) && PortsOf(ports.cid)
      modifies this`tasks, host
      ensures Valid() && OnlyTasks() && PortsOf(ports.cid) && ListenersKept()
      ensures Recorded(calls) && Went(ClockWants(manifest, ports), calls, met)
      ensures r == if met.AddrInUse? && allowDegraded then Up else met
      ensures Smooth(host.plan) ==> r.Up?
    {
      if !manifest.clockSync { return Up, [], Up; }
      PortsStayInBlock(ports.cid, ClockSync);
      r := Listen(ports.clockSync);
      calls, met := [Bound(ports.clockSync, r)], r;
      WentOne(ports.clockSync, r);
      if r.AddrInUse? && allowDegraded { r := Up; }
    }

    /** Egress, mounts, clock: the first that fails ends the attempt. */
    method StartServices(ports: HostPorts, allowDegraded: bool) returns (r: Start, ghost calls: seq<HostCall>)
      requires Valid() && ForCid(ports.cid) == Some(ports) && PortsOf(ports.cid)
      requires MANAGED_CID_START <= ports.cid <= MANAGED_CID_END
      modifies this`tasks, host
      ensures Valid() && OnlyTasks() && PortsOf(ports.cid)
      ensures Recorded(calls) && Served(manifest, ports, allowDegraded, calls, r)
      ensures Smooth(host.plan) && Startable(manifest) ==> r.Up?
    {
      hide Smooth, Calm, Accounted, Startable, Went, Listening, Served;
      ghost var egress, mounts, clock, met;
      r, egress := StartEgressProxy(ports);
      if !r.Up? {
        EgressFailed(manifest, ports, allowDegraded, egress, r);
        return r, egress;
      }
      r, mounts := StartHostfsProxies(ports);
      if !r.Up? {
        MountsFailed(manifest, ports, allowDegraded, egress, mounts, r);
        return r, egress + mounts;
      }
      r, clock, met := StartClockSyncServer(ports, allowDegraded);
      calls := egress + mounts + clock;
      ClockTried(manifest, ports, allowDegraded, egress, mounts, clock, met);
    }

    method SelectRuntimeVsockPorts(excluded: set<nat>)
      returns (r: Result<HostPorts, PrepareError>, ghost used: Option<set<nat>>)
      requires Valid() && host.scene.live == map[]
      modifies host
      ensures Valid() && OnlyTasks() && host.scene.live == map[] && host.calls == old(host.calls) + [Described(used)]
      ensures match r
              case Ok(ports) =>
                used.Some? && LeastFree(ports.cid, used.value + excluded) && ForCid(ports.cid) == Some(ports)
              case Err(DescribeFailed) => used.None?
              case Err(NoFreeCid) =>
                used.Some? && forall c :: MANAGED_CID_START <= c <= MANAGED_CID_END ==> c in used.value + excluded
              case Err(_) => false
      ensures Smooth(host.plan) && excluded == {} ==> r.Ok?
    {
      var running := host.DescribeEnclaves();
      used := running;
      assert host.scene.live == map[];
      if running.None? { return Err(DescribeFailed), used; }
      var cid := AllocateManagedCid(running.value + excluded);
      if cid.None? { return Err(NoFreeCid), used; }
      AcceptedCids(cid.value);
      r := Ok(ForCid(cid.value).value);
    }

    /** Stop every tracked task; connections they accepted are not tracked and go on. */
    method AbortTasks()
      requires Valid()
      modifies this`tasks, host
      ensures Valid() && OnlyTasks() && tasks == [] && host.scene.live == map[] && host.calls == old(host.calls)
      ensures forall c: nat :: c in old(host.scene.conns) && !HangsUp(host.plan, c) ==> c in host.scene.conns
    {
      var taken := tasks;
      tasks := [];
      var i := 0;
      while i < |taken|
        invariant 0 <= i <= |taken| && tasks == []
        invariant host.Valid() && OnlyTasks() && host.calls == old(host.calls)
        invariant forall t :: t in host.scene.live ==> t in taken[i..]
      {
        host.Abort(taken[i]);
        i := i + 1;
      }
      assert host.scene.live == map[];
    }

    /** In a calm plan a prepared runtime is up; its clock may be missing only after the last attempt. */
    ghost predicate UpAndListening(tries: seq<Try>, ports: HostPorts)
      reads host
      requires tries != []
    {
      Calm(host.plan) ==>
        && RuntimeUp(manifest, ports, tries[|tries| - 1].calls, host.scene.live)
        && (manifest.clockSync && |tries| < 16 ==> Listening(host.scene.live, ports.clockSync))
    }

    /** How an attempt or all of them ended, and what that leaves. */
    ghost predicate Ready(rejected: set<nat>, tries: seq<Try>, calls: seq<HostCall>, r: Result<HostPorts, PrepareError>)
      reads this, host
    {
      && Prepared(manifest, rejected, tries, calls, r)
      && (r.Err? ==> tasks == [] && host.scene.live == map[])
      && (r.Ok? ==> PortsOf(r.value.cid) && UpAndListening(tries, r.value))
    }

    /**
     * One attempt: the least CID that is free and untried, and its services. It is final, or it
     * collided on a port and leaves no task and no port behind.
     */
    method TryRuntime(
      unavailable: set<nat>, last: bool, ghost rejected: set<nat>, ghost tries: seq<Try>, ghost before: seq<HostCall>)
      returns (r: Option<Result<HostPorts, PrepareError>>, taken: nat, ghost next: seq<Try>, ghost calls: seq<HostCall>)
      requires Valid() && tasks == [] && host.scene.live == map[]
      requires Tries(manifest, rejected, tries) && Collided(tries) && |tries| < 16
      requires Logged(before, TryCalls(tries), host.calls)
      requires Excluding(unavailable, rejected, tries) && last == (|tries| + 1 == 16)
      modifies this`tasks, host
      ensures Valid() && OnlyTasks() && Logged(before, calls, host.calls)
      ensures r.Some? ==> Ready(rejected, next, calls, r.value)
      ensures r.None? ==> tasks == [] && host.scene.live == map[] && Tries(manifest, rejected, next) && Collided(next)
      ensures r.None? ==> |next| == |tries| + 1 && calls == TryCalls(next)
      ensures r.None? ==> Excluding(unavailable + {taken}, rejected, next)
      ensures Smooth(host.plan) && Startable(manifest) && unavailable == {} ==> r.Some? && r.value.Ok?
    {
      hide Smooth, Calm, Accounted, Startable, Served, Tries, TryCalls, TriedCids, HeldAll, Listening, LeastFree;
      hide Prepared, RuntimeUp, HangsUp;
      taken := 0;
      var ports, used := SelectRuntimeVsockPorts(unavailable);
      next, calls := tries, TryCalls(tries) + [Described(used)];
      if ports.Err? {
        NotSelected(manifest, rejected, tries, calls, used, ports.error);
        return Some(ports), taken, next, calls;
      }
      LeastFreeIsManaged(ports.value.cid, used.value + unavailable);
      var started, bound := StartServices(ports.value, last);
      OneMoreTry(manifest, rejected, tries, Try(used.value, ports.value, bound, started));
      next := tries + [Try(used.value, ports.value, bound, started)];
      calls := TryCalls(tries) + ([Described(used)] + bound);
      PreparedBy(manifest, rejected, next);
      ExcludingMore(unavailable, rejected, tries, next, ports.value.cid);
      match started {
        case Up =>
          if Calm(host.plan) { TryListens(manifest, rejected, next, host.scene.live); }
          r := Some(ports);
        case AddrInUse =>
          taken := ports.value.cid;
          AbortTasks();
          r := None;
        case StartFailed =>
          AbortTasks();
          r := Some(Err(ServiceFailed));
      }
    }

    /**
     * Reserve the host ports of some managed CID. At most sixteen CIDs are tried, all different and
     * none of them rejected before, each after a collision of the one before; it gives up exactly for
     * one of the four reasons and then leaves no task and no port behind.
     */
    method PrepareHostRuntime(rejected: set<nat>)
      returns (r: Result<HostPorts, PrepareError>, ghost tries: seq<Try>, ghost calls: seq<HostCall>)
      requires Valid() && tasks == [] && host.scene.live == map[]
      modifies this`tasks, host
      ensures Valid() && OnlyTasks() && Logged(old(host.calls), calls, host.calls)
      ensures Ready(rejected, tries, calls, r)
      ensures Smooth(host.plan) && Startable(manifest) && rejected == {} ==> r.Ok?
    {
      tries, calls := [], [];
      var unavailable := rejected;
      var attempt := 1;
      ghost var smooth := Smooth(host.plan) && Startable(manifest) && rejected == {};
      assert Excluding(unavailable, rejected, tries) && Logged(host.calls, calls, host.calls);
      NoTries(manifest, rejected);
      hide Smooth, Calm, Accounted, Startable, Tries, TryCalls, TriedCids, Prepared, Excluding, Logged, Ready;
      hide Collided, HangsUp, Host.Valid;
      while attempt <= BIND_RETRY_LIMIT
        invariant 1 <= attempt <= 16 + 1
        invariant Valid() && OnlyTasks() && tasks == [] && host.scene.live == map[]
        invariant |tries| == attempt - 1 && Tries(manifest, rejected, tries) && Collided(tries)
        invariant Logged(old(host.calls), calls, host.calls) && calls == TryCalls(tries)
        invariant Excluding(unavailable, rejected, tries)
        invariant smooth ==> attempt == 1 && unavailable == {}
      {
        var ended, taken, next, made :=
          TryRuntime(unavailable, attempt == BIND_RETRY_LIMIT, rejected, tries, old(host.calls));
        calls := made;
        if ended.Some? { return ended.value, next, calls; }
        unavailable, tries := unavailable + {taken}, next;
        attempt := attempt + 1;
      }
      AllCollided(rejected, tries);
      r := Err(BindsExhausted);
    }

    lemma {:induction false} AllCollided(rejected: set<nat>, tries: seq<Try>)
      requires Tries(manifest, rejected, tries) && Collided(tries) && |tries| == 16
      requires tasks == [] && host.scene.live == map[]
      ensures Ready(rejected, tries, TryCalls(tries), Err(BindsExhausted))
    {
      PreparedBy(manifest, rejected, tries);
    }

    /** One attempt to kill the console; the handle is given up whether or not it works. */
    method StopDebugConsole()
      requires Valid()
      modifies this`debugConsole, host
      ensures Valid() && !debugConsole && host.LaunchesKept() && host.Moves() && host.calls == old(host.calls)
      ensures host.scene.attached == old(host.scene.attached)
      ensures host.scene.attached ==> host.scene.stop.Some?
      ensures !old(debugConsole) ==> host.scene.stop == old(host.scene.stop)
      ensures old(debugConsole) ==> exists n :: host.scene.stop == Some(host.plan.kill(n))
    {
      if debugConsole { var _ := host.StopConsole(); }
      debugConsole := false;
    }

    /**
     * Tear everything tracked down; a running enclave gets one terminate call and is forgotten if it
     * worked. What is left is what was never tracked: connections whose clients have not hung up, and
     * a console whose stop failed.
     */
    method CleanupRunningState() returns (ok: bool)
      requires Valid()
      modifies this, host
      ensures Valid() && Quiet() && host.Moves() && host.launches == old(host.launches) && host.calls == old(host.calls)
      ensures old(enclaveInfo).None? ==> ok && enclaveInfo.None? && host.terminations == old(host.terminations)
      ensures old(enclaveInfo).Some? ==>
                host.terminations == old(host.terminations) + [Terminate(old(enclaveInfo).value.id, ok)]
      ensures old(enclaveInfo).Some? ==> enclaveInfo == if ok then None else old(enclaveInfo)
      ensures host.scene.attached == old(host.scene.attached)
      ensures host.scene.attached ==> host.scene.stop.Some?
      ensures old(debugConsole) ==> exists n :: host.scene.stop == Some(host.plan.kill(n))
      ensures (forall n :: host.plan.terminate(n)) ==> ok
    {
      ok := true;
      if enclaveInfo.Some? {
        ok := host.TerminateEnclave(enclaveInfo.value.id);
      }
      StopDebugConsole();
      runtimeVsock := None;
      AbortTasks();
      if ok { enclaveInfo := None; }
    }

    method StartIngressProxies() returns (r: Start, ghost calls: seq<HostCall>)
      requires Valid()
      modifies this`tasks, host
      ensures Valid() && OnlyTasks() && ListenersKept()
      ensures Recorded(calls) && Went(IngressWants(manifest.ingress), calls, r)
      ensures r.Up? ==> |tasks| == |old(tasks)| + |manifest.ingress|
      ensures Smooth(host.plan) ==> r.Up?
    {
      hide Smooth, Calm, Accounted, Went, IngressWants, Listening;
      calls := [];
      var i := 0;
      NoIngress();
      assert manifest.ingress[..0] == [];
      while i < |manifest.ingress|
        invariant 0 <= i <= |manifest.ingress|
        invariant Valid() && OnlyTasks() && ListenersKept() && |tasks| == |old(tasks)| + i
        invariant Recorded(calls) && Went(IngressWants(manifest.ingress[..i]), calls, Up)
      {
        r := Listen(manifest.ingress[i]);
        NextIngress(manifest.ingress, i, calls, r);
        calls := calls + [Bound(manifest.ingress[i], r)];
        if !r.Up? { return; }
        i := i + 1;
      }
      assert manifest.ingress[..i] == manifest.ingress;
      r := Up;
    }

    /** Console, log stream and ingress proxies of a started enclave; what cannot be had ends it. */
    method CompletePostStartSetup() returns (ok: bool, ghost calls: seq<HostCall>, ghost met: Start)
      requires Valid() && !host.scene.attached
      modifies this`tasks, this`debugConsole, host
      ensures Valid() && host.LaunchesKept() && host.Moves() && host.scene.stop == None && Recorded(calls)
      ensures host.scene.attached ==> debugMode
      ensures host.scene.attached != debugMode ==> !ok && calls == []
      ensures host.scene.attached == debugMode ==> Went(IngressWants(manifest.ingress), calls, met) && (ok <==> met.Up?)
      ensures ok ==> |tasks| == |old(tasks)| + |manifest.ingress| + if debugMode then 2 else 1
      ensures Smooth(host.plan) ==> ok
    {
      assert host.scene.stop == None;
      SmoothAttaches(host.plan);
      hide Smooth, Calm, Accounted, Went, IngressWants, Listening;
      calls, met := [], StartFailed;
      if debugMode {
        ok := host.OpenConsole();
        if !ok { return; }
        debugConsole := true;
        Track(None);
      }
      Track(None);
      var r;
      r, calls := StartIngressProxies();
      ok, met := r.Up?, r;
    }

    /** After a failed setup everything is torn down again. */
    method CompletePostStartSetupOrCleanup() returns (r: Option<RunError>, ghost calls: seq<HostCall>, ghost met: Start)
      requires Valid() && !host.scene.attached && enclaveInfo.Some?
      modifies this, host
      ensures Valid() && host.Moves() && host.launches == old(host.launches) && host.calls == old(host.calls) + calls
      ensures host.scene.attached ==> debugMode
      ensures host.scene.attached != debugMode ==> r.Some?
      ensures host.scene.attached == debugMode ==>
                Went(IngressWants(manifest.ingress), calls, met) && (r.None? <==> met.Up?)
      ensures r.None? ==> enclaveInfo == old(enclaveInfo) && host.terminations == old(host.terminations)
      ensures r.None? ==> host.scene.stop == None
      ensures r.None? && Calm(host.plan) ==> HeldAll(calls, host.scene.live)
      ensures r.Some? ==> Quiet() && (host.scene.attached ==> host.scene.stop.Some?)
      ensures r.Some? ==> exists ok ::
                && host.terminations == old(host.terminations) + [Terminate(old(enclaveInfo).value.id, ok)]
                && r == Some(if ok then SetupFailed else TerminateFailed)
      ensures Smooth(host.plan) ==> r.None?
    {
      hide Smooth, Calm, Accounted, Went, IngressWants;
      var ok;
      ok, calls, met := CompletePostStartSetup();
      if ok { return None, calls, met; }
      var cleaned := CleanupRunningState();
      r := Some(if cleaned then SetupFailed else TerminateFailed);
    }

    method FinalizeExitAndCleanup(exit: Result<ExitStatus, RunError>) returns (r: Result<ExitStatus, RunError>)
      requires Valid() && enclaveInfo.Some?
      modifies this, host
      ensures Valid() && Quiet() && host.Moves() && host.launches == old(host.launches) && host.calls == old(host.calls)
      ensures exists ok ::
                && host.terminations == old(host.terminations) + [Terminate(old(enclaveInfo).value.id, ok)]
                && r == if ok then exit else Err(TerminateFailed)
      ensures host.scene.attached == old(host.scene.attached)
      ensures host.scene.attached ==> host.scene.stop.Some?
      ensures old(debugConsole) ==> exists n :: host.scene.stop == Some(host.plan.kill(n))
      ensures (forall n :: host.plan.terminate(n)) ==> r == exit
    {
      var ok := CleanupRunningState();
      r := if ok then exit else Err(TerminateFailed);
    }

    /** What came of the rounds: the last launch, eight conflicts, or a runtime that was not to be had. */
    ghost predicate Concluded(rounds: seq<Round>, more: seq<HostCall>, r: Result<Info, RunError>) {
      match r
      case Ok(info) => rounds != [] && rounds[|rounds| - 1].result == Started(info) && more == []
      case Err(FailedToStart) => rounds != [] && rounds[|rounds| - 1].result.LaunchFailed? && more == []
      case Err(ConflictsExhausted) => |rounds| == 8 && Conflicted(rounds) && more == []
      case Err(NoRuntime(e)) =>
        |rounds| < 8 && Conflicted(rounds) &&
        exists tries :: Prepared(manifest, ConflictCids(rounds), tries, more, Err(e))
      case Err(_) => false
    }

    ghost predicate OnRecord(rounds: seq<Round>)
      reads host
    {
      && Rounds(manifest, rounds) && |rounds| <= 8
      && host.launches == RoundLaunches(rounds) && host.calls == RoundCalls(rounds)
    }

    /** The rounds and perhaps a last preparation are on record, and they end in `r`. */
    ghost predicate OnRecordWith(rounds: seq<Round>, r: Result<Info, RunError>)
      reads host
    {
      && Rounds(manifest, rounds) && |rounds| <= 8 && host.launches == RoundLaunches(rounds)
      && exists more :: host.calls == RoundCalls(rounds) + more && Concluded(rounds, more, r)
    }

    /** If nothing stands in the way there is a launch, and it is answered as planned. */
    ghost predicate Launches(rounds: seq<Round>)
      reads host
    {
      Smooth(host.plan) && Startable(manifest) ==> rounds != [] && exists n :: rounds[0].result == host.plan.launch(n)
    }

    /** One round: prepare a runtime and launch. It is final, or it was a conflict and is cleaned up. */
    method LaunchOnce(rejected: set<nat>, ghost rounds: seq<Round>)
      returns (r: Option<Result<Info, RunError>>, taken: nat, ghost next: seq<Round>)
      requires Valid() && Quiet() && enclaveInfo.None? && !host.scene.attached
      requires OnRecord(rounds) && Conflicted(rounds) && |rounds| < 8
      requires rejected == ConflictCids(rounds)
      requires rounds != [] ==> Launches(rounds)
      modifies this, host
      ensures Valid() && enclaveInfo.None? && host.terminations == old(host.terminations)
      ensures host.Moves() && !host.scene.attached && Launches(next)
      ensures r.Some? ==> OnRecordWith(next, r.value) && (r.value.Err? ==> Quiet())
      ensures r.Some? && r.value.Ok? ==> next != [] && runtimeVsock == Some(next[|next| - 1].ports)
      ensures r.None? ==> Quiet() && OnRecord(next) && Conflicted(next) && |next| == |rounds| + 1
      ensures r.None? ==> taken !in rejected && ConflictCids(next) == rejected + {taken}
    {
      hide Smooth, Startable, Accounted, Calm, Host.Valid, Rounds, RoundLaunches, RoundCalls, ConflictCids;
      hide Prepared, RuntimeUp, HangsUp, UpAndListening;
      NoConflictCids(rounds);
      taken, next := 0, rounds;
      var ports, tries, calls := PrepareHostRuntime(rejected);
      if ports.Err? {
        assert Concluded(rounds, calls, Err(NoRuntime(ports.error)));
        return Some(Err(NoRuntime(ports.error))), taken, next;
      }
      runtimeVsock := Some(ports.value);
      var launch := host.RunEnclave(ports.value.cid);
      OneMoreRound(manifest, rounds, Round(tries, calls, ports.value, launch));
      next := rounds + [Round(tries, calls, ports.value, launch)];
      assert host.calls == RoundCalls(next) + [];
      match launch {
        case Started(info) =>
          assert Concluded(next, [], Ok(info));
          r := Some(Ok(info));
        case CidConflict =>
          taken := ports.value.cid;
          var cleaned := CleanupRunningState();
          r := if cleaned then None else Some(Err(TerminateFailed));
        case LaunchFailed(_) =>
          assert Concluded(next, [], Err(FailedToStart));
          var _ := CleanupRunningState();
          r := Some(Err(FailedToStart));
      }
    }

    /**
     * Launch on some managed CID, trying again on another one while the CID turns out to be taken, at
     * most eight times. It stops exactly at the first launch that is no conflict, after eight
     * conflicts, or when no runtime can be prepared. A failure leaves nothing tracked behind; an
     * enclave that came up unreported is not tracked.
     */
    method StartEnclave() returns (r: Result<Info, RunError>, ghost rounds: seq<Round>)
      requires Valid() && Quiet() && enclaveInfo.None? && !host.scene.attached
      requires host.calls == [] && host.launches == []
      modifies this, host
      ensures Valid() && enclaveInfo.None? && host.terminations == old(host.terminations)
      ensures host.Moves() && !host.scene.attached
      ensures OnRecordWith(rounds, r) && Launches(rounds)
      ensures r.Ok? ==> rounds != [] && runtimeVsock == Some(rounds[|rounds| - 1].ports)
      ensures r.Err? ==> Quiet()
    {
      var rejected: set<nat> := {};
      rounds := [];
      NoRounds(manifest);
      hide Smooth, Startable, Accounted, Calm, Host.Valid, Rounds, RoundLaunches, RoundCalls, ConflictCids, Prepared;
      hide HangsUp, Launches;
      while true
        invariant Valid() && Quiet() && enclaveInfo.None?
        invariant host.terminations == old(host.terminations) && host.Moves() && !host.scene.attached
        invariant |rejected| == |rounds| && rejected == ConflictCids(rounds)
        invariant OnRecord(rounds) && Conflicted(rounds) && (rounds != [] ==> Launches(rounds))
        decreases 8 - |rejected|
      {
        if |rejected| >= CONFLICT_RETRY_LIMIT {
          assert host.calls == RoundCalls(rounds) + [] && Concluded(rounds, [], Err(ConflictsExhausted));
          return Err(ConflictsExhausted), rounds;
        }
        var ended, taken, next := LaunchOnce(rejected, rounds);
        rounds := next;
        if ended.Some? { return ended.value, rounds; }
        rejected := rejected + {taken};
      }
    }

    /** From the launch to the end: set up, wait, clean up. */
    method RunStarted() returns (r: Result<ExitStatus, RunError>)
      requires Valid() && enclaveInfo.Some? && !host.scene.attached && host.terminations == []
      modifies this, host
      ensures Valid() && Quiet() && host.launches == old(host.launches)
      ensures host.scene.attached ==> host.scene.stop.Some?
      ensures Stopped(host.terminations, old(enclaveInfo).value.id, r)
      ensures r.Ok? || r == Err(WaitFailed) ==> WaitedFor(host.plan.course, r)
      ensures Smooth(host.plan) ==> host.scene.attached == debugMode
      ensures Smooth(host.plan) && debugMode ==> exists n :: host.scene.stop == Some(host.plan.kill(n))
      ensures Smooth(host.plan) && (forall n :: host.plan.terminate(n)) ==> WaitedFor(host.plan.course, r)
      ensures Smooth(host.plan) && Calm(host.plan) && Visits(host.plan.serving, manifest.ingress) ==>
                && |host.scene.accepted| == |old(host.scene.accepted)| + |host.plan.serving|
                && host.scene.ended == old(host.scene.ended) && host.scene.exited == old(host.scene.exited)
    {
      hide Smooth, Calm, Awaited, Flow, Went, HeldAll, IngressWants, Accounted;
      var failure, calls, met := CompletePostStartSetupOrCleanup();
      if failure.Some? { return Err(failure.value); }
      var status, used := AwaitExit(host.plan.course);
      var exit := match status
        case None => Ok(Cancelled)
        case Some(Ok(s)) => Ok(s)
        case Some(Err(_)) => Err(WaitFailed);
      assert Awaited(host.plan.course, status, used);
      if Calm(host.plan) && Visits(host.plan.serving, manifest.ingress) {
        IngressListens(manifest.ingress, calls, host.scene.live);
        VisitorsAccepted(host.scene, host.plan.serving, manifest.ingress);
      }
      host.Serve();
      r := FinalizeExitAndCleanup(exit);
    }

    /** Every call on the way up succeeds, and so does the first launch. */
    ghost predicate GoesUp()
    {
      Smooth(host.plan) && Startable(manifest) && forall n :: host.plan.launch(n).Started?
    }

    /**
     * Run one enclave to its end. Whatever happens: no tracked task, listener or port is left. The
     * console was stopped once if it was opened, and is left exactly if that failed and it has not
     * exited. A connection is left exactly if it was accepted and has not ended, and only its client
     * can end it. All launches but the last one were conflicts, so at most one enclave came up: if
     * its launch was reported it got exactly one terminate call, if not it got none. Success means
     * that call worked.
     */
    method Run() returns (r: Result<ExitStatus, RunError>)
      requires Valid() && Quiet() && host.scene == NOTHING
      requires host.calls == [] && host.launches == [] && host.terminations == []
      modifies this, host
      ensures Valid() && Quiet()
      ensures host.scene.console <==>
                host.scene.attached && !host.scene.exited && host.scene.stop.Some? && !host.scene.stop.value
      ensures forall c: nat :: c in host.scene.conns <==> c < |host.scene.accepted| && c !in host.scene.ended
      ensures forall c: nat :: c < |host.scene.accepted| && !HangsUp(host.plan, c) ==> c in host.scene.conns
      ensures Retried(host.launches) && Ended(host.launches, host.terminations, r)
      ensures r.Ok? || r == Err(WaitFailed) ==> WaitedFor(host.plan.course, r)
      ensures old(enclaveInfo).Some? ==> r == Err(AlreadyStarted) && host.launches == []
      // what comes of a run when nothing stands in its way up
      ensures old(enclaveInfo).None? && Smooth(host.plan) && Startable(manifest) ==>
                host.launches != [] && exists n :: host.launches[0].result == host.plan.launch(n)
      ensures old(enclaveInfo).None? && GoesUp() ==> host.scene.attached == debugMode
      ensures old(enclaveInfo).None? && GoesUp() && debugMode ==> exists n :: host.scene.stop == Some(host.plan.kill(n))
      ensures old(enclaveInfo).None? && GoesUp() && (forall n :: host.plan.terminate(n)) ==>
                WaitedFor(host.plan.course, r)
      ensures old(enclaveInfo).None? && GoesUp() && Calm(host.plan) && Visits(host.plan.serving, manifest.ingress) ==>
                |host.scene.accepted| == |host.plan.serving| && host.scene.ended == {} && !host.scene.exited
    {
      hide Smooth, Startable, Calm, WaitedFor, Rounds, RoundLaunches, Prepared, Retried;
      if enclaveInfo.Some? {
        NoLaunches();
        return Err(AlreadyStarted);
      }
      var info, rounds := StartEnclave();
      RoundsRetry(manifest, rounds);
      FirstRound(rounds);
      if rounds != [] && rounds[0].result.Started? { OnlyRound(manifest, rounds); }
      if info.Err? { return Err(info.error); }
      enclaveInfo := Some(info.value);
      r := RunStarted();
    }
  }

  /** What the terminate call and the result of a started enclave's run say about each other. */
  ghost predicate Stopped(terminations: seq<Terminate>, id: nat, r: Result<ExitStatus, RunError>) {
    && |terminations| == 1 && terminations[0].id == id
    && (!terminations[0].ok ==> r == Err(TerminateFailed))
    && (terminations[0].ok && r.Err? ==> r.error.SetupFailed? || r.error.WaitFailed?)
  }

  /** How the launches, the terminate calls and the result of a run belong together. */
  ghost predicate Ended(launches: seq<LaunchCall>, terminations: seq<Terminate>, r: Result<ExitStatus, RunError>) {
    if launches == [] then terminations == [] && r.Err? && (r.error.AlreadyStarted? || r.error.NoRuntime?)
    else
      match launches[|launches| - 1].result
      case Started(info) => Stopped(terminations, info.id, r)
      case LaunchFailed(_) => terminations == [] && r == Err(FailedToStart)
      case CidConflict =>
        && terminations == [] && r.Err?
        && if |launches| == 8 then r.error.ConflictsExhausted? else r.error.NoRuntime?
  }

  /** The enclave came up and has not been terminated by a call that worked. */
  ghost predicate LeftRunning(launches: seq<LaunchCall>, terminations: seq<Terminate>, info: Info) {
    && (exists i :: 0 <= i < |launches| && launches[i].result in {Started(info), LaunchFailed(Some(info))})
    && Terminate(info.id, true) !in terminations
  }

  /** After a run, an enclave is left exactly if it came up unreported, or if its terminate call failed. */
  lemma {:induction false} LeftExactly(
    launches: seq<LaunchCall>, terminations: seq<Terminate>, r: Result<ExitStatus, RunError>)
    requires Retried(launches) && Ended(launches, terminations, r)
    ensures forall info :: LeftRunning(launches, terminations, info) <==>
              launches != [] && var last := launches[|launches| - 1].result;
              last == LaunchFailed(Some(info)) || (last == Started(info) && r == Err(TerminateFailed))
  {
  }

  /** What the wait hands on: a status, giving up, or the cancellation that cut it short. */
  ghost predicate WaitedFor(course: seq<Attempt>, r: Result<ExitStatus, RunError>) {
    exists status, used :: Awaited(course, status, used) &&
      r == match status
           case None => Ok(Cancelled)
           case Some(Ok(s)) => Ok(s)
           case Some(Err(_)) => Err(WaitFailed)
  }

  lemma {:induction false} NoLaunches()
    ensures Retried([])
  {
  }

  lemma {:induction false} FirstRound(rounds: seq<Round>)
    ensures rounds != [] ==>
              RoundLaunches(rounds)[0].result == rounds[0].result
              && RoundLaunches(rounds)[|rounds| - 1].result == rounds[|rounds| - 1].result
  {
    if |rounds| > 1 { FirstRound(rounds[..|rounds| - 1]); }
  }

  /** After a launch that is no conflict there is no other round. */
  lemma {:induction false} OnlyRound(m: Manifest, rounds: seq<Round>)
    requires Rounds(m, rounds) && rounds != [] && !rounds[0].result.CidConflict?
    ensures |rounds| == 1
  {
    if |rounds| > 1 {
      hide Prepared;
      OnlyRound(m, rounds[..|rounds| - 1]);
    }
  }

  /** With every ingress port bound and held, each of them is being listened on. */
  lemma {:induction false} IngressListens(ports: seq<nat>, calls: seq<HostCall>, live: map<nat, Option<nat>>)
    requires Went(IngressWants(ports), calls, Up) && HeldAll(calls, live)
    ensures forall p :: p in ports ==> Listening(live, p)
  {
    WentUp(IngressWants(ports), calls);
    IngressWantsAre(ports);
    hide Went, IngressWants;
    forall p | p in ports
      ensures Listening(live, p)
    {
      var i :| 0 <= i < |ports| && ports[i] == p;
      assert calls[i] == Bound(p, Up);
    }
  }

  lemma {:induction false} IngressWantsAre(ports: seq<nat>)
    ensures |IngressWants(ports)| == |ports|
    ensures forall i :: 0 <= i < |ports| ==> IngressWants(ports)[i] == Port(ports[i])
  {
    if ports != [] { IngressWantsAre(ports[..|ports| - 1]); }
  }

  //// What a run can leave behind

  function Helpful(launch: Launch, kill: bool, serving: seq<Traffic>): Plan {
    Plan(n => Some({}), n => Up, n => launch, n => true, n => true, n => kill, n => [], serving,
         [Connected([Terminal(Exited(0))])])
  }

  lemma {:induction false} HelpfulIsSmooth(launch: Launch, kill: bool, serving: seq<Traffic>)
    ensures Smooth(Helpful(launch, kill, serving)) && Calm(Helpful(launch, kill, serving))
  {
    var plan := Helpful(launch, kill, serving);
    forall n: nat
      ensures exists c :: MANAGED_CID_START <= c <= MANAGED_CID_END && c !in plan.describe(n).value
    {
      assert MANAGED_CID_START !in plan.describe(n).value;
    }
  }

  lemma {:induction false} HelpfulWait(
    launch: Launch, kill: bool, serving: seq<Traffic>, r: Result<ExitStatus, RunError>)
    requires WaitedFor(Helpful(launch, kill, serving).course, r)
    ensures r == Ok(Exited(0))
  {
    var script := Helpful(launch, kill, serving).course;
    var status, used :| Awaited(script, status, used) &&
      r == match status
           case None => Ok(Cancelled)
           case Some(Ok(s)) => Ok(s)
           case Some(Err(_)) => Err(WaitFailed);
    assert script[0].Connected? && FirstTerminal(script[0].lines) == Some(Exited(0));
    assert script[..|script|] == script;
  }

  /** A failed kill: the run succeeds and the console process is still there. */
  method FailedKillLeavesConsole(info: Info) returns (r: Result<ExitStatus, RunError>, console: bool)
    ensures r == Ok(Exited(0)) && console
  {
    var host := new Host(Helpful(Started(info), false, []));
    var enclave := new Enclave(host, Manifest(false, [], false, []), true);
    HelpfulIsSmooth(Started(info), false, []);
    r := enclave.Run();
    HelpfulWait(Started(info), false, [], r);
    console := host.scene.console;
  }

  /** Clients that stay connected: the run succeeds and all of them are still being served. */
  method ConnectedClientsOutliveRun(info: Info, port: nat, clients: nat)
    returns (r: Result<ExitStatus, RunError>, served: set<nat>)
    ensures r == Ok(Exited(0)) && forall c: nat :: c in served <==> c < clients
  {
    var serving := seq(clients, i => Accept(port));
    var host := new Host(Helpful(Started(info), true, serving));
    var enclave := new Enclave(host, Manifest(false, [], false, [port]), false);
    HelpfulIsSmooth(Started(info), true, serving);
    r := enclave.Run();
    HelpfulWait(Started(info), true, serving, r);
    served := host.scene.conns;
  }

  /** A launch whose output cannot be read: the run fails and the enclave is running, unterminated. */
  method UnreadLaunchLeavesEnclave(info: Info)
    returns (r: Result<ExitStatus, RunError>, launches: seq<LaunchCall>, terminations: seq<Terminate>)
    ensures r == Err(FailedToStart) && terminations == [] && LeftRunning(launches, terminations, info)
  {
    var host := new Host(Helpful(LaunchFailed(Some(info)), true, []));
    var enclave := new Enclave(host, Manifest(false, [], false, []), false);
    HelpfulIsSmooth(LaunchFailed(Some(info)), true, []);
    r := enclave.Run();
    launches, terminations := host.launches, host.terminations;
    LeftExactly(launches, terminations, r);
  }
}
