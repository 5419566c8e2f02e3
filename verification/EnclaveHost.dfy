/**
 * The host an enclave is run on. Calls to nitro-cli, sockets and the task runtime are answered from a
 * plan; the theorems hold for every plan. While a call is under way, clients connect, connections
 * end, tasks finish and the console may exit. The host records what it was asked and what came of it.
 */
module EnclaveHost {
  import opened Bytes
  import opened RuntimeVsock
  import opened ExitWait

  datatype Info = Info(id: nat, cid: nat)

  /**
   * Outcome of run-enclave. Output that cannot be read is a failure like any other, so a failed
   * launch may have brought an enclave up.
   */
  datatype Launch = Started(info: Info) | CidConflict | LaunchFailed(up: Option<Info>)

  /** Outcome of starting a host service: in-use addresses are retried, other errors are not. */
  datatype Start = Up | AddrInUse | StartFailed

  /** The calls on the way up. */
  datatype HostCall = Described(used: Option<set<nat>>) | Bound(port: nat, result: Start)

  datatype LaunchCall = LaunchCall(cid: nat, result: Launch)

  datatype Terminate = Terminate(id: nat, ok: bool)

  //// What runs on the host

  /** What happens beside the calls. */
  datatype Traffic = Accept(port: nat) | Hangup(conn: nat) | TaskEnds(task: nat) | ConsoleExits

  /**
   * Spawned tasks with the port each one listens on; connections, numbered in the order in which they
   * were accepted, each served by a detached task of its own; and the console process.
   */
  datatype Scene = Scene(
    live: map<nat, Option<nat>>,
    accepted: seq<nat>,
    ended: set<nat>,
    conns: set<nat>,
    attached: bool,
    exited: bool,
    stop: Option<bool>,
    console: bool)

  const NOTHING := Scene(map[], [], {}, {}, false, false, None, false)

  predicate Listening(live: map<nat, Option<nat>>, port: nat) {
    exists t :: t in live && live[t] == Some(port)
  }

  /** Only a listening port accepts; a connection's task ends only by itself, which is called a hang-up. */
  function Happen(s: Scene, e: Traffic): Scene {
    match e
    case Accept(port) =>
      if Listening(s.live, port) then s.(accepted := s.accepted + [port], conns := s.conns + {|s.accepted|}) else s
    case Hangup(conn) => if conn in s.conns then s.(ended := s.ended + {conn}, conns := s.conns - {conn}) else s
    case TaskEnds(task) => s.(live := s.live - {task})
    case ConsoleExits => if s.console then s.(exited := true, console := false) else s
  }

  function Flow(s: Scene, es: seq<Traffic>): Scene {
    if es == [] then s else Happen(Flow(s, es[..|es| - 1]), es[|es| - 1])
  }

  /**
   * A connection is being served exactly from its acceptance to its end. The console runs exactly
   * from its opening until it exits or is stopped; one attempt is made to stop it.
   */
  ghost predicate Accounted(s: Scene) {
    && (forall c: nat :: c in s.conns <==> c < |s.accepted| && c !in s.ended)
    && (forall c :: c in s.ended ==> c < |s.accepted|)
    && (s.console <==> s.attached && !s.exited && s.stop != Some(true))
    && (s.exited || s.stop.Some? ==> s.attached)
  }

  /** Traffic adds no task, ends only connections that hang up, and leaves openings and stops alone. */
  lemma {:induction false} FlowKeeps(s: Scene, es: seq<Traffic>)
    requires Accounted(s)
    ensures var t := Flow(s, es);
            && Accounted(t) && t.attached == s.attached && t.stop == s.stop
            && (forall k :: k in t.live ==> k in s.live && t.live[k] == s.live[k])
            && s.accepted <= t.accepted && s.ended <= t.ended
            && (forall c :: c in t.ended ==> c in s.ended || Hangup(c) in es)
  {
    if es != [] { FlowKeeps(s, es[..|es| - 1]); }
  }

  /** What each event does to a scene. */
  lemma {:induction false} HappenMeans(s: Scene, c: nat, port: nat, task: nat)
    requires Accounted(s)
    ensures var t := Happen(s, Accept(port));
            if Listening(s.live, port) then t.accepted == s.accepted + [port] && |s.accepted| in t.conns else t == s
    ensures c in s.conns ==> c !in Happen(s, Hangup(c)).conns && c in Happen(s, Hangup(c)).ended
    ensures task !in Happen(s, TaskEnds(task)).live
    ensures s.console ==> !Happen(s, ConsoleExits).console && Happen(s, ConsoleExits).exited
  {
  }

  /** With every listener gone no connection is added; those that are left may still serve and end. */
  lemma {:induction false} OnlyHangups(s: Scene, es: seq<Traffic>)
    requires s.live == map[]
    ensures var t := Flow(s, es); t.live == map[] && t.accepted == s.accepted && t.conns <= s.conns
  {
    if es != [] { OnlyHangups(s, es[..|es| - 1]); }
  }

  /** Every event is a client connecting to one of these ports. */
  ghost predicate Visits(es: seq<Traffic>, ports: seq<nat>) {
    forall i :: 0 <= i < |es| ==> es[i].Accept? && es[i].port in ports
  }

  lemma {:induction false} VisitorsAccepted(s: Scene, es: seq<Traffic>, ports: seq<nat>)
    requires Visits(es, ports) && forall p :: p in ports ==> Listening(s.live, p)
    ensures var t := Flow(s, es); t == s.(accepted := t.accepted, conns := t.conns)
    ensures |Flow(s, es).accepted| == |s.accepted| + |es|
  {
    if es != [] { VisitorsAccepted(s, es[..|es| - 1], ports); }
  }

  //// The answers of the outside world

  /**
   * What each call will answer, by the moment at which it is made; the traffic at each moment; the
   * traffic during the wait for the exit; and the course of that wait until it ends or is cancelled.
   */
  datatype Plan = Plan(
    describe: nat -> Option<set<nat>>,
    bind: nat -> Start,
    launch: nat -> Launch,
    terminate: nat -> bool,
    attach: nat -> bool,
    kill: nat -> bool,
    traffic: nat -> seq<Traffic>,
    serving: seq<Traffic>,
    course: seq<Attempt>)

  /** Every call on the way to a launch and beyond succeeds, with a managed CID to spare. */
  ghost predicate Smooth(plan: Plan) {
    forall n ::
      && plan.describe(n).Some?
      && (exists c :: MANAGED_CID_START <= c <= MANAGED_CID_END && c !in plan.describe(n).value)
      && plan.bind(n).Up? && plan.attach(n)
  }

  lemma {:induction false} SmoothAttaches(plan: Plan)
    ensures Smooth(plan) ==> forall n :: plan.attach(n)
  {
  }

  /** Nothing happens except during the wait. */
  ghost predicate Calm(plan: Plan) { forall n :: plan.traffic(n) == [] }

  /** At some time the client of this connection hangs up. */
  ghost predicate HangsUp(plan: Plan, conn: nat) {
    Hangup(conn) in plan.serving || exists n :: Hangup(conn) in plan.traffic(n)
  }

  class Host {
    const plan: Plan
    var moment: nat
    /** Calls made on the way up, launches and terminate calls, each in order. */
    var calls: seq<HostCall>
    var launches: seq<LaunchCall>
    var terminations: seq<Terminate>
    var scene: Scene
    var nextTask: nat

    /** Nothing but its own hang-up ends a connection. */
    ghost predicate Valid()
      reads this
    {
      && (forall t :: t in scene.live ==> t < nextTask) && Accounted(scene)
      && forall c :: c in scene.ended ==> HangsUp(plan, c)
    }

    constructor (plan: Plan)
      ensures this.plan == plan && Valid() && scene == NOTHING
      ensures calls == [] && launches == [] && terminations == []
    {
      this.plan := plan;
      moment, calls, launches, terminations, scene, nextTask := 0, [], [], [], NOTHING, 0;
    }

    twostate predicate LaunchesKept()
      reads this
    {
      launches == old(launches) && terminations == old(terminations)
    }

    twostate predicate ConsoleKept()
      reads this
    {
      scene.attached == old(scene.attached) && scene.stop == old(scene.stop)
    }

    /** Accepted connections stay on record; in a calm plan nobody connects or leaves. */
    twostate predicate Moves()
      reads this
    {
      && old(scene.accepted) <= scene.accepted && old(scene.ended) <= scene.ended
      && (Calm(plan) ==>
            && scene.accepted == old(scene.accepted) && scene.ended == old(scene.ended)
            && scene.exited == old(scene.exited))
    }

    twostate predicate LiveShrinks()
      reads this
    {
      && (forall t :: t in scene.live ==> t in old(scene.live) && scene.live[t] == old(scene.live)[t])
      && (Calm(plan) ==> scene.live == old(scene.live))
    }

    /** Time passes. */
    method Tick() returns (now: nat)
      requires Valid()
      modifies this`moment, this`scene
      ensures now == old(moment) && moment == now + 1 && scene == Flow(old(scene), plan.traffic(now))
      ensures Valid() && ConsoleKept() && Moves() && LiveShrinks()
    {
      now := moment;
      FlowKeeps(scene, plan.traffic(now));
      scene := Flow(scene, plan.traffic(now));
      moment := now + 1;
    }

    /** The wait for the exit. */
    method Serve()
      requires Valid()
      modifies this`scene
      ensures Valid() && ConsoleKept() && scene == Flow(old(scene), plan.serving)
      ensures old(scene.accepted) <= scene.accepted && old(scene.ended) <= scene.ended
      ensures forall t :: t in scene.live ==> t in old(scene.live)
    {
      FlowKeeps(scene, plan.serving);
      scene := Flow(scene, plan.serving);
    }

    method RunEnclave(cid: nat) returns (r: Launch)
      requires Valid()
      modifies this
      ensures Valid() && ConsoleKept() && Moves() && LiveShrinks()
      ensures calls == old(calls) && terminations == old(terminations)
      ensures launches == old(launches) + [LaunchCall(cid, r)]
      ensures r == plan.launch(old(moment))
    {
      var now := Tick();
      r := plan.launch(now);
      launches := launches + [LaunchCall(cid, r)];
    }

    method TerminateEnclave(id: nat) returns (ok: bool)
      requires Valid()
      modifies this
      ensures Valid() && ConsoleKept() && Moves() && LiveShrinks()
      ensures calls == old(calls) && launches == old(launches)
      ensures terminations == old(terminations) + [Terminate(id, ok)]
      ensures ok == plan.terminate(old(moment))
    {
      var now := Tick();
      ok := plan.terminate(now);
      terminations := terminations + [Terminate(id, ok)];
    }

    /** The CIDs nitro-cli reports as running; the call may fail. */
    method DescribeEnclaves() returns (r: Option<set<nat>>)
      requires Valid()
      modifies this
      ensures Valid() && LaunchesKept() && ConsoleKept() && Moves() && LiveShrinks()
      ensures calls == old(calls) + [Described(r)] && r == plan.describe(old(moment))
    {
      var now := Tick();
      r := plan.describe(now);
      calls := calls + [Described(r)];
    }

    /** Run a task beside us, on a port if it listens. */
    method Spawn(port: Option<nat>) returns (task: nat)
      requires Valid()
      modifies this`scene, this`nextTask
      ensures Valid() && task !in old(scene.live)
      ensures scene == old(scene).(live := old(scene.live)[task := port])
    {
      task := nextTask;
      scene := scene.(live := scene.live[task := port]);
      nextTask := nextTask + 1;
    }

    /** Try to listen on a port. */
    method Bind(port: nat) returns (r: Start)
      requires Valid()
      modifies this
      ensures Valid() && LaunchesKept() && ConsoleKept() && Moves() && LiveShrinks()
      ensures calls == old(calls) + [Bound(port, r)] && r == plan.bind(old(moment))
    {
      var now := Tick();
      r := plan.bind(now);
      calls := calls + [Bound(port, r)];
    }

    /** Abort a task and wait until it is gone; its port is free afterwards, its connections live on. */
    method Abort(task: nat)
      requires Valid()
      modifies this
      ensures Valid() && LaunchesKept() && ConsoleKept() && Moves() && calls == old(calls)
      ensures forall t :: t in scene.live ==> t in old(scene.live) && t != task
      ensures moment == old(moment) + 1
    {
      var _ := Tick();
      scene := scene.(live := scene.live - {task});
    }

    method OpenConsole() returns (ok: bool)
      requires Valid() && !scene.attached
      modifies this
      ensures Valid() && LaunchesKept() && Moves() && LiveShrinks() && calls == old(calls)
      ensures scene.attached == ok && scene.stop == old(scene.stop) && ok == plan.attach(old(moment))
    {
      var now := Tick();
      ok := plan.attach(now);
      if ok { scene := scene.(attached := true, console := true); }
    }

    /** Kill the console; it may fail, and then the process stays. */
    method StopConsole() returns (ok: bool)
      requires Valid() && scene.attached && scene.stop == None
      modifies this
      ensures Valid() && LaunchesKept() && Moves() && LiveShrinks() && calls == old(calls)
      ensures scene.attached && scene.stop == Some(ok) && ok == plan.kill(old(moment))
    {
      var now := Tick();
      ok := plan.kill(now);
      scene := scene.(stop := Some(ok), console := scene.console && !ok);
    }
  }
}
