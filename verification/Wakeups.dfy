/**
 * The wake-up protocol between the writers of the log or the status and the tasks that stream them:
 * a writer notifies every registered watcher while it holds the lock; a streamer registers first,
 * then sends what is there, then waits for a notification it has not seen yet.
 */
module Wakeups {
  import opened Bytes
  import ByteLog

  /** A watch channel: notifications sent, notifications seen, and whether the receiver is gone. */
  datatype Channel = Channel(sent: nat, seen: nat, closed: bool)

  datatype Watches = Watches(list: seq<nat>, channels: map<nat, Channel>)

  predicate Pending(c: Channel) { c.sent != c.seen }

  /** All channels exist, each is listed once, and none has seen more than was sent. */
  ghost predicate Sane(w: Watches) {
    && (forall id :: id in w.list ==> id in w.channels)
    && (forall i, j :: 0 <= i < j < |w.list| ==> w.list[i] != w.list[j])
    && (forall id :: id in w.channels ==> w.channels[id].seen <= w.channels[id].sent)
  }

  /** What a notification does: closed channels leave the list, the others get one more message. */
  ghost predicate Notified(w: Watches, v: Watches) {
    && v.channels.Keys == w.channels.Keys
    && (forall id :: id in v.list <==> id in w.list && id in w.channels && !w.channels[id].closed)
    && (forall id :: id in w.channels ==>
          v.channels[id] == if id in v.list then w.channels[id].(sent := w.channels[id].sent + 1) else w.channels[id])
  }

  class WatchSet {
    var watches: seq<nat>
    var channels: map<nat, Channel>

    ghost function Model(): Watches
      reads this
    {
      Watches(watches, channels)
    }

    constructor ()
      ensures Model() == Watches([], map[]) && Sane(Model())
    {
      watches, channels := [], map[];
    }

    /** Register a receiver under a new channel. */
    method Add(id: nat)
      requires Sane(Model()) && id !in channels
      modifies this
      ensures Sane(Model())
      ensures Model() == Watches(old(watches) + [id], old(channels)[id := Channel(0, 0, false)])
    {
      watches := watches + [id];
      channels := channels[id := Channel(0, 0, false)];
    }

    method Notify()
      requires Sane(Model())
      modifies this
      ensures Sane(Model()) && Notified(old(Model()), Model())
    {
      ghost var before := Model();
      RetainOpen();
      ghost var kept := watches;
      ghost var had := channels;
      var i := 0;
      while i < |watches|
        invariant 0 <= i <= |watches| && watches == kept && Sane(Model())
        invariant channels.Keys == had.Keys
        invariant forall id :: id in channels ==>
          channels[id] == if id in watches[..i] then had[id].(sent := had[id].sent + 1) else had[id]
      {
        var id := watches[i];
        assert id !in watches[..i];
        assert forall x :: x in watches[..i + 1] <==> x in watches[..i] || x == id;
        channels := channels[id := channels[id].(sent := channels[id].sent + 1)];
        i := i + 1;
      }
      assert watches[..i] == watches;
    }

    /** Drop the channels whose receiver is gone. */
    method RetainOpen()
      requires Sane(Model())
      modifies this`watches
      ensures Sane(Model())
      ensures forall id :: id in watches <==> id in old(watches) && id in channels && !channels[id].closed
    {
      var kept: seq<nat> := [];
      var i := 0;
      while i < |watches|
        invariant 0 <= i <= |watches| && watches == old(watches) && channels == old(channels)
        invariant forall id :: id in kept <==> id in watches[..i] && id in channels && !channels[id].closed
        invariant forall j, k :: 0 <= j < k < |kept| ==> kept[j] != kept[k]
      {
        var id := watches[i];
        assert id !in watches[..i];
        assert forall x :: x in watches[..i + 1] <==> x in watches[..i] || x == id;
        if !channels[id].closed { kept := kept + [id]; }
        i := i + 1;
      }
      assert watches[..i] == watches;
      watches := kept;
    }
  }

  //// Streaming the log

  datatype Phase = Copying | Sending | Waiting | Gone

  datatype Streamer = Streamer(pos: nat, phase: Phase)

  datatype LogState = LogState(total: nat, head: nat, w: Watches, streamers: map<nat, Streamer>)

  datatype LogEvent =
    | Appended(n: nat, trimmed: nat)
    | Joined(id: nat)
    | Read(id: nat)
    | Sent(id: nat, ok: bool)
    | Woken(id: nat)

  /** One atomic action of the log writer or of a streamer. */
  ghost predicate LogNext(s: LogState, e: LogEvent, t: LogState) {
    match e
    case Appended(n, trimmed) =>
      && t.total == s.total + n && t.head == s.head + trimmed <= t.total
      && t.streamers == s.streamers && Notified(s.w, t.w) && Sane(t.w)
    case Joined(id) =>
      && id !in s.streamers && id !in s.w.channels
      && t == s.(w := Watches(s.w.list + [id], s.w.channels[id := Channel(0, 0, false)]),
                 streamers := s.streamers[id := Streamer(0, Copying)])
    case Read(id) =>
      && id in s.streamers && s.streamers[id].phase == Copying
      && var from := Max(s.streamers[id].pos, s.head);
         if from >= s.total then t == s.(streamers := s.streamers[id := Streamer(from, Waiting)])
         else
           var n := if s.total - from < ByteLog.READ_SIZE then s.total - from else ByteLog.READ_SIZE;
           t == s.(streamers := s.streamers[id := Streamer(from + n, Sending)])
    case Sent(id, ok) =>
      && id in s.streamers && s.streamers[id].phase == Sending && id in s.w.channels
      && if ok then t == s.(streamers := s.streamers[id := s.streamers[id].(phase := Copying)])
         else t == s.(streamers := s.streamers[id := s.streamers[id].(phase := Gone)],
                      w := s.w.(channels := s.w.channels[id := s.w.channels[id].(closed := true)]))
    case Woken(id) =>
      && id in s.streamers && s.streamers[id].phase == Waiting && id in s.w.channels
      && var c := s.w.channels[id];
         Pending(c) &&
         t == s.(streamers := s.streamers[id := s.streamers[id].(phase := Copying)],
                 w := s.w.(channels := s.w.channels[id := c.(seen := c.sent)]))
  }

  /** A streamer that can only move when it is notified. */
  predicate Blocked(s: LogState, id: nat) {
    id in s.streamers && s.streamers[id].phase == Waiting && id in s.w.channels && !Pending(s.w.channels[id])
  }

  ghost predicate LogInv(s: LogState) {
    && s.head <= s.total && Sane(s.w)
    && (forall id :: id in s.streamers && s.streamers[id].phase != Gone ==>
          id in s.w.list && id in s.w.channels && !s.w.channels[id].closed)
    && (forall id :: id in s.streamers ==> s.streamers[id].pos <= s.total)
    && (forall id :: id in s.streamers && s.streamers[id].phase == Waiting ==>
          id in s.w.channels && (s.streamers[id].pos == s.total || Pending(s.w.channels[id])))
  }

  lemma {:induction false} LogStepKeepsInv(s: LogState, e: LogEvent, t: LogState)
    requires LogInv(s) && LogNext(s, e, t)
    ensures LogInv(t)
  {
    match e
    case Appended(_, _) =>
      forall id | id in t.streamers && t.streamers[id].phase == Waiting
        ensures Pending(t.w.channels[id])
      {
        assert id in t.w.list;
      }
    case Joined(id) => assert forall x :: x in t.w.list <==> x in s.w.list || x == id;
    case Read(_) =>
    case Sent(_, _) =>
    case Woken(_) =>
  }

  const LOG_START := LogState(0, 0, Watches([], map[]), map[])

  /** A finite run: each state follows from the one before by the event between them. */
  ghost predicate LogRun(states: seq<LogState>, events: seq<LogEvent>) {
    && |states| == |events| + 1 && states[0] == LOG_START
    && forall i :: 0 <= i < |events| ==> LogNext(states[i], events[i], states[i + 1])
  }

  lemma {:induction false} LogRunKeepsInv(states: seq<LogState>, events: seq<LogEvent>, k: nat)
    requires LogRun(states, events) && k < |states|
    ensures LogInv(states[k])
  {
    if k > 0 {
      LogRunKeepsInv(states, events, k - 1);
      LogStepKeepsInv(states[k - 1], events[k - 1], states[k]);
    }
  }

  /** No lost wake-up: in every run, a blocked log streamer has reached the end of all appended bytes. */
  lemma {:induction false} BlockedReaderIsDone(states: seq<LogState>, events: seq<LogEvent>, k: nat, id: nat)
    requires LogRun(states, events) && k < |states| && Blocked(states[k], id)
    ensures states[k].streamers[id].pos == states[k].total
  {
    LogRunKeepsInv(states, events, k);
  }

  /** Conversely, an append wakes every waiting streamer. */
  lemma {:induction false} AppendWakesAll(s: LogState, e: LogEvent, t: LogState, id: nat)
    requires LogInv(s) && e.Appended? && LogNext(s, e, t)
    requires id in t.streamers && t.streamers[id].phase == Waiting
    ensures !Blocked(t, id)
  {
    assert id in t.w.list;
  }

  /** What a streamer has still to do before it is blocked, if nothing is appended. */
  ghost function LeftToDo(s: LogState, id: nat): nat
    requires id in s.streamers && id in s.w.channels && s.streamers[id].pos <= s.total && s.head <= s.total
  {
    var left := 2 * (s.total - Max(s.streamers[id].pos, s.head));
    (if Pending(s.w.channels[id]) then 2 * s.total + 3 else 0)
    + match s.streamers[id].phase
      case Copying => left + 1
      case Sending => left + 2
      case Waiting => 0
      case Gone => 0
  }

  /** A streamer that is neither blocked nor gone can move on, and then has less to do. */
  lemma {:induction false} StreamerMoves(s: LogState, id: nat) returns (e: LogEvent, t: LogState)
    requires LogInv(s) && id in s.streamers && s.streamers[id].phase != Gone && !Blocked(s, id)
    ensures LogNext(s, e, t) && t.total == s.total && t.head == s.head
    ensures id in t.streamers && t.streamers[id].phase != Gone && id in t.w.channels && t.streamers[id].pos <= t.total
    ensures LeftToDo(t, id) < LeftToDo(s, id)
  {
    var x := s.streamers[id];
    match x.phase
    case Copying =>
      e := Read(id);
      var from := Max(x.pos, s.head);
      var n := if s.total - from < 4096 then s.total - from else 4096;
      t := s.(streamers := s.streamers[id := if n == 0 then Streamer(from, Waiting) else Streamer(from + n, Sending)]);
    case Sending =>
      e := Sent(id, true);
      t := s.(streamers := s.streamers[id := x.(phase := Copying)]);
    case Waiting =>
      e := Woken(id);
      var c := s.w.channels[id];
      t := s.(streamers := s.streamers[id := x.(phase := Copying)],
              w := s.w.(channels := s.w.channels[id := c.(seen := c.sent)]));
    case Gone =>
  }

  /** Anyone can join at any time. */
  lemma {:induction false} CanJoin(s: LogState, u: StatusState, id: nat) returns (t: LogState, v: StatusState)
    requires id !in s.streamers && id !in s.w.channels && id !in u.streamers && id !in u.w.channels
    ensures LogNext(s, Joined(id), t) && t.streamers.Keys == s.streamers.Keys + {id}
    ensures StatusNext(u, StatusJoined(id), v) && v.streamers.Keys == u.streamers.Keys + {id}
  {
    t := s.(w := Watches(s.w.list + [id], s.w.channels[id := Channel(0, 0, false)]),
            streamers := s.streamers[id := Streamer(0, Copying)]);
    v := u.(w := Watches(u.w.list + [id], u.w.channels[id := Channel(0, 0, false)]),
            streamers := u.streamers[id := Reading]);
  }

  /** A new streamer starts at the beginning with nothing pending; one whose client is gone is dropped. */
  lemma {:induction false} ComingAndGoing(s: LogState, e: LogEvent, t: LogState)
    requires LogNext(s, e, t)
    ensures e.Joined? ==>
              && e.id in t.streamers && t.streamers[e.id] == Streamer(0, Copying)
              && e.id in t.w.list && e.id in t.w.channels && !Pending(t.w.channels[e.id]) && !t.w.channels[e.id].closed
    ensures e.Sent? && !e.ok ==>
              && e.id in t.streamers && t.streamers[e.id].phase == Gone
              && e.id in t.w.channels && t.w.channels[e.id].closed
    ensures e.Sent? && e.ok ==> e.id in t.streamers && t.streamers[e.id] == Streamer(s.streamers[e.id].pos, Copying)
    ensures e.Appended? ==> t.total == s.total + e.n && t.streamers == s.streamers && t.head == s.head + e.trimmed
  {
    if e.Joined? { assert (s.w.list + [e.id])[|s.w.list|] == e.id; }
  }

  //// Streaming the status

  datatype StatusStreamer = Reading | Telling(status: string) | Idle(status: string)

  datatype StatusState = StatusState(status: string, w: Watches, streamers: map<nat, StatusStreamer>)

  datatype StatusEvent =
    | Changed(status: string)
    | StatusJoined(id: nat)
    | ReadStatus(id: nat)
    | Told(id: nat)
    | StatusWoken(id: nat)

  /** Write errors are ignored here, so a streamer never leaves by itself. */
  ghost predicate StatusNext(s: StatusState, e: StatusEvent, t: StatusState) {
    match e
    case Changed(status) => t.status == status && t.streamers == s.streamers && Notified(s.w, t.w) && Sane(t.w)
    case StatusJoined(id) =>
      && id !in s.streamers && id !in s.w.channels
      && t == s.(w := Watches(s.w.list + [id], s.w.channels[id := Channel(0, 0, false)]),
                 streamers := s.streamers[id := Reading])
    case ReadStatus(id) =>
      id in s.streamers && s.streamers[id].Reading? && t == s.(streamers := s.streamers[id := Telling(s.status)])
    case Told(id) =>
      && id in s.streamers && s.streamers[id].Telling?
      && t == s.(streamers := s.streamers[id := Idle(s.streamers[id].status)])
    case StatusWoken(id) =>
      && id in s.streamers && s.streamers[id].Idle? && id in s.w.channels
      && var c := s.w.channels[id];
         Pending(c) &&
         t == s.(streamers := s.streamers[id := Reading], w := s.w.(channels := s.w.channels[id := c.(seen := c.sent)]))
  }

  ghost predicate StatusInv(s: StatusState) {
    && Sane(s.w)
    && (forall id :: id in s.streamers ==> id in s.w.list && id in s.w.channels && !s.w.channels[id].closed)
    && (forall id :: id in s.streamers && !s.streamers[id].Reading? ==>
          id in s.w.channels && (s.streamers[id].status == s.status || Pending(s.w.channels[id])))
  }

  lemma {:induction false} StatusStepKeepsInv(s: StatusState, e: StatusEvent, t: StatusState)
    requires StatusInv(s) && StatusNext(s, e, t)
    ensures StatusInv(t)
  {
    match e
    case Changed(_) =>
      forall id | id in t.streamers
        ensures Pending(t.w.channels[id])
      {
        assert id in t.w.list;
      }
    case StatusJoined(id) => assert forall x :: x in t.w.list <==> x in s.w.list || x == id;
    case ReadStatus(_) =>
    case Told(_) =>
    case StatusWoken(_) =>
  }

  ghost predicate StatusRun(states: seq<StatusState>, events: seq<StatusEvent>) {
    && |states| == |events| + 1
    && states[0].w == Watches([], map[]) && states[0].streamers == map[]
    && forall i :: 0 <= i < |events| ==> StatusNext(states[i], events[i], states[i + 1])
  }

  lemma {:induction false} StatusRunKeepsInv(states: seq<StatusState>, events: seq<StatusEvent>, k: nat)
    requires StatusRun(states, events) && k < |states|
    ensures StatusInv(states[k])
  {
    if k > 0 {
      StatusRunKeepsInv(states, events, k - 1);
      StatusStepKeepsInv(states[k - 1], events[k - 1], states[k]);
    }
  }

  /** In every run, a blocked status streamer has already sent the current status. */
  lemma {:induction false} BlockedTellerIsCurrent(states: seq<StatusState>, events: seq<StatusEvent>, k: nat, id: nat)
    requires StatusRun(states, events) && k < |states|
    requires id in states[k].streamers && states[k].streamers[id].Idle?
    requires id in states[k].w.channels && !Pending(states[k].w.channels[id])
    ensures states[k].streamers[id].status == states[k].status
  {
    StatusRunKeepsInv(states, events, k);
  }

  ghost function StatusLeft(s: StatusState, id: nat): nat
    requires id in s.streamers && id in s.w.channels
  {
    (if Pending(s.w.channels[id]) then 3 else 0)
    + match s.streamers[id]
      case Reading => 2
      case Telling(_) => 1
      case Idle(_) => 0
  }

  /** A status streamer that is not blocked can move on, and then has less to do. */
  lemma {:induction false} TellerMoves(s: StatusState, id: nat) returns (e: StatusEvent, t: StatusState)
    requires StatusInv(s) && id in s.streamers
    requires !(s.streamers[id].Idle? && !Pending(s.w.channels[id]))
    ensures StatusNext(s, e, t) && t.status == s.status && id in t.streamers && id in t.w.channels
    ensures StatusLeft(t, id) < StatusLeft(s, id)
  {
    match s.streamers[id]
    case Reading =>
      e, t := ReadStatus(id), s.(streamers := s.streamers[id := Telling(s.status)]);
    case Telling(status) =>
      e, t := Told(id), s.(streamers := s.streamers[id := Idle(status)]);
    case Idle(_) =>
      var c := s.w.channels[id];
      e := StatusWoken(id);
      t := s.(streamers := s.streamers[id := Reading], w := s.w.(channels := s.w.channels[id := c.(seen := c.sent)]));
  }

  /** A change sets the status; a new streamer reads it first, with nothing pending. */
  lemma {:induction false} StatusChanges(s: StatusState, e: StatusEvent, t: StatusState)
    requires StatusNext(s, e, t)
    ensures e.Changed? ==> t.status == e.status && t.streamers == s.streamers
    ensures !e.Changed? ==> t.status == s.status
    ensures e.StatusJoined? ==>
              && e.id in t.streamers && t.streamers[e.id].Reading?
              && e.id in t.w.channels && !Pending(t.w.channels[e.id])
  {
  }
}
