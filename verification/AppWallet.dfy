/**
 * App-wallet initialisation on a shared key-value store: read key and address; if both are missing,
 * generate a wallet, write key and address, and read both back. Any number of calls from any number
 * of enclave instances interleave. The store is linearizable and never deletes these two records. One
 * write is many requests (retries on every node), so it may land any number of times from its
 * beginning on, also after the call has moved on or failed, until no request is under way any more.
 */
module AppWallet {
  import opened Bytes

  datatype Material = Material(privateKey: string, address: string)

  /** How records are written and read: base64, hex and the key-to-address map stay abstract. */
  datatype Codec = Codec(
    encodeKey: string -> string,
    encodeAddress: string -> string,
    decodeKey: string -> Option<string>,
    decodeAddress: string -> Option<string>,
    addressOf: string -> Option<string>)

  /** Records decode to what was encoded. */
  ghost predicate Lossless(c: Codec) {
    && (forall k :: c.decodeKey(c.encodeKey(k)) == Some(k))
    && (forall a :: c.decodeAddress(c.encodeAddress(a)) == Some(a))
  }

  const CACHE_TTL: nat := 10_000

  datatype Failure = Transport | Incomplete | Mismatch

  type Outcome = Result<Material, Failure>

  /** The stored pair is usable when both records decode and belong together. */
  function Decode(c: Codec, key: string, address: string): Outcome {
    match c.decodeKey(key)
    case None => Err(Mismatch)
    case Some(k) =>
      match c.decodeAddress(address)
      case None => Err(Mismatch)
      case Some(a) => if c.addressOf(k) == Some(a) then Ok(Material(k, a)) else Err(Mismatch)
  }

  datatype Phase =
    | Fresh
    | Stale
    | Missed
    | ReadKey(key: Option<string>)
    | ReadBoth(key: Option<string>, address: Option<string>)
    | Generated
    | WroteKey
    | WroteBoth
    | RereadKey(key: Option<string>)
    | Resolved(material: Material)
    | Done(outcome: Outcome)

  /**
   * A call: its instance, the clock as it read it on entry, and where it is; whether its cache had
   * nothing for it; what it generated and which records it read back; whether requests of its two
   * writes may still reach the store.
   */
  datatype Call = Call(
    instance: nat,
    clock: nat,
    phase: Phase,
    missed: bool,
    gen: Option<Material>,
    reread: Option<(string, string)>,
    keyOpen: bool,
    addressOpen: bool)

  datatype Cached = Cached(material: Material, expiresAt: nat)

  datatype State = State(
    now: nat,
    key: Option<string>,
    address: Option<string>,
    caches: map<nat, Cached>,
    calls: map<nat, Call>,
    written: bool,
    early: set<nat>,
    writers: set<nat>)

  datatype Event =
    | Tick(elapsed: nat)
    | Start(instance: nat)
    | LookInCache
    | DropCache
    | GetKey(ok: bool)
    | GetAddress(ok: bool)
    | Decide(gen: Material)
    | PutKey(ok: bool)
    | PutAddress(ok: bool)
    | RegetKey(ok: bool)
    | RegetAddress(ok: bool)
    | Store(lag: nat)
    | LandKey
    | LandAddress
    | RequestsOver

  /** One step of call `p`; `None` if it cannot happen now. */
  function Step(c: Codec, s: State, p: nat, e: Event): Option<State> {
    if e.Tick? then Some(s.(now := s.now + e.elapsed))
    else if e.Start? then
      if p in s.calls then None
      else Some(s.(calls := s.calls[p := Call(e.instance, s.now, Fresh, false, None, None, false, false)]))
    else if p !in s.calls then None
    else match Advance(c, s, s.calls[p], e)
      case None => None
      case Some(call) => Some(Effect(c, s, p, s.calls[p], e).(calls := s.calls[p := call]))
  }

  //// What a step does to its call

  function Advance(c: Codec, s: State, call: Call, e: Event): Option<Call> {
    match e
    case LookInCache => if call.phase.Fresh? then Some(call.(phase := LookedUp(s, call))) else None
    case DropCache => if call.phase.Stale? then Some(call.(phase := Missed, missed := true)) else None
    case GetKey(ok) => if call.phase.Missed? then Some(call.(phase := IfAnswered(ok, ReadKey(s.key)))) else None
    case GetAddress(ok) =>
      if call.phase.ReadKey? then Some(call.(phase := IfAnswered(ok, ReadBoth(call.phase.key, s.address)))) else None
    case Decide(gen) => OnDecide(c, call, gen)
    case PutKey(ok) => OnPutKey(call, ok)
    case PutAddress(ok) => if call.phase.WroteKey? then Some(call.(phase := IfAnswered(ok, WroteBoth))) else None
    case RegetKey(ok) => if call.phase.WroteBoth? then Some(call.(phase := IfAnswered(ok, RereadKey(s.key)))) else None
    case RegetAddress(ok) => OnRegetAddress(c, s, call, ok)
    case Store(_) => if call.phase.Resolved? then Some(call.(phase := Done(Ok(call.phase.material)))) else None
    case LandKey => if call.keyOpen then Some(call) else None
    case LandAddress => if call.addressOpen then Some(call) else None
    case RequestsOver =>
      if call.phase.Generated? || call.phase.WroteKey? then None
      else Some(call.(keyOpen := false, addressOpen := false))
    case _ => None
  }

  function IfAnswered(ok: bool, next: Phase): Phase { if ok then next else Done(Err(Transport)) }

  /** The clock is read before the lock of the cache is taken. */
  function LookedUp(s: State, call: Call): Phase {
    var i := call.instance;
    if i in s.caches && call.clock < s.caches[i].expiresAt then Done(Ok(s.caches[i].material)) else Stale
  }

  /** Outcome of reading a pair of records that are not both missing. */
  function Verdict(c: Codec, key: Option<string>, address: Option<string>): Outcome {
    if key.None? || address.None? then Err(Incomplete) else Decode(c, key.value, address.value)
  }

  function Settle(o: Outcome): Phase { if o.Ok? then Resolved(o.value) else Done(o) }

  /** With nothing stored a wallet is generated and the write of its key begins. */
  function OnDecide(c: Codec, call: Call, gen: Material): Option<Call> {
    var ph := call.phase;
    if !ph.ReadBoth? then None
    else if ph.key.Some? || ph.address.Some? then Some(call.(phase := Settle(Verdict(c, ph.key, ph.address))))
    else if c.addressOf(gen.privateKey) != Some(gen.address) then None
    else Some(call.(phase := Generated, gen := Some(gen), keyOpen := true))
  }

  /** Once the key is acknowledged the write of the address begins. */
  function OnPutKey(call: Call, ok: bool): Option<Call> {
    if !call.phase.Generated? then None
    else Some(call.(phase := IfAnswered(ok, WroteKey), addressOpen := call.addressOpen || ok))
  }

  /** The records read back must decode to exactly what this call generated. */
  function OnRegetAddress(c: Codec, s: State, call: Call, ok: bool): Option<Call> {
    if !call.phase.RereadKey? then None
    else if !ok then Some(call.(phase := Done(Err(Transport))))
    else if call.phase.key.None? || s.address.None? then Some(call.(phase := Done(Err(Incomplete))))
    else
      var o := Decode(c, call.phase.key.value, s.address.value);
      var next := if o.Ok? && Some(o.value) != call.gen then Done(Err(Mismatch)) else Settle(o);
      Some(call.(phase := next, reread := Some((call.phase.key.value, s.address.value))))
  }

  //// What a step does to the store and the caches

  /**
   * An acknowledged write has landed; other requests of a write land when they land. The cache is
   * emptied under another lock than it was read under, whatever it holds by then. The first read
   * fixes whether a call came before the first write.
   */
  function Effect(c: Codec, s: State, p: nat, call: Call, e: Event): State {
    if e == GetKey(true) && !s.written then s.(early := s.early + {p})
    else if e == PutKey(true) || e.LandKey? then KeyLands(c, s, p, call.gen)
    else if e == PutAddress(true) || e.LandAddress? then AddressLands(c, s, p, call.gen)
    else if e.DropCache? then s.(caches := s.caches - {call.instance})
    else if e.Store? && call.phase.Resolved? then
      s.(caches := s.caches[call.instance := Cached(call.phase.material, Earlier(s.now, e.lag) + CACHE_TTL)])
    else s
  }

  /** A clock reading made some time before. */
  function Earlier(now: nat, lag: nat): nat { if lag <= now then now - lag else 0 }

  function KeyLands(c: Codec, s: State, p: nat, gen: Option<Material>): State {
    if gen.None? then s
    else s.(key := Some(c.encodeKey(gen.value.privateKey)), written := true, writers := s.writers + {p})
  }

  function AddressLands(c: Codec, s: State, p: nat, gen: Option<Material>): State {
    if gen.None? then s
    else s.(address := Some(c.encodeAddress(gen.value.address)), written := true, writers := s.writers + {p})
  }

  type Trace = seq<(nat, Event)>

  function Run(c: Codec, s: State, trace: Trace): Option<State>
    decreases trace
  {
    if trace == [] then Some(s)
    else match Step(c, s, trace[0].0, trace[0].1)
      case None => None
      case Some(t) => Run(c, t, trace[1..])
  }

  /** Any initial content of the store. */
  function Initial(key: Option<string>, address: Option<string>): State {
    State(0, key, address, map[], map[], false, {}, {})
  }

  //// Invariant

  /** The call has seen no key record, so it may write; or it writes, or its requests may still land. */
  predicate MayWrite(call: Call) {
    var ph := call.phase;
    || (ph.ReadKey? && ph.key.None?) || (ph.ReadBoth? && ph.key.None?) || ph.Generated? || ph.WroteKey?
    || call.keyOpen || call.addressOpen
  }

  ghost predicate Matching(c: Codec, m: Material) { c.addressOf(m.privateKey) == Some(m.address) }

  /** Before the store is read. */
  predicate Unread(ph: Phase) { ph.Fresh? || ph.Stale? || ph.Missed? }

  /** Only early calls generate and write, and what a call holds fits where it is. */
  ghost predicate Placed(s: State, p: nat, call: Call) {
    && (MayWrite(call) || call.gen.Some? ==> p in s.early)
    && (call.phase.WroteKey? || call.addressOpen ==> s.written)
    && (Unread(call.phase) || call.phase.ReadKey? || call.phase.ReadBoth? ==> call.gen.None?)
    && (call.phase.Generated? || call.phase.WroteKey? || call.phase.WroteBoth? || call.phase.RereadKey? ==>
          call.gen.Some?)
    && (call.keyOpen || call.addressOpen ==> call.gen.Some?)
    && (call.phase.Fresh? || call.phase.Stale? ==> !call.missed) && (call.phase.Missed? ==> call.missed)
  }

  /** What a call generates or accepts is a wallet, and what it accepts is its own if it has one. */
  ghost predicate Honest(c: Codec, call: Call) {
    && (call.gen.Some? ==> Matching(c, call.gen.value))
    && (call.phase.Resolved? ==> Matching(c, call.phase.material) && OwnWallet(c, call, call.phase.material))
    && (call.phase.Done? && call.phase.outcome.Ok? ==>
          Matching(c, call.phase.outcome.value) && OwnWallet(c, call, call.phase.outcome.value))
  }

  ghost predicate CallOk(c: Codec, s: State, p: nat, call: Call) { Placed(s, p, call) && Honest(c, call) }

  /** A call that generated a wallet only accepts that wallet, as read back from both records. */
  ghost predicate OwnWallet(c: Codec, call: Call, m: Material) {
    call.gen.Some? ==>
      && call.gen == Some(m) && call.reread.Some?
      && c.decodeKey(call.reread.value.0) == Some(m.privateKey)
      && c.decodeAddress(call.reread.value.1) == Some(m.address)
  }

  ghost predicate Inv(c: Codec, s: State) {
    && (s.written ==> s.key.Some?)
    && s.writers <= s.early
    && (forall i :: i in s.caches ==> Matching(c, s.caches[i].material) && s.caches[i].expiresAt <= s.now + CACHE_TTL)
    && (forall p :: p in s.calls ==> CallOk(c, s, p, s.calls[p]))
  }

  lemma {:induction false} StepKeepsInv(c: Codec, s: State, p: nat, e: Event)
    requires Inv(c, s) && Step(c, s, p, e).Some?
    ensures Inv(c, Step(c, s, p, e).value)
  {
    var t := Step(c, s, p, e).value;
    StoreStep(c, s, p, e);
    hide CallOk;
    forall q | q in t.calls
      ensures CallOk(c, t, q, t.calls[q])
    {
      if q == p { OwnStep(c, s, p, e); } else { OtherStep(c, s, p, e, q); }
    }
  }

  lemma {:induction false} StoreStep(c: Codec, s: State, p: nat, e: Event)
    requires Inv(c, s) && Step(c, s, p, e).Some?
    ensures var t := Step(c, s, p, e).value;
            && (t.written ==> t.key.Some?) && t.writers <= t.early
            && forall i :: i in t.caches ==>
                 Matching(c, t.caches[i].material) && t.caches[i].expiresAt <= t.now + CACHE_TTL
  {
    hide CallOk;
    if p in s.calls && !e.Tick? && !e.Start? {
      assert CallOk(c, s, p, s.calls[p]);
      StoreEffect(c, s, p, s.calls[p], e);
      hide Advance, Effect;
    }
  }

  lemma {:induction false} StoreEffect(c: Codec, s: State, p: nat, call: Call, e: Event)
    requires (s.written ==> s.key.Some?) && s.writers <= s.early && CallOk(c, s, p, call)
    requires Advance(c, s, call, e).Some?
    requires forall i :: i in s.caches ==>
              Matching(c, s.caches[i].material) && s.caches[i].expiresAt <= s.now + CACHE_TTL
    ensures var t := Effect(c, s, p, call, e);
            && (t.written ==> t.key.Some?) && t.writers <= t.early && t.now == s.now
            && forall i :: i in t.caches ==>
                 Matching(c, t.caches[i].material) && t.caches[i].expiresAt <= t.now + CACHE_TTL
  {
    hide Verdict, Decode;
  }

  lemma {:induction false} OwnStep(c: Codec, s: State, p: nat, e: Event)
    requires Inv(c, s) && Step(c, s, p, e).Some? && p in Step(c, s, p, e).value.calls
    ensures var t := Step(c, s, p, e).value; CallOk(c, t, p, t.calls[p])
  {
    if p in s.calls {
      assert CallOk(c, s, p, s.calls[p]);
      if !e.Tick? && !e.Start? {
        AdvancePlaced(c, s, p, s.calls[p], e);
        AdvanceHonest(c, s, s.calls[p], e);
        hide Advance, Effect, Placed, Honest;
        PlacedEarly(Effect(c, s, p, s.calls[p], e), Step(c, s, p, e).value, p);
      }
    }
  }

  lemma {:induction false} PlacedEarly(s: State, t: State, p: nat)
    requires s.early == t.early && s.written == t.written
    ensures forall call :: Placed(s, p, call) ==> Placed(t, p, call)
  {
  }

  lemma {:induction false} AdvancePlaced(c: Codec, s: State, p: nat, call: Call, e: Event)
    requires Placed(s, p, call) && (s.written ==> s.key.Some?) && Advance(c, s, call, e).Some?
    ensures Placed(Effect(c, s, p, call, e), p, Advance(c, s, call, e).value)
  {
    hide Decode;
  }

  lemma {:induction false} AdvanceHonest(c: Codec, s: State, call: Call, e: Event)
    requires Honest(c, call) && Advance(c, s, call, e).Some?
    requires call.phase.ReadBoth? ==> call.gen.None?
    requires call.phase.Fresh? ==> call.gen.None?
    requires forall i :: i in s.caches ==> Matching(c, s.caches[i].material)
    ensures Honest(c, Advance(c, s, call, e).value)
  {
  }

  /** A step leaves the other calls as they are. */
  lemma {:induction false} OthersStay(c: Codec, s: State, p: nat, e: Event, q: nat)
    requires Step(c, s, p, e).Some? && q != p
    ensures var t := Step(c, s, p, e).value;
            (q in t.calls <==> q in s.calls) && (q in s.calls ==> t.calls[q] == s.calls[q])
  {
  }

  lemma {:induction false} OtherStep(c: Codec, s: State, p: nat, e: Event, q: nat)
    requires Inv(c, s) && Step(c, s, p, e).Some? && q in Step(c, s, p, e).value.calls && q != p
    ensures var t := Step(c, s, p, e).value; CallOk(c, t, q, t.calls[q])
  {
    var t := Step(c, s, p, e).value;
    OthersStay(c, s, p, e, q);
    if p in s.calls { EffectGrows(c, s, p, s.calls[p], e); }
    assert s.early <= t.early && (s.written ==> t.written) by { hide Advance, Effect; }
    hide Step;
    assert CallOk(c, s, q, s.calls[q]);
  }

  lemma {:induction false} EffectGrows(c: Codec, s: State, p: nat, call: Call, e: Event)
    ensures var t := Effect(c, s, p, call, e); s.early <= t.early && (s.written ==> t.written) && t.now == s.now
  {
  }

  lemma {:induction false} RunKeepsInv(c: Codec, s: State, trace: Trace)
    requires Inv(c, s) && Run(c, s, trace).Some?
    ensures Inv(c, Run(c, s, trace).value)
    decreases trace
  {
    if trace != [] {
      StepKeepsInv(c, s, trace[0].0, trace[0].1);
      RunKeepsInv(c, Step(c, s, trace[0].0, trace[0].1).value, trace[1..]);
    }
  }

  /**
   * In every interleaving: only calls whose first read came before the first write ever write;
   * every accepted wallet has an address that belongs to its key; a call that generated a wallet
   * succeeds only with that wallet, found in both records it read back.
   */
  lemma {:induction false} WalletSafety(c: Codec, key: Option<string>, address: Option<string>, trace: Trace)
    requires Run(c, Initial(key, address), trace).Some?
    ensures var s := Run(c, Initial(key, address), trace).value;
            && s.writers <= s.early
            && forall p :: p in s.calls && s.calls[p].phase.Done? && s.calls[p].phase.outcome.Ok? ==>
                 var m := s.calls[p].phase.outcome.value;
                 Matching(c, m) && OwnWallet(c, s.calls[p], m)
  {
    RunKeepsInv(c, Initial(key, address), trace);
    var s := Run(c, Initial(key, address), trace).value;
    assert forall p :: p in s.calls ==> CallOk(c, s, p, s.calls[p]);
  }

  //// Transport failures come from requests that failed

  /** A request of the call that was not answered. */
  predicate FailedRequest(e: Event) {
    e in {GetKey(false), GetAddress(false), PutKey(false), PutAddress(false), RegetKey(false), RegetAddress(false)}
  }

  ghost predicate RequestFailed(trace: Trace, q: nat) {
    exists i :: 0 <= i < |trace| && trace[i].0 == q && FailedRequest(trace[i].1)
  }

  lemma {:induction false} AdvanceTransport(c: Codec, s: State, call: Call, e: Event)
    requires Advance(c, s, call, e).Some? && Advance(c, s, call, e).value.phase == Done(Err(Transport))
    ensures FailedRequest(e) || call.phase == Done(Err(Transport))
  {
  }

  lemma {:induction false} StepTransport(c: Codec, s: State, p: nat, e: Event, q: nat)
    requires Step(c, s, p, e).Some? && q in Step(c, s, p, e).value.calls
    requires Step(c, s, p, e).value.calls[q].phase == Done(Err(Transport))
    ensures (p == q && FailedRequest(e)) || (q in s.calls && s.calls[q].phase == Done(Err(Transport)))
  {
    hide Advance, Effect;
    if q in s.calls && p == q && !e.Tick? && !e.Start? { AdvanceTransport(c, s, s.calls[q], e); }
  }

  /** And a request that is not answered ends its call that way. */
  lemma {:induction false} FailureEndsCall(c: Codec, s: State, p: nat, e: Event)
    requires FailedRequest(e) && Step(c, s, p, e).Some?
    ensures p in Step(c, s, p, e).value.calls && Step(c, s, p, e).value.calls[p].phase == Done(Err(Transport))
  {
  }

  /**
   * From the moment a wallet is generated its key may land at any time, and from the acknowledgement
   * of the key its address too, until the call is past its writes and its requests are over.
   */
  lemma {:induction false} WritesMayLand(c: Codec, s: State, p: nat)
    requires p in s.calls && s.calls[p].gen.Some?
    ensures s.calls[p].keyOpen ==>
              var t := Step(c, s, p, LandKey);
              && t.Some? && t.value.key == Some(c.encodeKey(s.calls[p].gen.value.privateKey))
              && t.value.address == s.address
    ensures s.calls[p].addressOpen ==>
              var t := Step(c, s, p, LandAddress);
              && t.Some? && t.value.address == Some(c.encodeAddress(s.calls[p].gen.value.address))
              && t.value.key == s.key
    ensures Step(c, s, p, RequestsOver).Some? <==> !s.calls[p].phase.Generated? && !s.calls[p].phase.WroteKey?
    ensures Step(c, s, p, RequestsOver).Some? ==>
              var u := Step(c, s, p, RequestsOver).value;
              p in u.calls && !u.calls[p].keyOpen && !u.calls[p].addressOpen && u.calls[p].phase == s.calls[p].phase
  {
  }

  /** When those spans begin. */
  lemma {:induction false} WritesBegin(c: Codec, s: State, p: nat, m: Material)
    requires p in s.calls
    ensures s.calls[p].phase == ReadBoth(None, None) && Matching(c, m) ==>
              var t := Step(c, s, p, Decide(m));
              t.Some? && p in t.value.calls && t.value.calls[p].phase.Generated? && t.value.calls[p].gen == Some(m)
              && t.value.calls[p].keyOpen
    ensures s.calls[p].phase.Generated? ==>
              forall ok :: var t := Step(c, s, p, PutKey(ok));
                           && t.Some? && p in t.value.calls && t.value.calls[p].keyOpen == s.calls[p].keyOpen
                           && (ok ==> t.value.calls[p].addressOpen)
  {
  }

  /** A call ends with a transport failure only if one of its own requests was not answered. */
  lemma {:induction false} TransportMeans(c: Codec, s: State, trace: Trace, q: nat)
    requires Run(c, s, trace).Some? && q in Run(c, s, trace).value.calls
    requires Run(c, s, trace).value.calls[q].phase == Done(Err(Transport))
    ensures RequestFailed(trace, q) || (q in s.calls && s.calls[q].phase == Done(Err(Transport)))
    decreases trace
  {
    hide Step;
    if trace != [] {
      var t := Step(c, s, trace[0].0, trace[0].1).value;
      TransportMeans(c, t, trace[1..], q);
      if RequestFailed(trace[1..], q) {
        var i :| 0 <= i < |trace| - 1 && trace[1..][i].0 == q && FailedRequest(trace[1..][i].1);
        assert trace[i + 1] == trace[1..][i];
      } else {
        StepTransport(c, s, trace[0].0, trace[0].1, q);
      }
    }
  }

  //// After the early calls have finished

  /** The key record exists and no call can write any more. */
  ghost predicate Settled(s: State) {
    s.key.Some? && forall p :: p in s.calls ==> !MayWrite(s.calls[p])
  }

  /** The call is over and so are its requests. */
  predicate Finished(call: Call) { call.phase.Done? && !call.keyOpen && !call.addressOpen }

  lemma {:induction false} EarlyDoneSettles(c: Codec, s: State)
    requires Inv(c, s) && s.written
    requires forall p :: p in s.early && p in s.calls ==> Finished(s.calls[p])
    ensures Settled(s)
  {
    forall p | p in s.calls
      ensures !MayWrite(s.calls[p])
    {
      assert CallOk(c, s, p, s.calls[p]);
    }
  }

  lemma {:induction false} SettledStep(c: Codec, s: State, p: nat, e: Event)
    requires Settled(s) && Step(c, s, p, e).Some?
    ensures var t := Step(c, s, p, e).value; Settled(t) && t.key == s.key && t.address == s.address
  {
    if p in s.calls { assert !MayWrite(s.calls[p]); }
  }

  /** What a call has read, and what it concludes, when the store holds this pair all along. */
  ghost predicate Tracks(c: Codec, key: Option<string>, address: Option<string>, call: Call) {
    call.gen.None? && !call.keyOpen && !call.addressOpen &&
    match call.phase
    case Fresh => !call.missed
    case Stale => !call.missed
    case Missed => call.missed
    case ReadKey(k) => call.missed && k == key
    case ReadBoth(k, a) => call.missed && k == key && a == address
    case Resolved(m) => call.missed && Verdict(c, key, address) == Ok(m)
    case Done(o) => call.missed ==> o == Err(Transport) || o == Verdict(c, key, address)
    case _ => false
  }

  /** Calls that had not read anything at `s` track the pair that `s` holds. */
  ghost predicate LaterTrack(c: Codec, s: State, u: State) {
    forall q :: q in u.calls && (q in s.calls ==> Unread(s.calls[q].phase)) ==> Tracks(c, s.key, s.address, u.calls[q])
  }

  lemma {:induction false} TrackStep(c: Codec, s: State, u: State, p: nat, e: Event)
    requires Settled(u) && u.key == s.key && u.address == s.address && LaterTrack(c, s, u) && Step(c, u, p, e).Some?
    ensures LaterTrack(c, s, Step(c, u, p, e).value)
  {
    var t := Step(c, u, p, e).value;
    hide Advance, Effect, Tracks;
    forall q | q in t.calls && (q in s.calls ==> Unread(s.calls[q].phase))
      ensures Tracks(c, s.key, s.address, t.calls[q])
    {
      if q in u.calls { assert Tracks(c, s.key, s.address, u.calls[q]); }
      TrackOwn(c, s, u, p, e, q);
    }
  }

  lemma {:induction false} TrackOwn(c: Codec, s: State, u: State, p: nat, e: Event, q: nat)
    requires u.key == s.key && u.address == s.address && s.key.Some? && Step(c, u, p, e).Some?
    requires q in Step(c, u, p, e).value.calls && (q in u.calls ==> Tracks(c, s.key, s.address, u.calls[q]))
    ensures Tracks(c, s.key, s.address, Step(c, u, p, e).value.calls[q])
  {
    hide Advance, Effect, Tracks;
    if q in u.calls && q == p && !e.Tick? && !e.Start? {
      TrackAdvance(c, s.key, s.address, u, u.calls[q], e);
    } else if q !in u.calls {
      TrackFresh(c, s.key, s.address, e.instance, u.now);
    }
  }

  lemma {:induction false} TrackFresh(c: Codec, key: Option<string>, address: Option<string>, instance: nat, clock: nat)
    ensures Tracks(c, key, address, Call(instance, clock, Fresh, false, None, None, false, false))
  {
  }

  lemma {:induction false} TrackAdvance(
    c: Codec, key: Option<string>, address: Option<string>, u: State, call: Call, e: Event)
    requires u.key == key && u.address == address && key.Some? && Tracks(c, key, address, call)
    requires Advance(c, u, call, e).Some?
    ensures Tracks(c, key, address, Advance(c, u, call, e).value)
  {
    hide Decode;
  }

  lemma {:induction false} TrackRun(c: Codec, s: State, u: State, more: Trace)
    requires Settled(u) && u.key == s.key && u.address == s.address && LaterTrack(c, s, u) && Run(c, u, more).Some?
    ensures var t := Run(c, u, more).value;
            Settled(t) && t.key == s.key && t.address == s.address && LaterTrack(c, s, t)
    decreases more
  {
    if more != [] {
      hide *;
      hide Step, Settled, LaterTrack;
      SettledStep(c, u, more[0].0, more[0].1);
      TrackStep(c, s, u, more[0].0, more[0].1);
      TrackRun(c, s, Step(c, u, more[0].0, more[0].1).value, more[1..]);
    }
  }

  /** `s` is reached from the start, the store has been written, and every early call has finished. */
  ghost predicate EarlyFinished(c: Codec, key: Option<string>, address: Option<string>, trace: Trace, s: State) {
    && Run(c, Initial(key, address), trace) == Some(s) && s.written
    && forall p :: p in s.early && p in s.calls ==> Finished(s.calls[p])
  }

  /**
   * Once every early call has finished, the stored pair never changes, and every call that then goes
   * to the store, started before or after, ends with exactly the one outcome the pair has, or one of
   * its own requests was not answered.
   */
  lemma {:induction false} SettledForever(
    c: Codec, key: Option<string>, address: Option<string>, trace: Trace, s: State, more: Trace)
    requires EarlyFinished(c, key, address, trace, s) && Run(c, s, more).Some?
    ensures var t := Run(c, s, more).value;
            && t.key == s.key && t.address == s.address
            && forall q :: q in t.calls && (q in s.calls ==> Unread(s.calls[q].phase)) && t.calls[q].missed
                           && t.calls[q].phase.Done? ==>
                 || t.calls[q].phase.outcome == Verdict(c, s.key, s.address)
                 || (t.calls[q].phase.outcome == Err(Transport) && RequestFailed(more, q))
  {
    SettledStart(c, key, address, trace, s);
    TrackRun(c, s, s, more);
    var t := Run(c, s, more).value;
    hide Run, RequestFailed;
    forall q | q in t.calls && (q in s.calls ==> Unread(s.calls[q].phase)) && t.calls[q].missed
               && t.calls[q].phase.Done? && t.calls[q].phase.outcome != Verdict(c, s.key, s.address)
      ensures t.calls[q].phase.outcome == Err(Transport) && RequestFailed(more, q)
    {
      assert Tracks(c, s.key, s.address, t.calls[q]);
      TransportMeans(c, s, more, q);
    }
  }

  lemma {:induction false} SettledStart(c: Codec, key: Option<string>, address: Option<string>, trace: Trace, s: State)
    requires EarlyFinished(c, key, address, trace, s)
    ensures Inv(c, s) && Settled(s) && LaterTrack(c, s, s)
  {
    RunKeepsInv(c, Initial(key, address), trace);
    EarlyDoneSettles(c, s);
    forall q | q in s.calls && Unread(s.calls[q].phase)
      ensures Tracks(c, s.key, s.address, s.calls[q])
    {
      assert CallOk(c, s, q, s.calls[q]);
    }
  }

  //// Caches converge too

  /** Every call at `s` has finished, so what runs later started later; old cache entries run out. */
  ghost predicate Converging(c: Codec, s: State, u: State) {
    && Settled(u) && u.key == s.key && u.address == s.address
    && (forall i :: i in u.caches ==> FromPair(c, s, u.caches[i]))
    && (forall q :: q in u.calls && q !in s.calls ==> Tracks(c, s.key, s.address, u.calls[q]))
    && (forall q :: q in s.calls ==> q in u.calls && u.calls[q].phase.Done?)
  }

  ghost predicate FromPair(c: Codec, s: State, entry: Cached) {
    entry.expiresAt <= s.now + CACHE_TTL || Verdict(c, s.key, s.address) == Ok(entry.material)
  }

  lemma {:induction false} ConvergingStep(c: Codec, s: State, u: State, p: nat, e: Event)
    requires Converging(c, s, u) && Step(c, u, p, e).Some?
    ensures Converging(c, s, Step(c, u, p, e).value)
  {
    SettledStep(c, u, p, e);
    var t := Step(c, u, p, e).value;
    hide Settled, Verdict, Decode;
    forall q | q in t.calls || q in s.calls
      ensures q in t.calls && (q !in s.calls ==> Tracks(c, s.key, s.address, t.calls[q]))
      ensures q in s.calls ==> t.calls[q].phase.Done?
    {
      if q != p { OthersStay(c, u, p, e, q); } else { ConvergingOwn(c, s, u, p, e); }
    }
    ConvergingCaches(c, s, u, p, e);
  }

  lemma {:induction false} ConvergingOwn(c: Codec, s: State, u: State, p: nat, e: Event)
    requires Converging(c, s, u) && Step(c, u, p, e).Some? && p in Step(c, u, p, e).value.calls
    ensures var t := Step(c, u, p, e).value;
            && (p !in s.calls ==> Tracks(c, s.key, s.address, t.calls[p]))
            && (p in s.calls ==> t.calls[p].phase.Done?)
  {
    hide Effect, Tracks, Verdict;
    if p !in s.calls {
      hide Advance;
      TrackOwn(c, s, u, p, e, p);
    }
  }

  /** A cache entry after a step was there before, or is the one a resolved call stores. */
  lemma {:induction false} EffectOnCaches(c: Codec, s: State, p: nat, call: Call, e: Event, i: nat)
    requires i in Effect(c, s, p, call, e).caches
    ensures var entry := Effect(c, s, p, call, e).caches[i];
            || (i in s.caches && entry == s.caches[i])
            || (call.phase.Resolved? && entry.material == call.phase.material)
  {
  }

  lemma {:induction false} ConvergingCaches(c: Codec, s: State, u: State, p: nat, e: Event)
    requires Converging(c, s, u) && Step(c, u, p, e).Some?
    ensures forall i :: i in Step(c, u, p, e).value.caches ==> FromPair(c, s, Step(c, u, p, e).value.caches[i])
  {
    hide Advance, Verdict, Settled, Effect;
    var t := Step(c, u, p, e).value;
    if p in u.calls && !e.Tick? && !e.Start? {
      assert p !in s.calls ==> Tracks(c, s.key, s.address, u.calls[p]);
      forall i | i in t.caches
        ensures FromPair(c, s, t.caches[i])
      {
        EffectOnCaches(c, u, p, u.calls[p], e, i);
      }
    }
  }

  lemma {:induction false} ConvergingRun(c: Codec, s: State, u: State, more: Trace)
    requires Converging(c, s, u) && Run(c, u, more).Some?
    ensures Converging(c, s, Run(c, u, more).value)
    decreases more
  {
    hide Step, Converging;
    if more != [] {
      ConvergingStep(c, s, u, more[0].0, more[0].1);
      ConvergingRun(c, s, Step(c, u, more[0].0, more[0].1).value, more[1..]);
    }
  }

  /** What was served from a cache to a call started after `u`, a cache lifetime after `s`. */
  ghost predicate ServedFromPair(c: Codec, s: State, u: State, v: State) {
    && v.now >= s.now + CACHE_TTL
    && (forall q :: q in v.calls && q !in u.calls ==> v.calls[q].clock >= s.now + CACHE_TTL)
    && forall q :: q in v.calls && q !in u.calls && v.calls[q].phase.Done? && !v.calls[q].missed ==>
         v.calls[q].phase.outcome == Verdict(c, s.key, s.address)
  }

  lemma {:induction false} ServedStep(c: Codec, s: State, u: State, v: State, p: nat, e: Event)
    requires Converging(c, s, v) && ServedFromPair(c, s, u, v) && s.calls.Keys <= u.calls.Keys && Step(c, v, p, e).Some?
    ensures ServedFromPair(c, s, u, Step(c, v, p, e).value)
  {
    hide Verdict, Settled, Tracks, Advance, Effect;
    if p in v.calls && !e.Tick? && !e.Start? {
      EffectGrows(c, v, p, v.calls[p], e);
      if p !in u.calls { ServedAdvance(c, s, v, v.calls[p], e); }
    }
  }

  lemma {:induction false} ServedAdvance(c: Codec, s: State, v: State, call: Call, e: Event)
    requires call.clock >= s.now + CACHE_TTL && forall i :: i in v.caches ==> FromPair(c, s, v.caches[i])
    requires Tracks(c, s.key, s.address, call) && Advance(c, v, call, e).Some?
    requires call.phase.Done? && !call.missed ==> call.phase.outcome == Verdict(c, s.key, s.address)
    ensures var next := Advance(c, v, call, e).value;
            && next.clock == call.clock
            && (next.phase.Done? && !next.missed ==> next.phase.outcome == Verdict(c, s.key, s.address))
  {
    hide Verdict;
  }

  lemma {:induction false} ServedRun(c: Codec, s: State, u: State, v: State, later: Trace)
    requires Converging(c, s, v) && ServedFromPair(c, s, u, v) && s.calls.Keys <= u.calls.Keys && Run(c, v, later).Some?
    ensures var t := Run(c, v, later).value; Converging(c, s, t) && ServedFromPair(c, s, u, t)
    decreases later
  {
    hide Step, Converging, ServedFromPair;
    if later != [] {
      ServedStep(c, s, u, v, later[0].0, later[0].1);
      ConvergingStep(c, s, v, later[0].0, later[0].1);
      ServedRun(c, s, u, Step(c, v, later[0].0, later[0].1).value, later[1..]);
    }
  }

  /**
   * From a written store with every call finished, one cache lifetime later: every call started from
   * then on, served from a cache or not, ends with exactly the one outcome the stored pair has, or
   * one of its own requests was not answered.
   */
  lemma {:induction false} AllAgreeAfterTtl(
    c: Codec, key: Option<string>, address: Option<string>, trace: Trace, s: State, more: Trace, u: State, later: Trace)
    requires Run(c, Initial(key, address), trace) == Some(s) && s.written
    requires forall p :: p in s.calls ==> Finished(s.calls[p])
    requires Run(c, s, more) == Some(u) && u.now >= s.now + CACHE_TTL && Run(c, u, later).Some?
    ensures var t := Run(c, u, later).value;
            forall q :: q in t.calls && q !in u.calls && t.calls[q].phase.Done? ==>
              || t.calls[q].phase.outcome == Verdict(c, s.key, s.address)
              || (t.calls[q].phase.outcome == Err(Transport) && RequestFailed(later, q))
  {
    SettledStart(c, key, address, trace, s);
    assert Converging(c, s, s);
    ConvergingRun(c, s, s, more);
    ServedRun(c, s, u, u, later);
    hide Run, RequestFailed;
    var t := Run(c, u, later).value;
    forall q | q in t.calls && q !in u.calls && t.calls[q].phase.Done?
               && t.calls[q].phase.outcome != Verdict(c, s.key, s.address)
      ensures t.calls[q].phase.outcome == Err(Transport) && RequestFailed(later, q)
    {
      assert q !in s.calls && Tracks(c, s.key, s.address, t.calls[q]);
      TransportMeans(c, u, later, q);
    }
  }

  //// When all successes agree

  /** Records never disappear, so a wallet is generated only if nothing was stored at the beginning. */
  ghost predicate NothingLost(key: Option<string>, address: Option<string>, s: State) {
    && (key.Some? ==> s.key.Some?) && (address.Some? ==> s.address.Some?)
    && forall p :: p in s.calls ==> SawStored(key, address, s.calls[p])
  }

  ghost predicate SawStored(key: Option<string>, address: Option<string>, call: Call) {
    && (key.Some? && (call.phase.ReadKey? || call.phase.ReadBoth?) ==> call.phase.key.Some?)
    && (address.Some? && call.phase.ReadBoth? ==> call.phase.address.Some?)
    && (call.gen.Some? ==> key.None? && address.None?)
  }

  lemma {:induction false} NothingLostStep(
    c: Codec, key: Option<string>, address: Option<string>, s: State, p: nat, e: Event)
    requires NothingLost(key, address, s) && Step(c, s, p, e).Some?
    ensures NothingLost(key, address, Step(c, s, p, e).value)
  {
    hide Advance, SawStored;
    if p in s.calls && !e.Tick? && !e.Start? {
      SawStoredAdvance(c, key, address, s, s.calls[p], e);
    } else if e.Start? {
      FreshSawStored(key, address, e.instance, s.now);
    }
  }

  lemma {:induction false} FreshSawStored(key: Option<string>, address: Option<string>, instance: nat, clock: nat)
    ensures SawStored(key, address, Call(instance, clock, Fresh, false, None, None, false, false))
  {
  }

  lemma {:induction false} SawStoredAdvance(
    c: Codec, key: Option<string>, address: Option<string>, s: State, call: Call, e: Event)
    requires (key.Some? ==> s.key.Some?) && (address.Some? ==> s.address.Some?)
    requires SawStored(key, address, call) && Advance(c, s, call, e).Some?
    ensures SawStored(key, address, Advance(c, s, call, e).value)
  {
    hide Verdict, Decode;
  }

  lemma {:induction false} NothingLostRun(
    c: Codec, key: Option<string>, address: Option<string>, s: State, trace: Trace)
    requires NothingLost(key, address, s) && Run(c, s, trace).Some?
    ensures NothingLost(key, address, Run(c, s, trace).value)
    decreases trace
  {
    hide Step, NothingLost;
    if trace != [] {
      NothingLostStep(c, key, address, s, trace[0].0, trace[0].1);
      NothingLostRun(c, key, address, Step(c, s, trace[0].0, trace[0].1).value, trace[1..]);
    }
  }

  predicate MissingOr(x: Option<string>, y: Option<string>) { x.None? || x == y }

  /** Every record that was ever read is missing or the one of this pair, and so is what was concluded. */
  ghost predicate Uniform(c: Codec, key: Option<string>, address: Option<string>, s: State) {
    && MissingOr(s.key, key) && MissingOr(s.address, address)
    && (forall i :: i in s.caches ==> Verdict(c, key, address) == Ok(s.caches[i].material))
    && forall p :: p in s.calls ==> UniformCall(c, key, address, s.calls[p])
  }

  ghost predicate UniformCall(c: Codec, key: Option<string>, address: Option<string>, call: Call) {
    match call.phase
    case ReadKey(k) => MissingOr(k, key)
    case ReadBoth(k, a) => MissingOr(k, key) && MissingOr(a, address)
    case RereadKey(k) => MissingOr(k, key)
    case Resolved(m) => Verdict(c, key, address) == Ok(m)
    case Done(o) => o.Ok? ==> o == Verdict(c, key, address)
    case _ => true
  }

  /** Whatever was generated is written as this pair. */
  ghost predicate OnlyPair(c: Codec, key: Option<string>, address: Option<string>, s: State) {
    forall p :: p in s.calls && s.calls[p].gen.Some? ==>
      var m := s.calls[p].gen.value;
      key == Some(c.encodeKey(m.privateKey)) && address == Some(c.encodeAddress(m.address))
  }

  lemma {:induction false} UniformStep(
    c: Codec, key: Option<string>, address: Option<string>, s: State, p: nat, e: Event)
    requires Uniform(c, key, address, s) && OnlyPair(c, key, address, s) && Step(c, s, p, e).Some?
    ensures Uniform(c, key, address, Step(c, s, p, e).value)
  {
    hide Verdict, UniformCall, Advance;
    if p in s.calls && !e.Tick? && !e.Start? {
      UniformAdvance(c, key, address, s, s.calls[p], e);
      UniformEffect(c, key, address, s, p, s.calls[p], e);
      hide Effect;
    } else if e.Start? {
      UniformFresh(c, key, address, e.instance, s.now);
    }
  }

  lemma {:induction false} UniformFresh(
    c: Codec, key: Option<string>, address: Option<string>, instance: nat, clock: nat)
    ensures UniformCall(c, key, address, Call(instance, clock, Fresh, false, None, None, false, false))
  {
  }

  lemma {:induction false} UniformAdvance(
    c: Codec, key: Option<string>, address: Option<string>, s: State, call: Call, e: Event)
    requires Uniform(c, key, address, s) && UniformCall(c, key, address, call) && Advance(c, s, call, e).Some?
    ensures UniformCall(c, key, address, Advance(c, s, call, e).value)
  {
    hide Decode;
  }

  lemma {:induction false} UniformEffect(
    c: Codec, key: Option<string>, address: Option<string>, s: State, p: nat, call: Call, e: Event)
    requires Uniform(c, key, address, s) && UniformCall(c, key, address, call)
    requires call.gen.Some? ==>
               && key == Some(c.encodeKey(call.gen.value.privateKey))
               && address == Some(c.encodeAddress(call.gen.value.address))
    ensures var t := Effect(c, s, p, call, e);
            && MissingOr(t.key, key) && MissingOr(t.address, address)
            && forall i :: i in t.caches ==> Verdict(c, key, address) == Ok(t.caches[i].material)
  {
    hide Verdict;
  }

  /** What a call generated stays with it. */
  lemma {:induction false} GenPersists(c: Codec, s: State, trace: Trace, p: nat)
    requires Run(c, s, trace).Some? && p in s.calls && s.calls[p].gen.Some?
    requires forall q :: q in s.calls ==> GenOnce(s.calls[q])
    ensures var t := Run(c, s, trace).value; p in t.calls && t.calls[p].gen == s.calls[p].gen
    decreases trace
  {
    if trace != [] {
      GenStep(c, s, trace[0].0, trace[0].1);
      hide Step;
      GenPersists(c, Step(c, s, trace[0].0, trace[0].1).value, trace[1..], p);
    }
  }

  predicate GenOnce(call: Call) {
    call.gen.Some? ==> !Unread(call.phase) && !call.phase.ReadKey? && !call.phase.ReadBoth?
  }

  lemma {:induction false} GenStep(c: Codec, s: State, p: nat, e: Event)
    requires Step(c, s, p, e).Some? && forall q :: q in s.calls ==> GenOnce(s.calls[q])
    ensures var t := Step(c, s, p, e).value;
            && (forall q :: q in t.calls ==> GenOnce(t.calls[q]))
            && forall q :: q in s.calls && s.calls[q].gen.Some? ==> q in t.calls && t.calls[q].gen == s.calls[q].gen
  {
    hide Advance, Effect;
    if p in s.calls && !e.Tick? && !e.Start? { GenAdvance(c, s, s.calls[p], e); }
  }

  lemma {:induction false} GenAdvance(c: Codec, s: State, call: Call, e: Event)
    requires Advance(c, s, call, e).Some? && GenOnce(call)
    ensures var next := Advance(c, s, call, e).value; GenOnce(next) && (call.gen.Some? ==> next.gen == call.gen)
  {
    hide Verdict, Decode;
  }

  lemma {:induction false} UniformRun(c: Codec, key: Option<string>, address: Option<string>, s: State, trace: Trace)
    requires Uniform(c, key, address, s) && Run(c, s, trace).Some? && OnlyPair(c, key, address, Run(c, s, trace).value)
    requires forall q :: q in s.calls ==> GenOnce(s.calls[q])
    ensures Uniform(c, key, address, Run(c, s, trace).value)
    decreases trace
  {
    if trace != [] {
      hide Step, Uniform;
      forall p | p in s.calls && s.calls[p].gen.Some?
        ensures var m := s.calls[p].gen.value;
                key == Some(c.encodeKey(m.privateKey)) && address == Some(c.encodeAddress(m.address))
      {
        GenPersists(c, s, trace, p);
      }
      UniformStep(c, key, address, s, trace[0].0, trace[0].1);
      GenStep(c, s, trace[0].0, trace[0].1);
      UniformRun(c, key, address, Step(c, s, trace[0].0, trace[0].1).value, trace[1..]);
    }
  }

  ghost predicate OneGenerator(s: State) {
    forall p, q :: p in s.calls && q in s.calls && s.calls[p].gen.Some? && s.calls[q].gen.Some? ==> p == q
  }

  ghost predicate SuccessesAgree(s: State) {
    forall p, q :: p in s.calls && q in s.calls && s.calls[p].phase.Done? && s.calls[q].phase.Done?
                   && s.calls[p].phase.outcome.Ok? && s.calls[q].phase.outcome.Ok? ==>
      s.calls[p].phase.outcome == s.calls[q].phase.outcome
  }

  /** In every run in which at most one call generates a wallet, all successes carry the same wallet. */
  lemma {:induction false} OneGeneratorAgrees(c: Codec, key: Option<string>, address: Option<string>, trace: Trace)
    requires Run(c, Initial(key, address), trace).Some? && OneGenerator(Run(c, Initial(key, address), trace).value)
    ensures SuccessesAgree(Run(c, Initial(key, address), trace).value)
  {
    var s := Run(c, Initial(key, address), trace).value;
    hide Run;
    var k, a := key, address;
    if g :| g in s.calls && s.calls[g].gen.Some? {
      NothingLostRun(c, key, address, Initial(key, address), trace);
      assert SawStored(key, address, s.calls[g]);
      k := Some(c.encodeKey(s.calls[g].gen.value.privateKey));
      a := Some(c.encodeAddress(s.calls[g].gen.value.address));
    }
    UniformRun(c, k, a, Initial(key, address), trace);
    forall p | p in s.calls
      ensures UniformCall(c, k, a, s.calls[p])
    {
    }
  }

  /**
   * So they agree if a record was stored beforehand, or if at most one call had its first read before
   * the first write.
   */
  lemma {:induction false} OneEarlyAgrees(c: Codec, key: Option<string>, address: Option<string>, trace: Trace)
    requires Run(c, Initial(key, address), trace).Some?
    requires var s := Run(c, Initial(key, address), trace).value;
             key.Some? || address.Some? || forall p, q :: p in s.early && q in s.early ==> p == q
    ensures SuccessesAgree(Run(c, Initial(key, address), trace).value)
  {
    var s := Run(c, Initial(key, address), trace).value;
    RunKeepsInv(c, Initial(key, address), trace);
    NothingLostRun(c, key, address, Initial(key, address), trace);
    hide Run;
    forall p | p in s.calls && s.calls[p].gen.Some?
      ensures p in s.early && key.None? && address.None?
    {
      assert CallOk(c, s, p, s.calls[p]) && SawStored(key, address, s.calls[p]);
    }
    OneGeneratorAgrees(c, key, address, trace);
  }

  //// A stored wallet is served

  /** The records of a wallet. */
  ghost predicate Stores(c: Codec, key: Option<string>, address: Option<string>, m: Material) {
    && Matching(c, m) && key == Some(c.encodeKey(m.privateKey)) && address == Some(c.encodeAddress(m.address))
  }

  /**
   * With a wallet stored beforehand, every resolution in every run, cached or not, ends with exactly
   * that wallet, or one of its own requests was not answered.
   */
  lemma {:induction false} StoredWalletIsServed(
    c: Codec, key: Option<string>, address: Option<string>, m: Material, trace: Trace, q: nat)
    requires Lossless(c) && Stores(c, key, address, m) && Run(c, Initial(key, address), trace).Some?
    requires var s := Run(c, Initial(key, address), trace).value; q in s.calls && s.calls[q].phase.Done?
    ensures var o := Run(c, Initial(key, address), trace).value.calls[q].phase.outcome;
            o == Ok(m) || (o == Err(Transport) && RequestFailed(trace, q))
  {
    var init := Initial(key, address);
    var s := Run(c, init, trace).value;
    assert Verdict(c, key, address) == Ok(m);
    assert Converging(c, init, init) && Uniform(c, key, address, init);
    NothingLostRun(c, key, address, init, trace);
    assert NothingLost(key, address, s);
    assert OnlyPair(c, key, address, s);
    hide Run, RequestFailed;
    UniformRun(c, key, address, init, trace);
    ConvergingRun(c, init, init, trace);
    assert UniformCall(c, key, address, s.calls[q]) && Tracks(c, key, address, s.calls[q]);
    if s.calls[q].phase.outcome.Err? {
      CachedIsOk(c, init, trace, q);
      TransportMeans(c, init, trace, q);
    }
  }

  /** What is served from a cache is a success. */
  lemma {:induction false} CachedIsOk(c: Codec, s: State, trace: Trace, q: nat)
    requires Run(c, s, trace).Some? && forall p :: p in s.calls ==> OkUnlessMissed(s.calls[p])
    ensures q in Run(c, s, trace).value.calls ==> OkUnlessMissed(Run(c, s, trace).value.calls[q])
    decreases trace
  {
    hide Step;
    if trace != [] {
      var t := Step(c, s, trace[0].0, trace[0].1).value;
      forall p | p in t.calls
        ensures OkUnlessMissed(t.calls[p])
      {
        OkStep(c, s, trace[0].0, trace[0].1, p);
      }
      CachedIsOk(c, t, trace[1..], q);
    }
  }

  predicate OkUnlessMissed(call: Call) {
    !call.missed ==> call.phase.Fresh? || call.phase.Stale? || (call.phase.Done? && call.phase.outcome.Ok?)
  }

  lemma {:induction false} OkStep(c: Codec, s: State, p: nat, e: Event, q: nat)
    requires Step(c, s, p, e).Some? && forall p :: p in s.calls ==> OkUnlessMissed(s.calls[p])
    requires q in Step(c, s, p, e).value.calls
    ensures OkUnlessMissed(Step(c, s, p, e).value.calls[q])
  {
    hide Advance, Effect;
    if q in s.calls && p == q && !e.Tick? && !e.Start? { OkAdvance(c, s, s.calls[q], e); }
  }

  lemma {:induction false} OkAdvance(c: Codec, s: State, call: Call, e: Event)
    requires Advance(c, s, call, e).Some? && OkUnlessMissed(call)
    ensures OkUnlessMissed(Advance(c, s, call, e).value)
  {
    hide Verdict;
  }

  /** How far a call has come. */
  function Progress(ph: Phase): nat {
    match ph
    case Fresh => 0
    case Stale => 1
    case Missed => 2
    case ReadKey(_) => 3
    case ReadBoth(_, _) => 4
    case Generated => 5
    case WroteKey => 6
    case WroteBoth => 7
    case RereadKey(_) => 8
    case Resolved(_) => 9
    case Done(_) => 10
  }

  /** What an undisturbed call does next. */
  function NextEvent(ph: Phase, m: Material): Event {
    match ph
    case Fresh => LookInCache
    case Stale => DropCache
    case Missed => GetKey(true)
    case ReadKey(_) => GetAddress(true)
    case ReadBoth(_, _) => Decide(m)
    case Generated => PutKey(true)
    case WroteKey => PutAddress(true)
    case WroteBoth => RegetKey(true)
    case RereadKey(_) => RegetAddress(true)
    case Resolved(_) => Store(0)
    case Done(_) => RequestsOver
  }

  /** No call gets stuck: with its requests answered each step brings it closer to its end. */
  lemma {:induction false} CanGoOn(c: Codec, s: State, p: nat, m: Material)
    requires p in s.calls && !s.calls[p].phase.Done? && Matching(c, m)
    ensures var e := NextEvent(s.calls[p].phase, m);
            && !FailedRequest(e) && Step(c, s, p, e).Some? && p in Step(c, s, p, e).value.calls
            && Progress(Step(c, s, p, e).value.calls[p].phase) > Progress(s.calls[p].phase)
  {
    AdvanceProgress(c, s, s.calls[p], m);
    hide Advance, Effect, NextEvent;
  }

  lemma {:induction false} AdvanceProgress(c: Codec, s: State, call: Call, m: Material)
    requires Matching(c, m) && !call.phase.Done?
    ensures var e := NextEvent(call.phase, m);
            && !FailedRequest(e) && !e.Tick? && !e.Start? && Advance(c, s, call, e).Some?
            && Progress(Advance(c, s, call, e).value.phase) > Progress(call.phase)
  {
    hide Decode;
  }

  /** A stored pair is a wallet exactly if both records decode and the address is the one of the key. */
  lemma {:induction false} VerdictMeans(c: Codec, key: Option<string>, address: Option<string>, m: Material)
    ensures Verdict(c, key, address) == Ok(m) <==>
              && key.Some? && address.Some? && c.decodeKey(key.value) == Some(m.privateKey)
              && c.decodeAddress(address.value) == Some(m.address) && c.addressOf(m.privateKey) == Some(m.address)
    ensures key.None? || address.None? <==> Verdict(c, key, address) == Err(Incomplete)
  {
  }

  /** A call that finds nothing unexpired empties its instance's cache before it reads the store. */
  lemma {:induction false} StaleIsDropped(c: Codec, s: State, p: nat)
    requires p in s.calls && s.calls[p].phase.Stale?
    ensures var t := Step(c, s, p, DropCache);
            && t.Some? && s.calls[p].instance !in t.value.caches
            && p in t.value.calls && t.value.calls[p].phase.Missed? && t.value.calls[p].missed
            && forall i :: i in s.caches && i != s.calls[p].instance ==>
                 i in t.value.caches && t.value.caches[i] == s.caches[i]
  {
  }

  /** A call is answered from its instance's cache exactly for ten seconds after the entry was stored. */
  lemma {:induction false} CacheMeans(c: Codec, s: State, p: nat, q: nat, lag: nat)
    requires p in s.calls && q in s.calls && p != q && lag <= s.now && s.calls[p].phase.Resolved?
    requires s.calls[q].phase.Fresh? && s.calls[q].instance == s.calls[p].instance
    ensures Step(c, s, p, Store(lag)).Some? && q in Step(c, s, p, Store(lag)).value.calls
    ensures var t := Step(c, s, p, Store(lag)).value;
            var u := Step(c, t, q, LookInCache);
            && t.calls[p].phase == Done(Ok(s.calls[p].phase.material)) && u.Some? && q in u.value.calls
            && u.value.calls[q].phase ==
               if s.calls[q].clock < s.now - lag + 10_000 then Done(Ok(s.calls[p].phase.material)) else Stale
  {
  }

  //// When they need not

  ghost predicate Reaches(c: Codec, s: State, t: State) {
    exists trace :: Run(c, s, trace) == Some(t)
  }

  lemma {:induction false} RunConcat(c: Codec, s: State, a: Trace, b: Trace)
    requires Run(c, s, a).Some?
    ensures Run(c, s, a + b) == Run(c, Run(c, s, a).value, b)
    decreases a
  {
    if a == [] {
      assert a + b == b;
    } else {
      assert (a + b)[1..] == a[1..] + b;
      RunConcat(c, Step(c, s, a[0].0, a[0].1).value, a[1..], b);
    }
  }

  lemma {:induction false} Onward(c: Codec, s: State, t: State, p: nat, e: Event) returns (u: State)
    requires Reaches(c, s, t) && p in t.calls && !e.Tick? && !e.Start? && Advance(c, t, t.calls[p], e).Some?
    ensures Reaches(c, s, u)
    ensures u == Effect(c, t, p, t.calls[p], e).(calls := t.calls[p := Advance(c, t, t.calls[p], e).value])
  {
    u := OneStep(c, s, t, p, e);
  }

  lemma {:induction false} OneStep(c: Codec, s: State, t: State, p: nat, e: Event) returns (u: State)
    requires Reaches(c, s, t) && Step(c, t, p, e).Some?
    ensures Step(c, t, p, e) == Some(u) && Reaches(c, s, u)
  {
    hide Advance, Effect;
    u := Step(c, t, p, e).value;
    var trace :| Run(c, s, trace) == Some(t);
    RunConcat(c, s, trace, [(p, e)]);
    assert [(p, e)][1..] == [];
    assert Run(c, t, [(p, e)]) == Some(u);
  }

  ghost predicate SameOthers(s: State, t: State, p: nat) {
    forall q :: q != p && q in s.calls ==> q in t.calls && t.calls[q] == s.calls[q]
  }

  /** A call with a wallet to write: undisturbed from there it ends with it, whatever was stored before. */
  lemma {:induction false} WritesOut(c: Codec, s: State, t: State, p: nat, m: Material) returns (u: State)
    requires Lossless(c) && Matching(c, m) && Reaches(c, s, t)
    requires p in t.calls && t.calls[p].phase.Generated? && t.calls[p].gen == Some(m)
    ensures Reaches(c, s, u) && SameOthers(t, u, p) && p in u.calls && u.calls[p].phase == Done(Ok(m))
  {
    hide Reaches, Run, Step;
    u := Onward(c, s, t, p, PutKey(true));
    u := Onward(c, s, u, p, PutAddress(true));
    u := Onward(c, s, u, p, RegetKey(true));
    u := Onward(c, s, u, p, RegetAddress(true));
    u := Onward(c, s, u, p, Store(0));
  }

  /**
   * From every reachable state in which two calls have generated a wallet and not yet written it, the
   * run can go on so that both succeed, each with its own.
   */
  lemma {:induction false} RacersCanDisagree(
    c: Codec, key: Option<string>, address: Option<string>, trace: Trace, s: State, p: nat, q: nat)
    requires Lossless(c) && Run(c, Initial(key, address), trace) == Some(s)
    requires p != q && p in s.calls && q in s.calls && s.calls[p].phase.Generated? && s.calls[q].phase.Generated?
    ensures exists t :: Reaches(c, s, t) && p in t.calls && q in t.calls
                        && s.calls[p].gen.Some? && t.calls[p].phase == Done(Ok(s.calls[p].gen.value))
                        && s.calls[q].gen.Some? && t.calls[q].phase == Done(Ok(s.calls[q].gen.value))
  {
    RunKeepsInv(c, Initial(key, address), trace);
    assert CallOk(c, s, p, s.calls[p]) && CallOk(c, s, q, s.calls[q]);
    assert Run(c, s, []) == Some(s);
    hide Run;
    var t := WritesOut(c, s, s, p, s.calls[p].gen.value);
    t := WritesOut(c, s, t, q, s.calls[q].gen.value);
  }

  /** The store and the caches are empty, and the other calls are as in `t`. */
  ghost predicate StillEmpty(t: State, u: State, p: nat) {
    u.key.None? && u.address.None? && u.caches == map[] && SameOthers(t, u, p) && u.calls.Keys == t.calls.Keys + {p}
  }

  lemma {:induction false} MissesCache(c: Codec, s: State, t: State, p: nat) returns (u: State)
    requires Reaches(c, s, t) && t.key.None? && t.address.None? && p !in t.calls && t.caches == map[]
    ensures Reaches(c, s, u) && StillEmpty(t, u, p) && u.calls[p].phase == Missed
  {
    hide Reaches, Run;
    u := OneStep(c, s, t, p, Start(p));
    hide Step;
    u := Onward(c, s, u, p, LookInCache);
    u := Onward(c, s, u, p, DropCache);
  }

  /** A new call finds nothing in the store and generates a wallet. */
  lemma {:induction false} FindsNothing(c: Codec, s: State, t: State, p: nat, m: Material) returns (u: State)
    requires Matching(c, m) && Reaches(c, s, t) && t.key.None? && t.address.None? && p !in t.calls && t.caches == map[]
    ensures Reaches(c, s, u) && StillEmpty(t, u, p) && u.calls[p].phase.Generated? && u.calls[p].gen == Some(m)
  {
    hide Reaches, Run, Step;
    u := MissesCache(c, s, t, p);
    u := Onward(c, s, u, p, GetKey(true));
    u := Onward(c, s, u, p, GetAddress(true));
    u := Onward(c, s, u, p, Decide(m));
  }

  /** Such states exist for every two wallets, so on an empty store two racers can both succeed. */
  lemma {:induction false} RaceIsReachable(c: Codec, a: Material, b: Material)
    requires Lossless(c) && Matching(c, a) && Matching(c, b)
    ensures exists t :: Reaches(c, Initial(None, None), t) && 0 in t.calls && 1 in t.calls
                        && t.calls[0].phase == Done(Ok(a)) && t.calls[1].phase == Done(Ok(b))
  {
    var s := Initial(None, None);
    assert Run(c, s, []) == Some(s);
    hide Run;
    var t := FindsNothing(c, s, s, 0, a);
    t := FindsNothing(c, s, t, 1, b);
    var u := WritesOut(c, s, t, 0, a);
    u := WritesOut(c, s, u, 1, b);
  }
}
