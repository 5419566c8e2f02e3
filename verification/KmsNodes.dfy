/** KMS node entries: what the registry yields, and the two merges of a new list with a cached one. */
module KmsNodes {
  import opened Bytes

  type Url = seq<Byte>

  /** Outcome of the last reachability check; all zero until a node is checked. */
  datatype Observation = Observation(
    reachable: Option<bool>, expiresAt: nat, lastChecked: nat, httpStatus: Option<nat>, error: Option<string>)

  const UNCHECKED := Observation(None, 0, 0, None, None)

  datatype Node = Node(wallet: seq<Byte>, url: Url, teePubkey: seq<Byte>, obs: Observation)

  datatype Entry = Entry(nodes: seq<Node>, expiresAt: nat)

  const REACHABLE_TTL: nat := 30_000
  const UNREACHABLE_TTL: nat := 10_000
  const U64_MAX: nat := 0xffff_ffff_ffff_ffff

  function Ttl(reachable: bool): nat { if reachable then REACHABLE_TTL else UNREACHABLE_TTL }

  function SaturatingAdd(a: nat, b: nat): (r: nat)
    ensures r <= a + b
    ensures a + b <= 0xffff_ffff_ffff_ffff ==> r == a + b
    ensures a <= 0xffff_ffff_ffff_ffff < a + b ==> r == 0xffff_ffff_ffff_ffff
  {
    if a + b <= U64_MAX then a + b else if a <= U64_MAX then U64_MAX else a
  }

  predicate Fresh(o: Observation, now: nat) { o.reachable.Some? && now < o.expiresAt }

  /** Who the node is, as the registry said. */
  function Identity(n: Node): (seq<Byte>, Url, seq<Byte>) { (n.wallet, n.url, n.teePubkey) }

  function Identities(ns: seq<Node>): (r: seq<(seq<Byte>, Url, seq<Byte>)>)
    ensures |r| == |ns|
    ensures forall i :: 0 <= i < |ns| ==> r[i] == Identity(ns[i])
  {
    seq(|ns|, i requires 0 <= i < |ns| => Identity(ns[i]))
  }

  /** Sorted by URL, no URL twice. */
  ghost predicate Ordered(ns: seq<Node>) {
    forall i, j :: 0 <= i < j < |ns| ==> LexLe(ns[i].url, ns[j].url) && ns[i].url != ns[j].url
  }

  lemma {:induction false} OrderedByIdentity(a: seq<Node>, b: seq<Node>)
    requires Identities(a) == Identities(b) && Ordered(b)
    ensures Ordered(a)
  {
    assert forall i :: 0 <= i < |a| ==> Identities(a)[i] == Identities(b)[i];
    assert forall i :: 0 <= i < |a| ==> a[i].url == b[i].url;
  }

  //// Registry discovery

  datatype Instance = Instance(
    wallet: seq<Byte>, appId: nat, status: nat, zkVerified: bool, baseUrl: Option<Url>, teePubkey: seq<Byte>)

  predicate Eligible(x: Instance, appId: nat) {
    x.appId == appId && x.status == 0 && x.zkVerified && x.baseUrl.Some?
  }

  /** Instance `i` is the first eligible one with its URL. */
  predicate FirstClaim(xs: seq<Instance>, appId: nat, i: nat)
    requires i < |xs|
  {
    && Eligible(xs[i], appId)
    && forall j :: 0 <= j < i && Eligible(xs[j], appId) ==> xs[j].baseUrl != xs[i].baseUrl
  }

  function NodeOf(x: Instance): Node
    requires x.baseUrl.Some?
  {
    Node(x.wallet, x.baseUrl.value, x.teePubkey, UNCHECKED)
  }

  /** Nodes are exactly the first claims that carry a key. */
  ghost predicate Discovered(xs: seq<Instance>, appId: nat, ns: seq<Node>) {
    && (forall n :: n in ns ==>
          exists i :: 0 <= i < |xs| && FirstClaim(xs, appId, i) && xs[i].teePubkey != [] && n == NodeOf(xs[i]))
    && (forall i :: 0 <= i < |xs| && FirstClaim(xs, appId, i) && xs[i].teePubkey != [] ==> NodeOf(xs[i]) in ns)
  }

  function InsertByUrl(ns: seq<Node>, n: Node): seq<Node> {
    if ns == [] then [n]
    else if LexLe(ns[0].url, n.url) then [ns[0]] + InsertByUrl(ns[1..], n)
    else [n] + ns
  }

  lemma {:induction false} InsertKeeps(ns: seq<Node>, n: Node)
    requires Ordered(ns) && forall m :: m in ns ==> m.url != n.url
    ensures Ordered(InsertByUrl(ns, n))
    ensures forall m :: m in InsertByUrl(ns, n) <==> m in ns || m == n
  {
    if ns == [] {
    } else if LexLe(ns[0].url, n.url) {
      var rest := InsertByUrl(ns[1..], n);
      assert forall m :: m in ns[1..] ==> m in ns;
      InsertKeeps(ns[1..], n);
      forall m | m in rest
        ensures LexLe(ns[0].url, m.url) && ns[0].url != m.url
      {
        if m in ns[1..] {
          var k :| 0 <= k < |ns| - 1 && ns[1..][k] == m;
          assert m == ns[k + 1];
        }
      }
      assert forall i :: 0 <= i < |rest| ==> rest[i] in rest;
      assert forall m :: m in ns <==> m == ns[0] || m in ns[1..];
    } else {
      LexTotal(ns[0].url, n.url);
      forall i | 0 <= i < |ns|
        ensures LexLe(n.url, ns[i].url) && ns[i].url != n.url
      {
        assert ns[i] in ns;
        if i > 0 { LexTransitive(n.url, ns[0].url, ns[i].url); }
      }
    }
  }

  /** Filter, deduplicate by URL and sort what the registry returned. */
  method DiscoverNodes(xs: seq<Instance>, appId: nat) returns (ns: seq<Node>)
    ensures Ordered(ns) && Discovered(xs, appId, ns) && Lists(xs, appId, ns)
    ensures forall n :: n in ns ==> n.obs == UNCHECKED && n.teePubkey != []
  {
    ns := [];
    var dedup: set<Url> := {};
    var i := 0;
    while i < |xs|
      invariant 0 <= i <= |xs|
      invariant forall u :: u in dedup <==> exists j :: 0 <= j < i && Eligible(xs[j], appId) && xs[j].baseUrl == Some(u)
      invariant forall n :: n in ns ==> n.url in dedup
      invariant Ordered(ns) && Discovered(xs[..i], appId, ns)
      invariant forall n :: n in ns ==> n.obs == UNCHECKED && n.teePubkey != []
    {
      var x := xs[i];
      var claim := Eligible(x, appId) && x.baseUrl.value !in dedup;
      assert claim <==> FirstClaim(xs, appId, i) by {
        if Eligible(x, appId) && x.baseUrl.value in dedup {
          var j :| 0 <= j < i && Eligible(xs[j], appId) && xs[j].baseUrl == Some(x.baseUrl.value);
        }
      }
      var next := ns;
      if claim {
        dedup := dedup + {x.baseUrl.value};
        if x.teePubkey != [] {
          InsertKeeps(ns, NodeOf(x));
          next := InsertByUrl(ns, NodeOf(x));
        }
      }
      DiscoveredStep(xs, appId, i, ns, next);
      ns := next;
      i := i + 1;
    }
    assert xs[..i] == xs;
    DiscoveredLists(xs, appId, ns);
  }

  /** An active, verified instance of the application at this URL. */
  ghost predicate Claims(x: Instance, appId: nat, url: Url) {
    x.appId == appId && x.status == 0 && x.zkVerified && x.baseUrl == Some(url)
  }

  ghost predicate ClaimsFirst(xs: seq<Instance>, appId: nat, url: Url, i: nat)
    requires i < |xs|
  {
    Claims(xs[i], appId, url) && forall j :: 0 <= j < i ==> !Claims(xs[j], appId, url)
  }

  /** One unchecked node for each URL whose first claim carries a key, with the wallet and key of that claim. */
  ghost predicate Lists(xs: seq<Instance>, appId: nat, ns: seq<Node>) {
    && (forall n :: n in ns ==>
          && n.obs == Observation(None, 0, 0, None, None) && n.teePubkey != []
          && exists i :: 0 <= i < |xs| && ClaimsFirst(xs, appId, n.url, i)
                         && xs[i].wallet == n.wallet && xs[i].teePubkey == n.teePubkey)
    && (forall i, url :: 0 <= i < |xs| && ClaimsFirst(xs, appId, url, i) && xs[i].teePubkey != [] ==>
          Node(xs[i].wallet, url, xs[i].teePubkey, Observation(None, 0, 0, None, None)) in ns)
  }

  lemma {:induction false} FirstClaimIs(xs: seq<Instance>, appId: nat, i: nat)
    requires i < |xs|
    ensures FirstClaim(xs, appId, i) <==> xs[i].baseUrl.Some? && ClaimsFirst(xs, appId, xs[i].baseUrl.value, i)
  {
  }

  lemma {:induction false} DiscoveredLists(xs: seq<Instance>, appId: nat, ns: seq<Node>)
    requires Discovered(xs, appId, ns)
    ensures Lists(xs, appId, ns)
  {
    hide ClaimsFirst;
    forall n | n in ns
      ensures n.obs == Observation(None, 0, 0, None, None) && n.teePubkey != []
      ensures exists i :: 0 <= i < |xs| && ClaimsFirst(xs, appId, n.url, i)
                          && xs[i].wallet == n.wallet && xs[i].teePubkey == n.teePubkey
    {
      var i :| 0 <= i < |xs| && FirstClaim(xs, appId, i) && xs[i].teePubkey != [] && n == NodeOf(xs[i]);
      FirstClaimIs(xs, appId, i);
    }
    forall i, url | 0 <= i < |xs| && ClaimsFirst(xs, appId, url, i) && xs[i].teePubkey != []
      ensures Node(xs[i].wallet, url, xs[i].teePubkey, Observation(None, 0, 0, None, None)) in ns
    {
      ClaimUrl(xs, appId, url, i);
      FirstClaimIs(xs, appId, i);
    }
  }

  lemma {:induction false} ClaimUrl(xs: seq<Instance>, appId: nat, url: Url, i: nat)
    requires i < |xs| && ClaimsFirst(xs, appId, url, i)
    ensures xs[i].baseUrl == Some(url)
  {
  }

  lemma {:induction false} DiscoveredStep(xs: seq<Instance>, appId: nat, i: nat, ns: seq<Node>, next: seq<Node>)
    requires i < |xs| && Discovered(xs[..i], appId, ns)
    requires if FirstClaim(xs, appId, i) && xs[i].teePubkey != []
             then forall m :: m in next <==> m in ns || m == NodeOf(xs[i])
             else next == ns
    ensures Discovered(xs[..i + 1], appId, next)
  {
    var a, b := xs[..i], xs[..i + 1];
    forall j | 0 <= j < i
      ensures FirstClaim(b, appId, j) == FirstClaim(a, appId, j) && a[j] == b[j]
    {
    }
    assert FirstClaim(b, appId, i) == FirstClaim(xs, appId, i);
    forall n | n in next
      ensures exists j :: 0 <= j < |b| && FirstClaim(b, appId, j) && b[j].teePubkey != [] && n == NodeOf(b[j])
    {
      if n in ns {
        var j :| 0 <= j < |a| && FirstClaim(a, appId, j) && a[j].teePubkey != [] && n == NodeOf(a[j]);
        assert FirstClaim(b, appId, j);
      } else {
        assert FirstClaim(b, appId, i);
      }
    }
  }

  //// Merging with a cached list

  /** The cached entry with a URL; a later duplicate would win, as in a map built from the list. */
  function Lookup(ns: seq<Node>, url: Url): (r: Option<Node>)
    ensures r.Some? ==> r.value in ns && r.value.url == url
    ensures r.None? <==> forall n :: n in ns ==> n.url != url
  {
    if ns == [] then None
    else if ns[|ns| - 1].url == url then Some(ns[|ns| - 1])
    else Lookup(ns[..|ns| - 1], url)
  }

  function CachedNodes(e: Option<Entry>): seq<Node> { if e.Some? then e.value.nodes else [] }

  /** A discovered node keeps a cached observation that had not expired at `now`. */
  function KeepCached(n: Node, cached: seq<Node>, now: nat): Node {
    match Lookup(cached, n.url)
    case Some(c) => if now < c.obs.expiresAt then n.(obs := c.obs) else n
    case None => n
  }

  /** A refreshed node yields to a live observation that is later and had not expired at `now`. */
  function KeepLater(n: Node, live: seq<Node>, now: nat): Node {
    match Lookup(live, n.url)
    case Some(l) => if l.obs.lastChecked > n.obs.lastChecked && now < l.obs.expiresAt then n.(obs := l.obs) else n
    case None => n
  }

  function MergeDiscovered(ns: seq<Node>, previous: Option<Entry>, now: nat): (r: seq<Node>)
    ensures |r| == |ns| && Identities(r) == Identities(ns)
    ensures forall i :: 0 <= i < |ns| ==> r[i] == KeepCached(ns[i], CachedNodes(previous), now)
  {
    var r := seq(|ns|, i requires 0 <= i < |ns| => KeepCached(ns[i], CachedNodes(previous), now));
    assert Identities(r) == Identities(ns);
    r
  }

  function MergeRefreshed(ns: seq<Node>, live: Option<Entry>, now: nat): (r: seq<Node>)
    ensures |r| == |ns| && Identities(r) == Identities(ns)
    ensures forall i :: 0 <= i < |ns| ==> r[i] == KeepLater(ns[i], CachedNodes(live), now)
  {
    var r := seq(|ns|, i requires 0 <= i < |ns| => KeepLater(ns[i], CachedNodes(live), now));
    assert Identities(r) == Identities(ns);
    r
  }

  method IndexByUrl(ns: seq<Node>) returns (byUrl: map<Url, Node>)
    ensures forall u :: (u in byUrl) == Lookup(ns, u).Some?
    ensures forall u :: u in byUrl ==> Lookup(ns, u) == Some(byUrl[u])
  {
    byUrl := map[];
    var i := 0;
    while i < |ns|
      invariant 0 <= i <= |ns|
      invariant forall u :: (u in byUrl) == Lookup(ns[..i], u).Some?
      invariant forall u :: u in byUrl ==> Lookup(ns[..i], u) == Some(byUrl[u])
    {
      assert ns[..i + 1][..i] == ns[..i];
      byUrl := byUrl[ns[i].url := ns[i]];
      i := i + 1;
    }
    assert ns[..i] == ns;
  }

  /** In place: discovered entries take over unexpired cached observations. */
  method MergeDiscoveredWithPrevious(nodes: array<Node>, previous: Option<Entry>, now: nat)
    modifies nodes
    ensures nodes[..] == MergeDiscovered(old(nodes[..]), previous, now)
  {
    if previous.None? {
      assert nodes[..] == MergeDiscovered(old(nodes[..]), previous, now);
      return;
    }
    var byUrl := IndexByUrl(previous.value.nodes);
    var i := 0;
    while i < nodes.Length
      invariant 0 <= i <= nodes.Length
      invariant forall k :: 0 <= k < i ==> nodes[k] == KeepCached(old(nodes[..])[k], CachedNodes(previous), now)
      invariant forall k :: i <= k < nodes.Length ==> nodes[k] == old(nodes[..])[k]
    {
      var n := nodes[i];
      if n.url in byUrl && now < byUrl[n.url].obs.expiresAt {
        nodes[i] := n.(obs := byUrl[n.url].obs);
      }
      i := i + 1;
    }
  }

  /** In place: refreshed entries take over later, unexpired live observations. */
  method MergeRefreshWithLiveCache(nodes: array<Node>, live: Option<Entry>, now: nat)
    modifies nodes
    ensures nodes[..] == MergeRefreshed(old(nodes[..]), live, now)
  {
    if live.None? {
      assert nodes[..] == MergeRefreshed(old(nodes[..]), live, now);
      return;
    }
    var byUrl := IndexByUrl(live.value.nodes);
    var i := 0;
    while i < nodes.Length
      invariant 0 <= i <= nodes.Length
      invariant forall k :: 0 <= k < i ==> nodes[k] == KeepLater(old(nodes[..])[k], CachedNodes(live), now)
      invariant forall k :: i <= k < nodes.Length ==> nodes[k] == old(nodes[..])[k]
    {
      var n := nodes[i];
      if n.url in byUrl && byUrl[n.url].obs.lastChecked > n.obs.lastChecked && now < byUrl[n.url].obs.expiresAt {
        nodes[i] := n.(obs := byUrl[n.url].obs);
      }
      i := i + 1;
    }
  }
}
