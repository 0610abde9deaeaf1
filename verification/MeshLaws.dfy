/** What BuildFoundation, EnsurePeer and SyncOverlayRoutes keep true of the mesh, over every run. */
module MeshLaws {
  import opened Text
  import opened Digests
  import opened Mesh

  // ---------------------------------------------------------------- the invariant

  predicate PeersKnown(live: Live) {
    forall k :: 0 <= k < |live.routes| ==>
      KnowsPeer(live.peers, live.routes[k].sourcePeer) && KnowsPeer(live.peers, live.routes[k].targetPeer)
  }

  /** Routes of one service to one target run between the same peers. */
  predicate SameEnds(routes: seq<Route>) {
    forall j, k :: 0 <= j < |routes| && 0 <= k < |routes|
      && routes[j].origin.service == routes[k].origin.service
      && routes[j].origin.dependency.target == routes[k].origin.dependency.target
      ==> routes[j].sourcePeer == routes[k].sourcePeer && routes[j].targetPeer == routes[k].targetPeer
  }

  /** A route leaves its peer exactly when its ends differ, and only such a route is private. */
  predicate KindsFollowEnds(routes: seq<Route>) {
    forall k :: 0 <= k < |routes| ==>
      && (routes[k].kind == MeshPrivate <==> routes[k].sourcePeer != routes[k].targetPeer)
      && (routes[k].privateOnly <==> routes[k].kind == MeshPrivate)
      && (routes[k].fallbackBlocked <==> routes[k].kind == MeshPrivate)
  }

  /** Every cached dependency carries the fields of every route that serves it. */
  predicate CacheAgrees(cache: map<string, ServiceRecord>, routes: seq<Route>) {
    forall s, i, k :: s in cache && 0 <= i < |cache[s].dependencies| && 0 <= k < |routes|
      && routes[k].Serves(s, cache[s].dependencies[i].alias, cache[s].dependencies[i].target)
      ==> cache[s].dependencies[i]
            == CachedRoute(cache[s].dependencies[i].alias, cache[s].dependencies[i].target, routes[k])
  }

  predicate Caches(record: ServiceRecord, alias: string, target: string) {
    exists i :: 0 <= i < |record.dependencies|
      && record.dependencies[i].alias == alias && record.dependencies[i].target == target
  }

  /** Cache and route table list the same dependencies. */
  predicate CacheCovers(cache: map<string, ServiceRecord>, routes: seq<Route>) {
    && (forall k :: 0 <= k < |routes| ==>
          routes[k].origin.service in cache
          && Caches(
               cache[routes[k].origin.service], routes[k].origin.dependency.alias, routes[k].origin.dependency.target))
    && (forall s, i :: s in cache && 0 <= i < |cache[s].dependencies| ==>
          LastServing(routes, s, cache[s].dependencies[i].alias, cache[s].dependencies[i].target).Some?)
  }

  /** No operation ever leaves a peer joining, degraded or leaving. */
  predicate PeersSettled(peers: seq<Peer>) {
    forall k :: 0 <= k < |peers| ==> peers[k].state in {Planned, Active, Removed}
  }

  predicate LiveInv(live: Live) {
    && PeersKnown(live) && SameEnds(live.routes) && KindsFollowEnds(live.routes)
    && PeersSettled(live.peers)
    && live.health == HealthOf(live.peers, live.routes)
  }

  /** What the route table promises by itself, and the cache is only ever written after it. */
  predicate Inv(s: State) {
    (s.live.Some? ==> LiveInv(s.live.value)) && (s.cache.Some? ==> s.live.Some?)
  }

  /** The cache tells of the routes. */
  predicate Tells(cache: CacheFile, routes: seq<Route>) {
    && CacheAgrees(cache.services, routes) && CacheCovers(cache.services, routes)
    && cache.fingerprint == FingerprintOf(routes)
  }

  /** Route table and cache are both there and agree, or both are absent. */
  predicate InStep(s: State) {
    && (s.live.Some? <==> s.cache.Some?)
    && (s.live.Some? ==> Tells(s.cache.value, s.live.value.routes))
  }

  predicate Admissible(c: Command) {
    c.BuildFoundation? ==> DistinctNames(c.topology.services)
  }

  // ---------------------------------------------------------------- foundation

  predicate From(t: Topology, n: nat, route: Route)
    requires n <= |t.services|
  {
    exists i, j :: 0 <= i < n && 0 <= j < |t.services[i].dependencies|
      && route == FirstRoute(t, t.services[i], t.services[i].dependencies[j])
  }

  lemma {:induction false} RoutesComeFrom(t: Topology, n: nat)
    requires n <= |t.services|
    ensures forall k :: 0 <= k < |FirstRoutes(t, n)| ==> From(t, n, FirstRoutes(t, n)[k])
    ensures forall i, j :: 0 <= i < n && 0 <= j < |t.services[i].dependencies| ==>
              FirstRoute(t, t.services[i], t.services[i].dependencies[j]) in FirstRoutes(t, n)
  {
    if n > 0 {
      RoutesComeFrom(t, n - 1);
      var service := t.services[n - 1];
      var before, added := FirstRoutes(t, n - 1), ServiceRoutes(t, service, |service.dependencies|);
      forall k | 0 <= k < |before + added| ensures From(t, n, (before + added)[k]) {
        if k < |before| {
          assert From(t, n - 1, before[k]);
        } else {
          assert added[k - |before|] == FirstRoute(t, service, service.dependencies[k - |before|]);
        }
      }
      forall i, j | 0 <= i < n && 0 <= j < |t.services[i].dependencies|
        ensures FirstRoute(t, t.services[i], t.services[i].dependencies[j]) in before + added
      {
        if i == n - 1 {
          assert added[j] == FirstRoute(t, service, service.dependencies[j]);
        }
      }
    }
  }

  predicate Recorded(cache: map<string, ServiceRecord>, t: Topology, service: Service) {
    service.name in cache && cache[service.name] == RecordOf(t, service)
  }

  /** The first n services are recorded. */
  predicate AllRecorded(cache: map<string, ServiceRecord>, t: Topology, n: nat)
    requires n <= |t.services|
  {
    forall i :: 0 <= i < n ==> Recorded(cache, t, t.services[i])
  }

  /** Only the first n services are. */
  predicate NoneElse(cache: map<string, ServiceRecord>, t: Topology, n: nat)
    requires n <= |t.services|
  {
    forall s :: s in cache ==> exists i :: 0 <= i < n && t.services[i].name == s
  }

  lemma RecordedGrows(cache: map<string, ServiceRecord>, t: Topology, n: nat)
    requires 0 < n <= |t.services| && DistinctNames(t.services) && AllRecorded(cache, t, n - 1)
    ensures AllRecorded(cache[t.services[n - 1].name := RecordOf(t, t.services[n - 1])], t, n)
  {
    var last := t.services[n - 1];
    var grown := cache[last.name := RecordOf(t, last)];
    forall i | 0 <= i < n ensures Recorded(grown, t, t.services[i]) {
      if i < n - 1 {
        assert Recorded(cache, t, t.services[i]) && t.services[i].name != last.name;
      }
    }
  }

  lemma NoneElseGrows(cache: map<string, ServiceRecord>, t: Topology, n: nat)
    requires 0 < n <= |t.services| && NoneElse(cache, t, n - 1)
    ensures NoneElse(cache[t.services[n - 1].name := RecordOf(t, t.services[n - 1])], t, n)
  {
    var grown := cache[t.services[n - 1].name := RecordOf(t, t.services[n - 1])];
    forall s | s in grown ensures exists i :: 0 <= i < n && t.services[i].name == s {
      if s in cache {
        var i :| 0 <= i < n - 1 && t.services[i].name == s;
        assert 0 <= i < n;
      }
    }
  }

  lemma NextCache(t: Topology, n: nat)
    requires 0 < n <= |t.services|
    ensures FirstCache(t, n) == FirstCache(t, n - 1)[t.services[n - 1].name := RecordOf(t, t.services[n - 1])]
  {
  }

  lemma {:induction false} AllAreRecorded(t: Topology, n: nat)
    requires n <= |t.services| && DistinctNames(t.services)
    ensures AllRecorded(FirstCache(t, n), t, n)
  {
    if n > 0 {
      AllAreRecorded(t, n - 1);
      RecordedGrows(FirstCache(t, n - 1), t, n);
      NextCache(t, n);
    }
  }

  lemma {:induction false} NoneElseIsRecorded(t: Topology, n: nat)
    requires n <= |t.services|
    ensures NoneElse(FirstCache(t, n), t, n)
  {
    if n > 0 {
      NoneElseIsRecorded(t, n - 1);
      NoneElseGrows(FirstCache(t, n - 1), t, n);
      NextCache(t, n);
    }
  }

  lemma CacheComesFrom(t: Topology, n: nat)
    requires n <= |t.services| && DistinctNames(t.services)
    ensures AllRecorded(FirstCache(t, n), t, n) && NoneElse(FirstCache(t, n), t, n)
  {
    AllAreRecorded(t, n);
    NoneElseIsRecorded(t, n);
  }

  lemma WithPeerGrows(peers: seq<Peer>, p: Placement)
    ensures KnowsPeer(WithPeer(peers, p), PeerRef(p)) && peers <= WithPeer(peers, p)
    ensures PeersSettled(peers) ==> PeersSettled(WithPeer(peers, p))
  {
    if !KnowsPeer(peers, PeerRef(p)) {
      assert WithPeer(peers, p)[|peers|].ref == PeerRef(p);
    }
  }

  lemma KnownStays(peers: seq<Peer>, more: seq<Peer>, ref: string)
    requires peers <= more && KnowsPeer(peers, ref)
    ensures KnowsPeer(more, ref)
  {
  }

  lemma {:induction false} TargetsGrow(peers: seq<Peer>, t: Topology, service: Service, n: nat)
    requires n <= |service.dependencies|
    ensures var grown := WithTargets(peers, t, service, n);
            && peers <= grown && (PeersSettled(peers) ==> PeersSettled(grown))
            && KnowsPeer(grown, PeerRef(SourceOf(t, service)))
            && forall j :: 0 <= j < n ==> KnowsPeer(grown, PeerRef(TargetOf(t, service.dependencies[j].target)))
  {
    if n == 0 {
      WithPeerGrows(peers, SourceOf(t, service));
    } else {
      TargetsGrow(peers, t, service, n - 1);
      var before := WithTargets(peers, t, service, n - 1);
      var grown := WithTargets(peers, t, service, n);
      WithPeerGrows(before, TargetOf(t, service.dependencies[n - 1].target));
      KnownStays(before, grown, PeerRef(SourceOf(t, service)));
      forall j | 0 <= j < n - 1 ensures KnowsPeer(grown, PeerRef(TargetOf(t, service.dependencies[j].target))) {
        KnownStays(before, grown, PeerRef(TargetOf(t, service.dependencies[j].target)));
      }
    }
  }

  predicate EndsOf(peers: seq<Peer>, t: Topology, service: Service, d: Dependency) {
    KnowsPeer(peers, PeerRef(SourceOf(t, service))) && KnowsPeer(peers, PeerRef(TargetOf(t, d.target)))
  }

  predicate ServiceEnds(peers: seq<Peer>, t: Topology, service: Service) {
    forall d :: d in service.dependencies ==> EndsOf(peers, t, service, d)
  }

  predicate EndsKnown(peers: seq<Peer>, t: Topology, n: nat)
    requires n <= |t.services|
  {
    forall i :: 0 <= i < n ==> ServiceEnds(peers, t, t.services[i])
  }

  lemma EndsStayKnown(before: seq<Peer>, grown: seq<Peer>, t: Topology, service: Service)
    requires before <= grown && ServiceEnds(before, t, service)
    ensures ServiceEnds(grown, t, service)
  {
  }

  /** With one service more, its ends are known and those of the others stay known. */
  lemma EndsGrow(before: seq<Peer>, grown: seq<Peer>, t: Topology, n: nat)
    requires 0 < n <= |t.services| && before <= grown
    requires EndsKnown(before, t, n - 1) && ServiceEnds(grown, t, t.services[n - 1])
    ensures EndsKnown(grown, t, n)
  {
    forall i | 0 <= i < n ensures ServiceEnds(grown, t, t.services[i]) {
      if i < n - 1 {
        EndsStayKnown(before, grown, t, t.services[i]);
      }
    }
  }

  lemma OwnEndsAreKnown(peers: seq<Peer>, t: Topology, service: Service)
    ensures var grown := WithTargets(peers, t, service, |service.dependencies|);
            && peers <= grown && (PeersSettled(peers) ==> PeersSettled(grown))
            && ServiceEnds(grown, t, service)
  {
    TargetsGrow(peers, t, service, |service.dependencies|);
  }

  lemma NextPeersCover(t: Topology, n: nat)
    requires 0 < n <= |t.services|
    requires PeersSettled(FirstPeers(t, n - 1)) && EndsKnown(FirstPeers(t, n - 1), t, n - 1)
    ensures PeersSettled(FirstPeers(t, n)) && EndsKnown(FirstPeers(t, n), t, n)
  {
    var before, service := FirstPeers(t, n - 1), t.services[n - 1];
    var grown := WithTargets(before, t, service, |service.dependencies|);
    OwnEndsAreKnown(before, t, service);
    EndsGrow(before, grown, t, n);
    NextPeers(t, n);
  }

  lemma {:induction false} PeersCover(t: Topology, n: nat, m: nat)
    requires n <= m <= |t.services|
    requires PeersSettled(FirstPeers(t, n)) && EndsKnown(FirstPeers(t, n), t, n)
    ensures PeersSettled(FirstPeers(t, m)) && EndsKnown(FirstPeers(t, m), t, m)
    decreases m - n
  {
    if n < m {
      NextPeersCover(t, n + 1);
      PeersCover(t, n + 1, m);
    }
  }

  lemma PeersCoverServices(t: Topology, n: nat)
    requires n <= |t.services|
    ensures PeersSettled(FirstPeers(t, n)) && EndsKnown(FirstPeers(t, n), t, n)
  {
    PeersCover(t, 0, n);
  }

  lemma NextPeers(t: Topology, n: nat)
    requires 0 < n <= |t.services|
    ensures var service := t.services[n - 1];
            FirstPeers(t, n) == WithTargets(FirstPeers(t, n - 1), t, service, |service.dependencies|)
  {
  }

  lemma FoundationSameEnds(t: Topology)
    requires DistinctNames(t.services)
    ensures SameEnds(FirstRoutes(t, |t.services|))
  {
    var n := |t.services|;
    var routes := FirstRoutes(t, n);
    RoutesComeFrom(t, n);
    forall j, k | 0 <= j < |routes| && 0 <= k < |routes| && routes[j].origin.service == routes[k].origin.service
        && routes[j].origin.dependency.target == routes[k].origin.dependency.target
      ensures routes[j].sourcePeer == routes[k].sourcePeer && routes[j].targetPeer == routes[k].targetPeer
    {
      assert From(t, n, routes[j]) && From(t, n, routes[k]);
    }
  }

  lemma RecordedAgrees(t: Topology, m: nat, i: nat, route: Route)
    requires DistinctNames(t.services) && m < |t.services| && i < |t.services[m].dependencies|
    requires From(t, |t.services|, route)
    requires var d := t.services[m].dependencies[i]; route.Serves(t.services[m].name, d.alias, d.target)
    ensures var d := FirstCached(t, t.services[m], t.services[m].dependencies[i]);
            d == CachedRoute(d.alias, d.target, route)
  {
  }

  lemma FoundationCacheAgrees(t: Topology)
    requires DistinctNames(t.services)
    ensures CacheAgrees(FirstCache(t, |t.services|), FirstRoutes(t, |t.services|))
  {
    var n := |t.services|;
    var cache, routes := FirstCache(t, n), FirstRoutes(t, n);
    RoutesComeFrom(t, n);
    CacheComesFrom(t, n);
    forall s, i, k | s in cache && 0 <= i < |cache[s].dependencies| && 0 <= k < |routes|
        && routes[k].Serves(s, cache[s].dependencies[i].alias, cache[s].dependencies[i].target)
      ensures cache[s].dependencies[i]
           == CachedRoute(cache[s].dependencies[i].alias, cache[s].dependencies[i].target, routes[k])
    {
      var m :| 0 <= m < n && t.services[m].name == s;
      assert Recorded(cache, t, t.services[m]) && From(t, n, routes[k]);
      RecordedAgrees(t, m, i, routes[k]);
    }
  }

  lemma FoundationCacheCovers(t: Topology)
    requires DistinctNames(t.services)
    ensures CacheCovers(FirstCache(t, |t.services|), FirstRoutes(t, |t.services|))
  {
    var n := |t.services|;
    var cache, routes := FirstCache(t, n), FirstRoutes(t, n);
    RoutesComeFrom(t, n);
    CacheComesFrom(t, n);
    forall k | 0 <= k < |routes|
      ensures routes[k].origin.service in cache
           && Caches(
                cache[routes[k].origin.service], routes[k].origin.dependency.alias, routes[k].origin.dependency.target)
    {
      assert From(t, n, routes[k]);
      var i, j :| 0 <= i < n && 0 <= j < |t.services[i].dependencies|
        && routes[k] == FirstRoute(t, t.services[i], t.services[i].dependencies[j]);
      assert cache[t.services[i].name].dependencies[j] == FirstCached(t, t.services[i], t.services[i].dependencies[j]);
    }
    forall s, i | s in cache && 0 <= i < |cache[s].dependencies|
      ensures LastServing(routes, s, cache[s].dependencies[i].alias, cache[s].dependencies[i].target).Some?
    {
      var m :| 0 <= m < n && t.services[m].name == s;
      var route := FirstRoute(t, t.services[m], t.services[m].dependencies[i]);
      assert route in routes;
      assert route.Serves(s, cache[s].dependencies[i].alias, cache[s].dependencies[i].target);
    }
  }

  /** What is built satisfies the invariant, and its cache tells of its routes. */
  lemma FoundationKeepsInv(t: Topology)
    requires DistinctNames(t.services)
    ensures LiveInv(Foundation(t)) && Tells(FoundationCache(t), Foundation(t).routes)
  {
    var n := |t.services|;
    FoundationCacheAgrees(t);
    FoundationSameEnds(t);
    FoundationCacheCovers(t);
    PeersCoverServices(t, n);
    RoutesComeFrom(t, n);
    var routes := FirstRoutes(t, n);
    forall k | 0 <= k < |routes|
      ensures KnowsPeer(FirstPeers(t, n), routes[k].sourcePeer) && KnowsPeer(FirstPeers(t, n), routes[k].targetPeer)
      ensures routes[k].kind == MeshPrivate <==> routes[k].sourcePeer != routes[k].targetPeer
      ensures routes[k].privateOnly <==> routes[k].kind == MeshPrivate
      ensures routes[k].fallbackBlocked <==> routes[k].kind == MeshPrivate
    {
      assert From(t, n, routes[k]);
      FoundationRoute(t, n, routes[k]);
    }
  }

  lemma FoundationRoute(t: Topology, n: nat, route: Route)
    requires n <= |t.services| && EndsKnown(FirstPeers(t, n), t, n) && From(t, n, route)
    ensures KnowsPeer(FirstPeers(t, n), route.sourcePeer) && KnowsPeer(FirstPeers(t, n), route.targetPeer)
    ensures route.kind == MeshPrivate <==> route.sourcePeer != route.targetPeer
    ensures route.privateOnly <==> route.kind == MeshPrivate
    ensures route.fallbackBlocked <==> route.kind == MeshPrivate
  {
    var i, j :| 0 <= i < n && 0 <= j < |t.services[i].dependencies|
      && route == FirstRoute(t, t.services[i], t.services[i].dependencies[j]);
    assert ServiceEnds(FirstPeers(t, n), t, t.services[i]);
    assert EndsOf(FirstPeers(t, n), t, t.services[i], t.services[i].dependencies[j]);
  }

  // ---------------------------------------------------------------- ensure and sync

  lemma EnsureKeepsInv(live: Live, filter: PeerFilter, desired: PeerState)
    requires LiveInv(live)
    ensures LiveInv(Ensured(live, filter, desired))
  {
    var peers := EnsuredPeers(live.peers, filter, desired);
    forall ref | KnowsPeer(live.peers, ref) ensures KnowsPeer(peers, ref) {
      var k :| 0 <= k < |live.peers| && live.peers[k].ref == ref;
      assert peers[k].ref == ref;
    }
  }

  lemma SyncKeepsEnds(live: Live, index: map<string, Peer>, provider: Provider)
    requires PeersKnown(live) && SameEnds(live.routes) && KindsFollowEnds(live.routes)
    ensures var routes := SyncedRoutes(index, provider, live.routes);
            PeersKnown(live.(routes := routes)) && SameEnds(routes) && KindsFollowEnds(routes)
  {
    var routes := SyncedRoutes(index, provider, live.routes);
    assert forall k :: 0 <= k < |routes| ==> Fixed(routes[k], live.routes[k]);
    forall j, k | 0 <= j < |routes| && 0 <= k < |routes|
        && routes[j].origin.service == routes[k].origin.service
        && routes[j].origin.dependency.target == routes[k].origin.dependency.target
      ensures routes[j].sourcePeer == routes[k].sourcePeer && routes[j].targetPeer == routes[k].targetPeer
    {
      assert Fixed(routes[j], live.routes[j]) && Fixed(routes[k], live.routes[k]);
    }
    forall k | 0 <= k < |routes|
      ensures KnowsPeer(live.peers, routes[k].sourcePeer) && KnowsPeer(live.peers, routes[k].targetPeer)
    {
      assert Fixed(routes[k], live.routes[k]);
    }
  }

  /** What a sync never changes of a route. */
  predicate Fixed(synced: Route, route: Route) {
    synced.origin == route.origin && synced.kind == route.kind
    && synced.sourcePeer == route.sourcePeer && synced.targetPeer == route.targetPeer
  }

  /** Synced routes of one service to one target agree on everything that the cache copies. */
  lemma SyncedRoutesAgree(
    routes: seq<Route>, index: map<string, Peer>, provider: Provider, j: nat, k: nat, alias: string, target: string)
    requires SameEnds(routes) && KindsFollowEnds(routes) && j < |routes| && k < |routes|
    requires routes[j].origin.service == routes[k].origin.service
    requires routes[j].origin.dependency.target == routes[k].origin.dependency.target
    ensures CachedRoute(alias, target, SyncedRoute(index, provider, routes[j]))
         == CachedRoute(alias, target, SyncedRoute(index, provider, routes[k]))
  {
  }

  lemma SyncedDependencyAgrees(
    was: seq<Route>, index: map<string, Peer>, provider: Provider, s: string, d: CachedDependency, k: nat)
    requires SameEnds(was) && KindsFollowEnds(was) && k < |was|
    requires was[k].Serves(s, d.alias, d.target)
    ensures SyncedDependency(d, s, SyncedRoutes(index, provider, was))
         == CachedRoute(d.alias, d.target, SyncedRoute(index, provider, was[k]))
  {
    var routes := SyncedRoutes(index, provider, was);
    assert routes[k].Serves(s, d.alias, d.target);
    var m := LastServingIndex(routes, s, d.alias, d.target, k);
    assert routes[m] == SyncedRoute(index, provider, was[m]);
    SyncedRoutesAgree(was, index, provider, m, k, d.alias, d.target);
  }

  lemma LastServingIndex(routes: seq<Route>, s: string, alias: string, target: string, k: nat) returns (m: nat)
    requires k < |routes| && routes[k].Serves(s, alias, target)
    ensures m < |routes| && routes[m].Serves(s, alias, target)
    ensures LastServing(routes, s, alias, target) == Some(routes[m])
  {
    assert routes[k].Serves(s, alias, target) && LastServing(routes, s, alias, target).Some?;
    m :| 0 <= m < |routes| && routes[m] == LastServing(routes, s, alias, target).value;
  }

  /** Whatever the cache said before, it agrees with the routes that a sync writes through. */
  lemma SyncedCacheAgrees(
    cached: map<string, ServiceRecord>, was: seq<Route>, index: map<string, Peer>, provider: Provider)
    requires SameEnds(was) && KindsFollowEnds(was)
    ensures var routes := SyncedRoutes(index, provider, was);
            CacheAgrees(SyncedCache(cached, routes), routes)
  {
    var routes := SyncedRoutes(index, provider, was);
    var cache := SyncedCache(cached, routes);
    forall s, i, k | s in cache && 0 <= i < |cache[s].dependencies| && 0 <= k < |routes|
        && routes[k].Serves(s, cache[s].dependencies[i].alias, cache[s].dependencies[i].target)
      ensures cache[s].dependencies[i]
           == CachedRoute(cache[s].dependencies[i].alias, cache[s].dependencies[i].target, routes[k])
    {
      SyncedDependencyAgrees(was, index, provider, s, cached[s].dependencies[i], k);
    }
  }

  /** Routes that serve the same dependencies, one by one. */
  predicate Alike(a: seq<Route>, b: seq<Route>) {
    |a| == |b| && forall k :: 0 <= k < |a| ==> Fixed(a[k], b[k])
  }

  lemma AlikeServe(a: seq<Route>, b: seq<Route>, service: string, alias: string, target: string)
    requires Alike(a, b) && LastServing(a, service, alias, target).Some?
    ensures LastServing(b, service, alias, target).Some?
  {
    var k :| 0 <= k < |a| && a[k].Serves(service, alias, target);
    assert Fixed(a[k], b[k]) && b[k].Serves(service, alias, target);
  }

  lemma CoverageFollowsOrigins(cache: map<string, ServiceRecord>, a: seq<Route>, b: seq<Route>)
    requires CacheCovers(cache, a) && (Alike(a, b) || Alike(b, a))
    ensures CacheCovers(cache, b)
  {
    assert forall k :: 0 <= k < |a| ==> a[k].origin == b[k].origin;
    forall s, i | s in cache && 0 <= i < |cache[s].dependencies|
      ensures LastServing(b, s, cache[s].dependencies[i].alias, cache[s].dependencies[i].target).Some?
    {
      assert Alike(a, b);
      AlikeServe(a, b, s, cache[s].dependencies[i].alias, cache[s].dependencies[i].target);
    }
  }

  predicate SameNames(a: seq<CachedDependency>, b: seq<CachedDependency>) {
    |a| == |b| && forall i :: 0 <= i < |a| ==> a[i].alias == b[i].alias && a[i].target == b[i].target
  }

  lemma CoverageFollowsNames(
    a: map<string, ServiceRecord>, b: map<string, ServiceRecord>, routes: seq<Route>)
    requires a.Keys == b.Keys && forall s :: s in a ==> SameNames(a[s].dependencies, b[s].dependencies)
    requires CacheCovers(a, routes)
    ensures CacheCovers(b, routes)
  {
    forall k | 0 <= k < |routes|
      ensures routes[k].origin.service in b
           && Caches(
                b[routes[k].origin.service], routes[k].origin.dependency.alias, routes[k].origin.dependency.target)
    {
      var s, d := routes[k].origin.service, routes[k].origin.dependency;
      assert Caches(a[s], d.alias, d.target);
      var i :| 0 <= i < |a[s].dependencies| && a[s].dependencies[i].alias == d.alias
        && a[s].dependencies[i].target == d.target;
      assert SameNames(a[s].dependencies, b[s].dependencies);
      assert b[s].dependencies[i].alias == d.alias && b[s].dependencies[i].target == d.target;
    }
    forall s, i | s in b && 0 <= i < |b[s].dependencies|
      ensures LastServing(routes, s, b[s].dependencies[i].alias, b[s].dependencies[i].target).Some?
    {
      assert SameNames(a[s].dependencies, b[s].dependencies);
      assert a[s].dependencies[i].alias == b[s].dependencies[i].alias;
    }
  }

  lemma SyncedAlike(live: Live)
    ensures Alike(Synced(live).routes, live.routes) && Alike(live.routes, Synced(live).routes)
  {
  }

  /** A sync rewrites fields of the cache, never what it lists. */
  lemma SyncKeepsCoverage(cached: map<string, ServiceRecord>, live: Live)
    ensures CacheCovers(SyncedCache(cached, Synced(live).routes), Synced(live).routes)
       <==> CacheCovers(cached, live.routes)
  {
    var routes := Synced(live).routes;
    var cache := SyncedCache(cached, routes);
    SyncedAlike(live);
    assert forall s :: s in cached ==>
      && SameNames(cached[s].dependencies, cache[s].dependencies)
      && SameNames(cache[s].dependencies, cached[s].dependencies);
    if CacheCovers(cached, live.routes) {
      CoverageFollowsOrigins(cached, live.routes, routes);
      CoverageFollowsNames(cached, cache, routes);
    }
    if CacheCovers(cache, routes) {
      CoverageFollowsNames(cache, cached, routes);
      CoverageFollowsOrigins(cached, routes, live.routes);
    }
  }

  lemma SyncKeepsInv(live: Live)
    requires LiveInv(live)
    ensures LiveInv(Synced(live))
  {
    SyncKeepsEnds(live, IndexPeers(live.peers), WireGuard);
  }

  /** Each of the three operations keeps peers, routes and health in step, whichever of its writes fails. */
  lemma InvariantIsInductive(s: State, c: Command)
    requires Inv(s) && Admissible(c)
    ensures Inv(Step(s, c).state)
  {
    if Objection(s, c).None? {
      match c {
        case BuildFoundation(t, meshMode, written) => FoundationKeepsInv(t);
        case EnsurePeer(meshMode, provider, filter, desired, broken, written) =>
          EnsureKeepsInv(s.live.value, filter, desired.value);
        case SyncRoutes(meshMode, provider, written) => SyncKeepsInv(s.live.value);
      }
    }
  }

  // ---------------------------------------------------------------- failed writes

  /** The two places where a failed write leaves a new route table beside the old cache. */
  predicate TornAt(s: State, c: Command) {
    && Objection(s, c).None?
    && match c
       case BuildFoundation(_, meshMode, written) => meshMode && written == 3
       case EnsurePeer(_, _, _, _, _, _) => false
       case SyncRoutes(_, _, written) => written == 1
  }

  /** A sync writes through to the cache of any state; the cache then tells of the routes iff it listed them. */
  lemma SyncRepairs(s: State, c: Command)
    requires Inv(s) && c.SyncRoutes? && Objection(s, c).None? && c.written >= 2
    ensures var after := Step(s, c).state;
            && CacheAgrees(after.cache.value.services, after.live.value.routes)
            && after.cache.value.fingerprint == FingerprintOf(after.live.value.routes)
            && (InStep(after) <==> CacheCovers(s.cache.value.services, s.live.value.routes))
  {
    var live := s.live.value;
    SyncedCacheAgrees(s.cache.value.services, live.routes, IndexPeers(live.peers), WireGuard);
    SyncKeepsCoverage(s.cache.value.services, live);
  }

  /** No other failed write, and no complete command, takes the cache out of step; a complete build repairs anything. */
  lemma StepKeepsInStep(s: State, c: Command)
    requires Inv(s) && Admissible(c) && !TornAt(s, c)
    requires InStep(s) || (c.BuildFoundation? && c.meshMode && c.written >= 4)
    ensures InStep(Step(s, c).state)
  {
    if Objection(s, c).None? {
      match c {
        case BuildFoundation(t, meshMode, written) => BuildKeepsInStep(s, c);
        case EnsurePeer(meshMode, provider, filter, desired, broken, written) =>
          assert Ensured(s.live.value, filter, desired.value).routes == s.live.value.routes;
        case SyncRoutes(meshMode, provider, written) =>
          if written >= 2 {
            SyncRepairs(s, c);
          }
      }
    }
  }

  lemma BuildKeepsInStep(s: State, c: Command)
    requires c.BuildFoundation? && Admissible(c) && !TornAt(s, c)
    requires InStep(s) || (c.meshMode && c.written >= 4)
    ensures InStep(Step(s, c).state)
  {
    FoundationKeepsInv(c.topology);
  }

  /** The sync would change nothing that the cache copies or a fingerprint reads. */
  predicate SyncChangesNothing(live: Live) {
    forall k :: 0 <= k < |live.routes| ==>
      && Synced(live).routes[k].status == live.routes[k].status
      && Synced(live).routes[k].provider == live.routes[k].provider
  }

  /** Routes that agree on everything that the cache copies or a fingerprint reads. */
  predicate SameCopies(a: seq<Route>, b: seq<Route>) {
    Alike(a, b) && forall k :: 0 <= k < |a| ==> SameCopy(a[k], b[k])
  }

  predicate SameCopy(a: Route, b: Route) {
    && a.status == b.status && a.provider == b.provider
    && a.privateOnly == b.privateOnly && a.fallbackBlocked == b.fallbackBlocked
  }

  lemma UnchangedCopies(live: Live)
    requires LiveInv(live) && SyncChangesNothing(live)
    ensures SameCopies(live.routes, Synced(live).routes)
  {
    SyncKeepsEnds(live, IndexPeers(live.peers), WireGuard);
    var routes := Synced(live).routes;
    forall k | 0 <= k < |routes| ensures Fixed(live.routes[k], routes[k]) && SameCopy(live.routes[k], routes[k]) {
    }
  }

  lemma CopiesGiveFingerprint(a: seq<Route>, b: seq<Route>)
    requires SameCopies(a, b)
    ensures FingerprintOf(a) == FingerprintOf(b)
  {
    forall k | 0 <= k < |a| ensures PartOf(a[k]) == PartOf(b[k]) {
      assert Fixed(a[k], b[k]) && SameCopy(a[k], b[k]);
    }
    assert Map(PartOf, a) == Map(PartOf, b);
  }

  lemma CopiesGiveAgreement(cache: map<string, ServiceRecord>, a: seq<Route>, b: seq<Route>)
    requires SameCopies(a, b) && CacheAgrees(cache, a)
    ensures CacheAgrees(cache, b)
  {
    forall s, i, k | s in cache && 0 <= i < |cache[s].dependencies| && 0 <= k < |b|
        && b[k].Serves(s, cache[s].dependencies[i].alias, cache[s].dependencies[i].target)
      ensures cache[s].dependencies[i]
           == CachedRoute(cache[s].dependencies[i].alias, cache[s].dependencies[i].target, b[k])
    {
      assert Fixed(a[k], b[k]) && SameCopy(a[k], b[k]);
      assert a[k].Serves(s, cache[s].dependencies[i].alias, cache[s].dependencies[i].target);
    }
  }

  lemma StaleCacheStillTells(cache: CacheFile, live: Live)
    requires LiveInv(live) && Tells(cache, live.routes) && SyncChangesNothing(live)
    ensures Tells(cache, Synced(live).routes)
  {
    UnchangedCopies(live);
    SyncedAlike(live);
    CopiesGiveFingerprint(live.routes, Synced(live).routes);
    CopiesGiveAgreement(cache.services, live.routes, Synced(live).routes);
    CoverageFollowsOrigins(cache.services, live.routes, Synced(live).routes);
  }

  lemma StaleCacheIsWrong(cache: CacheFile, live: Live, k: nat)
    requires CacheAgrees(cache.services, live.routes) && CacheCovers(cache.services, live.routes) && k < |live.routes|
    requires CacheAgrees(cache.services, Synced(live).routes)
    ensures Synced(live).routes[k].status == live.routes[k].status
         && Synced(live).routes[k].provider == live.routes[k].provider
  {
    var route := live.routes[k];
    var s, d := route.origin.service, route.origin.dependency;
    assert Caches(cache.services[s], d.alias, d.target);
    var i :| 0 <= i < |cache.services[s].dependencies| && cache.services[s].dependencies[i].alias == d.alias
      && cache.services[s].dependencies[i].target == d.target;
    assert Fixed(Synced(live).routes[k], route);
    assert route.Serves(s, d.alias, d.target) && Synced(live).routes[k].Serves(s, d.alias, d.target);
    assert cache.services[s].dependencies[i] == CachedRoute(d.alias, d.target, route);
    assert cache.services[s].dependencies[i] == CachedRoute(d.alias, d.target, Synced(live).routes[k]);
  }

  lemma StaleCacheWasRight(cache: CacheFile, live: Live)
    requires Tells(cache, live.routes) && CacheAgrees(cache.services, Synced(live).routes)
    ensures SyncChangesNothing(live)
  {
    forall k | 0 <= k < |live.routes|
      ensures Synced(live).routes[k].status == live.routes[k].status
           && Synced(live).routes[k].provider == live.routes[k].provider
    {
      StaleCacheIsWrong(cache, live, k);
    }
  }

  lemma StaleCacheTellsExactlyWhen(cache: CacheFile, live: Live)
    requires LiveInv(live) && Tells(cache, live.routes)
    ensures Tells(cache, Synced(live).routes) <==> SyncChangesNothing(live)
  {
    if SyncChangesNothing(live) {
      StaleCacheStillTells(cache, live);
    }
    if Tells(cache, Synced(live).routes) {
      StaleCacheWasRight(cache, live);
    }
  }

  /** A sync that stops between its first two writes leaves the cache in step exactly when it changes no route. */
  lemma TornSyncIsHarmlessExactlyWhen(s: State, c: Command)
    requires Inv(s) && InStep(s) && c.SyncRoutes? && TornAt(s, c)
    ensures InStep(Step(s, c).state) <==> SyncChangesNothing(s.live.value)
  {
    StaleCacheTellsExactlyWhen(s.cache.value, s.live.value);
  }

  lemma TornSyncKeepsCoverage(s: State, c: Command)
    requires Inv(s) && InStep(s) && c.SyncRoutes? && TornAt(s, c)
    ensures var after := Step(s, c).state;
            after.cache == s.cache && CacheCovers(after.cache.value.services, after.live.value.routes)
  {
    SyncedAlike(s.live.value);
    CoverageFollowsOrigins(s.cache.value.services, s.live.value.routes, Synced(s.live.value).routes);
  }

  /** So after a sync that stopped there, the next one that reaches its second write puts things right. */
  lemma NextSyncRepairs(s: State, torn: Command, c: Command)
    requires Inv(s) && InStep(s) && torn.SyncRoutes? && TornAt(s, torn)
    requires var after := Step(s, torn).state; c.SyncRoutes? && Objection(after, c).None? && c.written >= 2
    ensures InStep(Step(Step(s, torn).state, c).state)
  {
    InvariantIsInductive(s, torn);
    TornSyncKeepsCoverage(s, torn);
    SyncRepairs(Step(s, torn).state, c);
  }
}
