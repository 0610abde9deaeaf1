/** The mesh manager as it runs: loops that build and rewrite peers, routes, cache entries and link records. */
module MeshManager {
  import opened Text
  import opened Mesh

  method SummarizeHealth(peers: seq<Peer>, routes: seq<Route>) returns (h: Health)
    ensures h == HealthOf(peers, routes)
  {
    var active, degraded, planned: nat := 0, 0, 0;
    for k := 0 to |peers|
      invariant active == CountPeers(peers[..k], Active) && degraded == CountPeers(peers[..k], Degraded)
      invariant planned == k - active - degraded
    {
      assert peers[..k + 1][..k] == peers[..k];
      match peers[k].state
      case Active => active := active + 1;
      case Degraded => degraded := degraded + 1;
      case Planned | Joining | Leaving | Removed => planned := planned + 1;
    }
    assert peers[..|peers|] == peers;
    var privateRoutes, localRoutes, verified, degradedRoutes, blocked: nat := 0, 0, 0, 0, 0;
    for k := 0 to |routes|
      invariant privateRoutes == CountPrivate(routes[..k]) && localRoutes == k - privateRoutes
      invariant verified == CountClass(routes[..k], ClassVerified)
      invariant degradedRoutes == CountClass(routes[..k], ClassDegraded)
      invariant blocked == CountClass(routes[..k], ClassBlocked)
    {
      assert routes[..k + 1][..k] == routes[..k];
      if routes[k].kind == MeshPrivate {
        privateRoutes := privateRoutes + 1;
      } else {
        localRoutes := localRoutes + 1;
      }
      match routes[k].status
      case Verified | LocalVerified | RouteActive => verified := verified + 1;
      case RouteDegraded => degradedRoutes := degradedRoutes + 1;
      case Blocked | Unavailable => blocked := blocked + 1;
      case RoutePlanned =>
    }
    assert routes[..|routes|] == routes;
    var status := HealthActive;
    if blocked > 0 || degradedRoutes > 0 || degraded > 0 {
      status := HealthDegraded;
    } else if planned > 0 {
      status := HealthPlanning;
    } else if |peers| == 0 {
      status := HealthDisabled;
    }
    h := Health(
      status, |peers|, active, planned, degraded, |routes|, privateRoutes, localRoutes, verified, degradedRoutes,
      blocked);
  }

  /** Writes one synced route through to the dependencies that it serves. */
  method WriteThrough(cache: map<string, ServiceRecord>, route: Route) returns (r: map<string, ServiceRecord>)
    ensures r == SyncedCache(cache, [route])
  {
    OneRoute(route);
    if route.origin.service !in cache {
      assert SyncedCache(cache, [route]) == cache by {
        forall s | s in cache ensures SyncedCache(cache, [route])[s] == cache[s] {
          assert SyncedCache(cache, [route])[s].dependencies == cache[s].dependencies;
        }
      }
      return cache;
    }
    var service := route.origin.service;
    var deps := cache[service].dependencies;
    for i := 0 to |deps|
      invariant |deps| == |cache[service].dependencies|
      invariant forall k :: 0 <= k < i ==> deps[k] == SyncedDependency(cache[service].dependencies[k], service, [route])
      invariant forall k :: i <= k < |deps| ==> deps[k] == cache[service].dependencies[k]
    {
      if deps[i].alias == route.origin.dependency.alias && deps[i].target == route.origin.dependency.target {
        deps := deps[i := deps[i].(scope := route.kind)];
        deps := deps[i := deps[i].(status := route.status)];
        deps := deps[i := deps[i].(provider := route.provider)];
        deps := deps[i := deps[i].(privateOnly := route.privateOnly)];
        deps := deps[i := deps[i].(fallbackBlocked := route.fallbackBlocked)];
      }
    }
    r := cache[service := cache[service].(dependencies := deps)];
    forall s | s in cache ensures SyncedCache(cache, [route])[s] == r[s] {
      assert SyncedCache(cache, [route])[s].dependencies == r[s].dependencies;
    }
  }

  lemma OneRoute(route: Route)
    ensures forall service, alias, target {:trigger LastServing([route], service, alias, target)} ::
              LastServing([route], service, alias, target)
                == if route.Serves(service, alias, target) then Some(route) else None
  {
  }

  /** Writing routes through one after the other gives what writing the whole list gives. */
  lemma WriteThroughAppends(cache: map<string, ServiceRecord>, routes: seq<Route>, route: Route)
    ensures SyncedCache(SyncedCache(cache, routes), [route]) == SyncedCache(cache, routes + [route])
  {
    OneRoute(route);
    assert (routes + [route])[..|routes|] == routes;
    var before, after := SyncedCache(cache, routes), SyncedCache(cache, routes + [route]);
    forall s | s in cache ensures SyncedCache(before, [route])[s] == after[s] {
      forall i | 0 <= i < |cache[s].dependencies|
        ensures SyncedCache(before, [route])[s].dependencies[i] == after[s].dependencies[i]
      {
        assert before[s].dependencies[i] == SyncedDependency(cache[s].dependencies[i], s, routes);
      }
      assert SyncedCache(before, [route])[s].dependencies == after[s].dependencies;
    }
  }

  /** A link's status after one more route on it: blocked beats degraded, degraded beats the rest. */
  function Worsened(was: RouteStatus, added: RouteStatus): RouteStatus {
    match added
    case Blocked | Unavailable => Unavailable
    case RouteDegraded => if was == Unavailable then Unavailable else RouteDegraded
    case Verified | LocalVerified | RouteActive | RoutePlanned => was
  }

  /** Counts one more private route on a link and lets its status worsen the link's. */
  method MergeStatus(was: LinkHealth, status: RouteStatus) returns (link: LinkHealth)
    ensures link.provider == was.provider && link.privateOnly && link.routeCount == was.routeCount + 1
    ensures link.status == Worsened(was.status, status)
    ensures (was.status == Verified || !was.verified) ==> (link.verified <==> link.status == Verified)
  {
    link := was.(routeCount := was.routeCount + 1, privateOnly := true);
    match status {
      case Blocked | Unavailable =>
        link := link.(status := Unavailable, verified := false);
      case RouteDegraded =>
        if link.status != Unavailable {
          link := link.(status := RouteDegraded, verified := false);
        }
      case Verified | LocalVerified | RouteActive | RoutePlanned =>
        if link.status == Verified {
          link := link.(verified := true);
        }
    }
  }

  /** Folds one private route into the record of its link, creating the record if it is the first. */
  method MergeLink(links: map<string, LinkHealth>, route: Route, provider: Provider, ghost routes: seq<Route>)
      returns (r: map<string, LinkHealth>)
    requires links == LinksOf(routes, provider) && route.kind == MeshPrivate
    ensures r == LinksOf(routes + [route], provider)
  {
    var key := route.LinkKey();
    LinksOfAppend(routes, route, provider);
    var link := if key in links then links[key] else LinkHealth(provider, Verified, false, false, 0);
    assert link.status == JoinedStatus(routes, key) && link.routeCount == CountOnLink(routes, key);
    assert link.status == Verified || !link.verified;
    link := MergeStatus(link, route.status);
    r := links[key := link];
    LinkAppended(links, r, route, provider, routes);
  }

  lemma LinkAppended(
    links: map<string, LinkHealth>, r: map<string, LinkHealth>, route: Route, provider: Provider, routes: seq<Route>)
    requires links == LinksOf(routes, provider) && route.kind == MeshPrivate
    requires var key := route.LinkKey();
             key in r && r == links[key := r[key]]
             && r[key].provider == provider && r[key].privateOnly && r[key].routeCount == CountOnLink(routes, key) + 1
             && (r[key].verified <==> r[key].status == Verified)
             && r[key].status == Worsened(JoinedStatus(routes, key), route.status)
    ensures r == LinksOf(routes + [route], provider)
  {
    LinksOfAppend(routes, route, provider);
    OwnLinkGrows(routes, route, provider);
    SameLinks(links, r, LinksOf(routes + [route], provider), route.LinkKey());
  }

  lemma SameLinks(
    links: map<string, LinkHealth>, r: map<string, LinkHealth>, grown: map<string, LinkHealth>, key: string)
    requires grown.Keys == links.Keys + {key}
    requires forall other :: other in links && other != key ==> grown[other] == links[other]
    requires key in r && r == links[key := r[key]] && r[key] == grown[key]
    ensures r == grown
  {
    assert r.Keys == grown.Keys;
    forall other | other in r ensures r[other] == grown[other] {
    }
  }

  lemma OwnLinkGrows(routes: seq<Route>, route: Route, provider: Provider)
    requires route.kind == MeshPrivate
    ensures var key, grown := route.LinkKey(), LinksOf(routes + [route], provider);
            && key in grown && grown[key].provider == provider && grown[key].privateOnly
            && grown[key].status == JoinedStatus(routes + [route], key)
            && (grown[key].verified <==> grown[key].status == Verified)
            && grown[key].routeCount == CountOnLink(routes, key) + 1
            && grown[key].status == Worsened(JoinedStatus(routes, key), route.status)
  {
    LinksOfAppend(routes, route, provider);
    JoinAppend(routes, route, route.LinkKey());
  }

  lemma KeysAppend(routes: seq<Route>, route: Route)
    ensures LinkKeys(routes + [route]) == LinkKeys(routes) + if route.kind == MeshPrivate then {route.LinkKey()} else {}
  {
    var more := routes + [route];
    forall key ensures key in LinkKeys(more) <==> key in LinkKeys(routes) || OnLink(route, key) {
      if key in LinkKeys(routes) {
        var k :| 0 <= k < |routes| && routes[k].kind == MeshPrivate && routes[k].LinkKey() == key;
        assert more[k] == routes[k];
      }
      if OnLink(route, key) {
        assert more[|routes|].LinkKey() == key;
      }
    }
  }

  lemma JoinAppend(routes: seq<Route>, route: Route, key: string)
    ensures JoinedStatus(routes + [route], key) ==
              if OnLink(route, key) then Worsened(JoinedStatus(routes, key), route.status)
              else JoinedStatus(routes, key)
    ensures CountOnLink(routes + [route], key) == CountOnLink(routes, key) + if OnLink(route, key) then 1 else 0
  {
  }

  /** One more route leaves every link but its own as it was. */
  lemma LinksOfAppend(routes: seq<Route>, route: Route, provider: Provider)
    ensures var links, grown := LinksOf(routes, provider), LinksOf(routes + [route], provider);
            && grown.Keys == links.Keys + (if route.kind == MeshPrivate then {route.LinkKey()} else {})
            && (forall key :: key in links && !OnLink(route, key) ==> grown[key] == links[key])
    ensures route.kind == MeshPrivate && route.LinkKey() !in LinkKeys(routes) ==>
              JoinedStatus(routes, route.LinkKey()) == Verified && CountOnLink(routes, route.LinkKey()) == 0
  {
    KeysAppend(routes, route);
    forall key | key in LinkKeys(routes) && !OnLink(route, key)
      ensures LinksOf(routes + [route], provider)[key] == LinksOf(routes, provider)[key]
    {
      JoinAppend(routes, route, key);
    }
    if route.LinkKey() !in LinkKeys(routes) {
      NoLinkNoCount(routes, route.LinkKey());
    }
  }

  lemma {:induction false} NoLinkNoCount(routes: seq<Route>, key: string)
    requires forall k :: 0 <= k < |routes| ==> !OnLink(routes[k], key)
    ensures CountOnLink(routes, key) == 0
  {
    if routes != [] {
      NoLinkNoCount(routes[..|routes| - 1], key);
    }
  }

  method IndexByRef(peers: seq<Peer>) returns (index: map<string, Peer>)
    ensures index == IndexPeers(peers)
  {
    index := map[];
    for k := 0 to |peers|
      invariant index == IndexPeers(peers[..k])
    {
      assert peers[..k + 1][..k] == peers[..k];
      index := index[peers[k].ref := peers[k]];
    }
    assert peers[..|peers|] == peers;
  }

  lemma PlaceNext(t: Topology, service: Service, k: nat)
    requires k < |service.dependencies|
    ensures ServiceCached(t, service, k + 1)
         == ServiceCached(t, service, k) + [FirstCached(t, service, service.dependencies[k])]
    ensures ServiceRoutes(t, service, k + 1)
         == ServiceRoutes(t, service, k) + [FirstRoute(t, service, service.dependencies[k])]
  {
  }

  /** Registers the peers of one service and lists its dependencies, for the cache and as routes. */
  method PlaceService(known: seq<Peer>, t: Topology, service: Service)
      returns (peers: seq<Peer>, record: ServiceRecord, routes: seq<Route>)
    ensures peers == WithTargets(known, t, service, |service.dependencies|)
    ensures record == RecordOf(t, service) && routes == ServiceRoutes(t, service, |service.dependencies|)
  {
    var source := SourceOf(t, service);
    peers := WithPeer(known, source);
    var deps: seq<CachedDependency> := [];
    routes := [];
    for k := 0 to |service.dependencies|
      invariant peers == WithTargets(known, t, service, k)
      invariant deps == ServiceCached(t, service, k) && routes == ServiceRoutes(t, service, k)
    {
      var d := service.dependencies[k];
      PlaceNext(t, service, k);
      var target := TargetOf(t, d.target);
      var kind, status, privateOnly := LocalPath, RouteActive, false;
      if PeerRef(target) != PeerRef(source) {
        kind, status, privateOnly := MeshPrivate, RoutePlanned, true;
      }
      peers := WithPeer(peers, target);
      deps := deps + [CachedDependency(d.alias, d.target, kind, status, NoProvider, privateOnly, privateOnly)];
      var route := Route(
        Origin(service.name, d), PeerRef(source), PeerRef(target), kind, status, NoProvider, false, privateOnly,
        privateOnly);
      routes := routes + [route];
    }
    record := ServiceRecord(PeerRef(source), deps);
  }

  method PlaceServices(t: Topology) returns (peers: seq<Peer>, routes: seq<Route>, cache: map<string, ServiceRecord>)
    ensures peers == FirstPeers(t, |t.services|) && routes == FirstRoutes(t, |t.services|)
    ensures cache == FirstCache(t, |t.services|)
  {
    var local := LocalPlacement(t.binding);
    peers, routes, cache := [Peer(PeerRef(local), local, true, Active)], [], map[];
    for n := 0 to |t.services|
      invariant peers == FirstPeers(t, n) && cache == FirstCache(t, n) && routes == FirstRoutes(t, n)
    {
      var record, added;
      peers, record, added := PlaceService(peers, t, t.services[n]);
      routes := routes + added;
      cache := cache[t.services[n].name := record];
    }
  }

  method SyncRoute(index: map<string, Peer>, was: Route) returns (route: Route)
    ensures route == SyncedRoute(index, WireGuard, was)
  {
    route := was;
    if route.kind != MeshPrivate {
      route := route.(status := LocalVerified, verified := true, provider := NoProvider, fallbackBlocked := false);
      return;
    }
    route := route.(provider := WireGuard, privateOnly := true, fallbackBlocked := true, verified := false);
    var source, target := StateOf(index, route.sourcePeer), StateOf(index, route.targetPeer);
    if target == None || target == Some(Removed) || target == Some(Leaving) {
      route := route.(status := Blocked);
    } else if source == Some(Degraded) || target == Some(Degraded) {
      route := route.(status := RouteDegraded);
    } else if source == Some(Active) && target == Some(Active) {
      route := route.(status := Verified, verified := true);
    } else {
      route := route.(status := Blocked);
    }
  }

  /** Synchronises one route, writes it through to the cache and folds it into its link. */
  method SyncNext(
    index: map<string, Peer>, was: Route, cache: map<string, ServiceRecord>, links: map<string, LinkHealth>,
    ghost cached: map<string, ServiceRecord>, ghost done: seq<Route>)
      returns (route: Route, cache': map<string, ServiceRecord>, links': map<string, LinkHealth>)
    requires cache == SyncedCache(cached, done) && links == LinksOf(done, WireGuard)
    ensures route == SyncedRoute(index, WireGuard, was)
    ensures cache' == SyncedCache(cached, done + [route]) && links' == LinksOf(done + [route], WireGuard)
  {
    route := SyncRoute(index, was);
    links' := links;
    if route.kind == MeshPrivate {
      links' := MergeLink(links, route, WireGuard, done);
    } else {
      LinksOfAppend(done, route, WireGuard);
      assert links'.Keys == LinksOf(done + [route], WireGuard).Keys;
    }
    WriteThroughAppends(cached, done, route);
    cache' := WriteThrough(cache, route);
  }

  /** Rewrites the route table in place, route by route. */
  method SyncTable(index: map<string, Peer>, was: seq<Route>, cached: map<string, ServiceRecord>)
      returns (routes: seq<Route>, cache: map<string, ServiceRecord>, links: map<string, LinkHealth>)
    ensures routes == SyncedRoutes(index, WireGuard, was)
    ensures cache == SyncedCache(cached, routes) && links == LinksOf(routes, WireGuard)
  {
    routes, cache, links := was, cached, map[];
    NoRoutes(cache);
    for k := 0 to |routes|
      invariant |routes| == |was|
      invariant forall i :: 0 <= i < k ==> routes[i] == SyncedRoute(index, WireGuard, was[i])
      invariant forall i :: k <= i < |was| ==> routes[i] == was[i]
      invariant cache == SyncedCache(cached, routes[..k]) && links == LinksOf(routes[..k], WireGuard)
    {
      ghost var done := routes[..k];
      var route;
      route, cache, links := SyncNext(index, routes[k], cache, links, cached, done);
      routes := routes[k := route];
      assert routes[..k + 1] == done + [route];
    }
    assert routes == SyncedRoutes(index, WireGuard, was) && routes[..|routes|] == routes;
  }

  /** The peers that match a filter, ensured one after the other until one fails. */
  method EnsureAll(before: seq<Peer>, filter: PeerFilter, desired: PeerState, broken: set<string>)
      returns (peers: seq<Peer>, failed: bool)
    ensures failed <==> AnyBroken(before, filter, broken)
    ensures !failed ==> peers == EnsuredPeers(before, filter, desired)
  {
    peers, failed := before, false;
    for k := 0 to |peers|
      invariant |peers| == |before|
      invariant forall i :: 0 <= i < k ==> peers[i] == EnsuredPeers(before, filter, desired)[i]
      invariant forall i :: k <= i < |peers| ==> peers[i] == before[i]
      invariant forall i :: 0 <= i < k ==> !(filter.Matches(before[i]) && before[i].ref in broken)
    {
      if !filter.Matches(peers[k]) {
        continue;
      }
      if desired == Leaving || desired == Removed {
        peers := peers[k := peers[k].(state := Leaving)];
        if peers[k].ref in broken {
          assert before[k].ref in broken;
          return peers, true;
        }
        peers := peers[k := peers[k].(state := Removed)];
      } else {
        peers := peers[k := peers[k].(state := Joining)];
        if peers[k].ref in broken {
          assert before[k].ref in broken;
          return peers, true;
        }
        peers := peers[k := peers[k].(state := Active)];
      }
    }
    assert peers == EnsuredPeers(before, filter, desired);
  }

  class Manager {
    var live: Option<Live>
    var cache: Option<CacheFile>
    var report: Option<seq<Route>>
    var links: Option<map<string, LinkHealth>>

    ghost function View(): State
      reads this
    {
      State(live, cache, report, links)
    }

    constructor ()
      ensures View() == NOTHING
    {
      live, cache, report, links := None, None, None, None;
    }

    method BuildFoundation(t: Topology, meshMode: bool, written: nat) returns (outcome: Outcome)
      modifies this
      ensures Reply(View(), outcome) == Step(old(View()), Command.BuildFoundation(t, meshMode, written))
    {
      if !meshMode {
        return Done;
      }
      var peers, routes, services := PlaceServices(t);
      var health := SummarizeHealth(peers, routes);
      if written < 3 {
        return Refused(WriteFailed);
      }
      live := Some(Live(peers, routes, health));
      if written < 4 {
        return Refused(WriteFailed);
      }
      cache := Some(CacheFile(services, FingerprintOf(routes), t.placementFingerprint));
      return Done;
    }

    method EnsurePeer(
      meshMode: bool, provider: Provider, filter: PeerFilter, desired: Option<PeerState>, broken: set<string>,
      written: nat)
        returns (outcome: Outcome)
      modifies this
      ensures Reply(View(), outcome)
           == Step(old(View()), Command.EnsurePeer(meshMode, provider, filter, desired, broken, written))
    {
      if !meshMode {
        return Refused(ModeDisabled);
      }
      if provider != NoProvider && provider != WireGuard {
        return Refused(ProviderUnsupported);
      }
      if live.None? {
        return Refused(LiveStateMissing);
      }
      if cache.None? {
        return Refused(CacheMissing);
      }
      if desired.None? {
        return Refused(InvalidState);
      }
      var peers, failed := EnsureAll(live.value.peers, filter, desired.value, broken);
      if failed {
        return Refused(PeerFailed);
      }
      var health := SummarizeHealth(peers, live.value.routes);
      if written < 1 {
        return Refused(WriteFailed);
      }
      live := Some(live.value.(peers := peers, health := health));
      if written < 4 {
        return Refused(WriteFailed);
      }
      return Done;
    }

    method SyncOverlayRoutes(meshMode: bool, provider: Provider, written: nat) returns (outcome: Outcome)
      modifies this
      ensures Reply(View(), outcome) == Step(old(View()), SyncRoutes(meshMode, provider, written))
    {
      if !meshMode {
        return Refused(ModeDisabled);
      }
      if provider == Tailscale {
        return Refused(ProviderReserved);
      }
      if provider != NoProvider && provider != WireGuard {
        return Refused(ProviderUnsupported);
      }
      if live.None? {
        return Refused(LiveStateMissing);
      }
      if cache.None? {
        return Refused(CacheMissing);
      }
      var loaded := live.value;
      var index := IndexByRef(loaded.peers);
      var routes, services, table := SyncTable(index, loaded.routes, cache.value.services);
      var health := SummarizeHealth(loaded.peers, routes);
      if written < 1 {
        return Refused(WriteFailed);
      }
      live := Some(loaded.(routes := routes, health := health));
      if written < 2 {
        return Refused(WriteFailed);
      }
      cache := Some(cache.value.(services := services, fingerprint := FingerprintOf(routes)));
      if written < 3 {
        return Refused(WriteFailed);
      }
      report := Some(routes);
      if written < 4 {
        return Refused(WriteFailed);
      }
      links := Some(table);
      outcome := if written < 8 then Refused(WriteFailed) else Done;
    }
  }

  lemma NoRoutes(cache: map<string, ServiceRecord>)
    ensures SyncedCache(cache, []) == cache
  {
    forall s | s in cache ensures SyncedCache(cache, [])[s] == cache[s] {
      assert SyncedCache(cache, [])[s].dependencies == cache[s].dependencies;
    }
  }
}
