/** What a route synchronisation establishes: idempotence, link health as a join, and counts that add up. */
module MeshHealth {
  import opened Digests
  import opened Mesh
  import opened MeshFingerprints
  import opened MeshLaws

  // ---------------------------------------------------------------- idempotence

  lemma SyncedTwice(index: map<string, Peer>, provider: Provider, routes: seq<Route>)
    ensures var once := SyncedRoutes(index, provider, routes);
            SyncedRoutes(index, provider, once) == once
  {
  }

  lemma CachedTwice(cache: map<string, ServiceRecord>, routes: seq<Route>)
    ensures SyncedCache(SyncedCache(cache, routes), routes) == SyncedCache(cache, routes)
  {
    var once := SyncedCache(cache, routes);
    var twice := SyncedCache(once, routes);
    forall s | s in cache ensures twice[s] == once[s] {
      forall i | 0 <= i < |cache[s].dependencies| ensures twice[s].dependencies[i] == once[s].dependencies[i] {
        assert once[s].dependencies[i] == SyncedDependency(cache[s].dependencies[i], s, routes);
      }
      assert twice[s].dependencies == once[s].dependencies;
    }
  }

  /** With the peers left alone, synchronising again changes nothing. */
  lemma SyncIsIdempotent(s: State, c: Command)
    requires c.SyncRoutes? && Step(s, c).outcome == Done
    ensures Step(Step(s, c).state, c) == Step(s, c)
  {
    var live := s.live.value;
    var index := IndexPeers(live.peers);
    SyncedTwice(index, WireGuard, live.routes);
    CachedTwice(s.cache.value.services, SyncedRoutes(index, WireGuard, live.routes));
  }

  // ---------------------------------------------------------------- statuses after a sync

  /** In every reachable state both ends of a route are listed, and a sync finds a private route verified or blocked. */
  lemma SyncFindsBothEnds(live: Live, k: nat)
    requires LiveInv(live) && k < |live.routes|
    ensures var index, route := IndexPeers(live.peers), live.routes[k];
            && route.sourcePeer in index && route.targetPeer in index
            && (route.kind == MeshPrivate ==>
                  Synced(live).routes[k].status ==
                    if index[route.sourcePeer].state == Active && index[route.targetPeer].state == Active
                    then Verified else Blocked)
  {
    var index, route := IndexPeers(live.peers), live.routes[k];
    IndexedExactly(live.peers, route.sourcePeer);
    IndexedExactly(live.peers, route.targetPeer);
    var i :| 0 <= i < |live.peers| && live.peers[i] == index[route.sourcePeer];
    var j :| 0 <= j < |live.peers| && live.peers[j] == index[route.targetPeer];
  }

  predicate Classified(routes: seq<Route>) {
    forall k :: 0 <= k < |routes| ==> routes[k].status != RoutePlanned
  }

  lemma SyncClassifies(index: map<string, Peer>, provider: Provider, routes: seq<Route>)
    ensures Classified(SyncedRoutes(index, provider, routes))
  {
  }

  lemma {:induction false} ClassesPartition(routes: seq<Route>)
    requires Classified(routes)
    ensures CountClass(routes, ClassVerified) + CountClass(routes, ClassDegraded) + CountClass(routes, ClassBlocked)
         == |routes|
  {
    if routes != [] {
      ClassesPartition(routes[..|routes| - 1]);
    }
  }

  lemma {:induction false} ClassCountZero(routes: seq<Route>, c: RouteClass)
    ensures CountClass(routes, c) == 0 <==> forall k :: 0 <= k < |routes| ==> ClassOf(routes[k].status) != c
  {
    if routes != [] {
      var n := |routes| - 1;
      ClassCountZero(routes[..n], c);
      assert forall k :: 0 <= k < n ==> routes[..n][k] == routes[k];
    }
  }

  lemma {:induction false} AllPeersActive(peers: seq<Peer>)
    ensures CountPeers(peers, Active) <= |peers|
    ensures CountPeers(peers, Active) == |peers| <==> forall k :: 0 <= k < |peers| ==> peers[k].state == Active
  {
    if peers != [] {
      var n := |peers| - 1;
      AllPeersActive(peers[..n]);
      assert forall k :: 0 <= k < n ==> peers[..n][k] == peers[k];
    }
  }

  /** After a sync the counts add up, and the mesh is active iff it has peers, all active, and every route verified. */
  lemma HealthAfterSync(live: Live)
    ensures var synced := Synced(live);
            var h := synced.health;
            && h.verifiedRoutes + h.degradedRoutes + h.blockedRoutes == h.totalRoutes == |live.routes|
            && (h.status == HealthActive <==>
                  && live.peers != []
                  && (forall k :: 0 <= k < |live.peers| ==> live.peers[k].state == Active)
                  && (forall k :: 0 <= k < |synced.routes| ==> synced.routes[k].verified))
  {
    var routes := Synced(live).routes;
    SyncClassifies(IndexPeers(live.peers), WireGuard, live.routes);
    ClassesPartition(routes);
    ClassCountZero(routes, ClassDegraded);
    ClassCountZero(routes, ClassBlocked);
    AllPeersActive(live.peers);
    CountsFit(live.peers, routes);
    forall k | 0 <= k < |routes|
      ensures routes[k].verified <==> ClassOf(routes[k].status) !in {ClassDegraded, ClassBlocked}
    {
    }
  }

  // ---------------------------------------------------------------- links

  /** The health of a link is the join of its routes and nothing else decides it. */
  lemma LinkHealthIsTheJoin(routes: seq<Route>, provider: Provider, key: string)
    requires key in LinksOf(routes, provider)
    ensures var link := LinksOf(routes, provider)[key];
            && (link.status == Unavailable <==> LinkHas(routes, key, Blocked) || LinkHas(routes, key, Unavailable))
            && (link.status == RouteDegraded <==>
                  && LinkHas(routes, key, RouteDegraded)
                  && !LinkHas(routes, key, Blocked) && !LinkHas(routes, key, Unavailable))
            && (link.verified <==> forall k :: 0 <= k < |routes| && OnLink(routes[k], key) ==>
                  routes[k].status !in {Blocked, Unavailable, RouteDegraded})
            && link.routeCount >= 1
  {
    var k :| 0 <= k < |routes| && routes[k].kind == MeshPrivate && routes[k].LinkKey() == key;
    CountPositive(routes, key, k);
  }

  lemma {:induction false} CountPositive(routes: seq<Route>, key: string, k: nat)
    requires k < |routes| && OnLink(routes[k], key)
    ensures CountOnLink(routes, key) >= 1
  {
    if k < |routes| - 1 {
      CountPositive(routes[..|routes| - 1], key, k);
    }
  }

  lemma {:induction false} CountConcat(a: seq<Route>, b: seq<Route>, key: string)
    ensures CountOnLink(a + b, key) == CountOnLink(a, key) + CountOnLink(b, key)
    decreases |b|
  {
    if b == [] {
      assert a + b == a;
    } else {
      var n := |b| - 1;
      assert (a + b)[..|a + b| - 1] == a + b[..n];
      CountConcat(a, b[..n], key);
    }
  }

  lemma CountWithoutOne(b: seq<Route>, k: nat, key: string)
    requires k < |b|
    ensures CountOnLink(b, key) == CountOnLink(Without(b, k), key) + if OnLink(b[k], key) then 1 else 0
  {
    var head, one, tail := b[..k], [b[k]], b[k + 1..];
    assert b == head + (one + tail) && one[..0] == [];
    CountConcat(head, one + tail, key);
    CountConcat(one, tail, key);
    CountConcat(head, tail, key);
  }

  lemma {:induction false} CountIgnoresOrder(a: seq<Route>, b: seq<Route>, key: string)
    requires multiset(a) == multiset(b)
    ensures CountOnLink(a, key) == CountOnLink(b, key)
    decreases |a|
  {
    if a == [] {
      assert |multiset(b)| == |b|;
    } else {
      var k := Remove(a, b);
      CountIgnoresOrder(a[..|a| - 1], Without(b, k), key);
      CountWithoutOne(b, k, key);
    }
  }

  /** Fingerprints and link counts do not depend on the order of the routes. */
  lemma OrderDoesNotMatter(a: seq<Route>, b: seq<Route>, key: string)
    requires multiset(a) == multiset(b)
    ensures FingerprintOf(a) == FingerprintOf(b) && CountOnLink(a, key) == CountOnLink(b, key)
  {
    FingerprintIgnoresOrder(a, b);
    CountIgnoresOrder(a, b, key);
  }

  /** So link health as a whole is the same for every order of the route table. */
  lemma LinksIgnoreOrder(a: seq<Route>, b: seq<Route>, provider: Provider)
    requires multiset(a) == multiset(b)
    ensures LinksOf(a, provider) == LinksOf(b, provider)
  {
    SameMembers(a, b);
    SameMembers(b, a);
    assert LinkKeys(a) == LinkKeys(b) by {
      forall key ensures key in LinkKeys(a) <==> key in LinkKeys(b) {
        KeyIsShared(a, b, key);
        KeyIsShared(b, a, key);
      }
    }
    forall key | key in LinkKeys(a) ensures LinksOf(a, provider)[key] == LinksOf(b, provider)[key] {
      OrderDoesNotMatter(a, b, key);
      forall status ensures LinkHas(a, key, status) == LinkHas(b, key, status) {
        HasIsShared(a, b, key, status);
        HasIsShared(b, a, key, status);
      }
    }
  }

  lemma SameMembers(a: seq<Route>, b: seq<Route>)
    requires multiset(a) == multiset(b)
    ensures forall route :: route in a ==> route in b
  {
    forall route | route in a ensures route in b {
      assert route in multiset(a);
    }
  }

  lemma KeyIsShared(a: seq<Route>, b: seq<Route>, key: string)
    requires forall route :: route in a ==> route in b
    ensures key in LinkKeys(a) ==> key in LinkKeys(b)
  {
    if key in LinkKeys(a) {
      var k :| 0 <= k < |a| && a[k].kind == MeshPrivate && a[k].LinkKey() == key;
      assert a[k] in b;
    }
  }

  lemma HasIsShared(a: seq<Route>, b: seq<Route>, key: string, status: RouteStatus)
    requires forall route :: route in a ==> route in b
    ensures LinkHas(a, key, status) ==> LinkHas(b, key, status)
  {
    if LinkHas(a, key, status) {
      var k :| 0 <= k < |a| && OnLink(a[k], key) && a[k].status == status;
      assert a[k] in b;
    }
  }

  /** The route counts of all links together. */
  ghost function TotalCount(links: map<string, LinkHealth>): nat {
    if links == map[] then 0
    else
      var key :| key in links;
      links[key].routeCount + TotalCount(links - {key})
  }

  lemma {:induction false} TotalWithout(links: map<string, LinkHealth>, key: string)
    requires key in links
    ensures TotalCount(links) == links[key].routeCount + TotalCount(links - {key})
    decreases |links|
  {
    var first :| first in links && TotalCount(links) == links[first].routeCount + TotalCount(links - {first});
    if first != key {
      var rest := links - {first};
      TotalWithout(rest, key);
      TotalWithout(links - {key}, first);
      assert rest - {key} == (links - {key}) - {first};
    }
  }

  lemma {:induction false} TotalByCounts(a: map<string, LinkHealth>, b: map<string, LinkHealth>)
    requires a.Keys == b.Keys && forall key :: key in a ==> a[key].routeCount == b[key].routeCount
    ensures TotalCount(a) == TotalCount(b)
    decreases |a|
  {
    if a != map[] {
      var key :| key in a;
      TotalWithout(a, key);
      TotalWithout(b, key);
      TotalByCounts(a - {key}, b - {key});
    } else {
      assert b.Keys == {};
      assert b == map[];
    }
  }

  /** What one more route does to the link table: only its own link's count moves. */
  lemma LinksGrow(routes: seq<Route>, provider: Provider)
    requires routes != []
    ensures var n := |routes| - 1;
            var links, grown := LinksOf(routes[..n], provider), LinksOf(routes, provider);
            && grown.Keys == links.Keys + (if routes[n].kind == MeshPrivate then {routes[n].LinkKey()} else {})
            && (forall key :: key in links ==>
                  grown[key].routeCount == links[key].routeCount + if OnLink(routes[n], key) then 1 else 0)
            && (routes[n].kind == MeshPrivate && routes[n].LinkKey() !in links ==>
                  grown[routes[n].LinkKey()].routeCount == 1)
  {
    KeysGrow(routes);
    var n := |routes| - 1;
    if routes[n].kind == MeshPrivate && routes[n].LinkKey() !in LinkKeys(routes[..n]) {
      NoKeyNoCount(routes[..n], routes[n].LinkKey());
    }
  }

  /** No route is counted twice or lost: link route counts sum to the number of private routes. */
  lemma {:induction false} LinkCountsSumToPrivateRoutes(routes: seq<Route>, provider: Provider)
    ensures TotalCount(LinksOf(routes, provider)) == CountPrivate(routes)
  {
    if routes == [] {
      assert LinksOf(routes, provider) == map[];
    } else {
      var n := |routes| - 1;
      var links, grown := LinksOf(routes[..n], provider), LinksOf(routes, provider);
      LinkCountsSumToPrivateRoutes(routes[..n], provider);
      LinksGrow(routes, provider);
      TotalGrows(links, grown, routes[n]);
    }
  }

  lemma OneLinkGrows(links: map<string, LinkHealth>, grown: map<string, LinkHealth>, key: string)
    requires grown.Keys == links.Keys + {key}
    requires forall other :: other in links && other != key ==> grown[other].routeCount == links[other].routeCount
    requires grown[key].routeCount == if key in links then links[key].routeCount + 1 else 1
    ensures TotalCount(grown) == TotalCount(links) + 1
  {
    TotalWithout(grown, key);
    TotalByCounts(grown - {key}, links - {key});
    if key in links {
      TotalWithout(links, key);
    } else {
      assert links - {key} == links;
    }
  }

  lemma TotalGrows(links: map<string, LinkHealth>, grown: map<string, LinkHealth>, last: Route)
    requires grown.Keys == links.Keys + if last.kind == MeshPrivate then {last.LinkKey()} else {}
    requires forall key :: key in links ==>
               grown[key].routeCount == links[key].routeCount + if OnLink(last, key) then 1 else 0
    requires last.kind == MeshPrivate && last.LinkKey() !in links ==> grown[last.LinkKey()].routeCount == 1
    ensures TotalCount(grown) == TotalCount(links) + if last.kind == MeshPrivate then 1 else 0
  {
    if last.kind == MeshPrivate {
      OneLinkGrows(links, grown, last.LinkKey());
    } else {
      TotalByCounts(grown, links);
    }
  }

  lemma KeysGrow(routes: seq<Route>)
    requires routes != []
    ensures var n := |routes| - 1;
            LinkKeys(routes)
              == LinkKeys(routes[..n]) + if routes[n].kind == MeshPrivate then {routes[n].LinkKey()} else {}
  {
  }

  lemma {:induction false} NoKeyNoCount(routes: seq<Route>, key: string)
    requires key !in LinkKeys(routes)
    ensures CountOnLink(routes, key) == 0
  {
    if routes != [] {
      KeysGrow(routes);
      NoKeyNoCount(routes[..|routes| - 1], key);
    }
  }
}
