/** What the resolver answers, said of the files it reads, and what its reasons mean over whole runs. */
module MeshAnswers {
  import opened Text
  import opened Mesh
  import opened MeshLaws
  import opened MeshResolution
  import opened MeshEffects

  // ---------------------------------------------------------------- the answer

  /** A dependency on the service's own peer is verified local, whatever the files say, and never doubted. */
  lemma SamePeerIsLocal(
    s: State, t: Topology, service: Service, d: Dependency, source: Placement, target: Placement, ref: string)
    requires PlacedAt(t, service.name, service.placement, source)
    requires PlacedAt(t, d.target, DeclaredPlacement(t.services, d.target), target)
    requires Named(source, ref) && Named(target, ref)
    ensures var r := Resolve(s, t, service, d);
            && r.scope == LocalPath && r.status == LocalVerified && r.provider == NoProvider
            && !r.fallbackBlocked && r.reasons == []
  {
    RefsAreNamed(source);
    RefsAreNamed(target);
  }

  /** Crossing is having ends with different names. */
  lemma CrossesExactlyWhen(
    t: Topology, service: Service, d: Dependency, source: Placement, target: Placement, from: string, to: string)
    requires PlacedAt(t, service.name, service.placement, source) && Named(source, from)
    requires PlacedAt(t, d.target, DeclaredPlacement(t.services, d.target), target) && Named(target, to)
    ensures Crosses(t, service, d) <==> from != to
  {
    RefsAreNamed(source);
    RefsAreNamed(target);
  }

  /** No route of the report, or of the table if there is no report, has the dependency's key. */
  predicate NoRouteKnown(s: State, key: string) {
    && (s.report.Some? ==> forall route :: route in s.report.value ==> route.Key() != key)
    && (s.report.None? && s.live.Some? ==> forall route :: route in s.live.value.routes ==> route.Key() != key)
  }

  /** The last route with the key, in the report or, if there is no report, in the table. */
  predicate RouteKnown(s: State, key: string, route: Route) {
    if s.report.Some? then LastIn(s.report.value, key, route)
    else s.live.Some? && LastIn(s.live.value.routes, key, route)
  }

  predicate LastIn(routes: seq<Route>, key: string, route: Route) {
    exists k :: 0 <= k < |routes| && IsLast(routes, k, key) && routes[k] == route
  }

  predicate IsLast(routes: seq<Route>, k: nat, key: string) {
    k < |routes| && routes[k].Key() == key && forall j :: k < j < |routes| ==> routes[j].Key() != key
  }

  lemma LastInPrefix(routes: seq<Route>, n: nat, k: nat, key: string)
    requires IsLast(routes, k, key) && k < n <= |routes|
    ensures IsLast(routes[..n], k, key)
  {
  }

  lemma {:induction false} LastIsFound(routes: seq<Route>, k: nat, key: string)
    requires IsLast(routes, k, key)
    ensures LastWithKey(routes, key) == Some(routes[k])
    decreases |routes|
  {
    var n := |routes| - 1;
    if k < n {
      LastInPrefix(routes, n, k, key);
      LastIsFound(routes[..n], k, key);
    }
  }

  /** The first entry that the cache has for the dependency. */
  predicate CachedFirst(s: State, service: string, d: Dependency, k: nat) {
    && s.cache.Some? && service in s.cache.value.services
    && IsFirst(s.cache.value.services[service].dependencies, k, d.alias, d.target)
  }

  predicate IsFirst(deps: seq<CachedDependency>, k: nat, alias: string, target: string) {
    && k < |deps| && deps[k].alias == alias && deps[k].target == target
    && forall j :: 0 <= j < k ==> deps[j].alias != alias || deps[j].target != target
  }

  lemma {:induction false} FirstIsFound(deps: seq<CachedDependency>, k: nat, alias: string, target: string)
    requires IsFirst(deps, k, alias, target)
    ensures FirstCachedFor(deps, alias, target) == Some(deps[k])
  {
    if k > 0 {
      assert IsFirst(deps[1..], k - 1, alias, target) by {
        assert forall j :: 0 <= j < |deps| - 1 ==> deps[1..][j] == deps[j + 1];
      }
      assert deps[0].alias != alias || deps[0].target != target;
      FirstIsFound(deps[1..], k - 1, alias, target);
    }
  }

  predicate NothingCached(s: State, service: string, d: Dependency) {
    s.cache.Some? && service in s.cache.value.services ==>
      forall entry :: entry in s.cache.value.services[service].dependencies ==>
        entry.alias != d.alias || entry.target != d.target
  }

  /** A crossing dependency with a known route takes path, status and provider from it. */
  lemma CrossingFollowsItsRoute(s: State, t: Topology, service: Service, d: Dependency, route: Route)
    requires Crosses(t, service, d) && RouteKnown(s, KeyOf(Origin(service.name, d)), route)
    ensures var r := Resolve(s, t, service, d);
            && r.scope == route.kind && r.status == route.status && r.fallbackBlocked
            && r.provider == if route.provider == NoProvider then WireGuard else route.provider
  {
    var key := KeyOf(Origin(service.name, d));
    var routes := if s.report.Some? then s.report.value else s.live.value.routes;
    var k :| 0 <= k < |routes| && IsLast(routes, k, key) && routes[k] == route;
    LastIsFound(routes, k, key);
  }

  /** Without a route it takes them from the cache. */
  lemma CrossingFollowsTheCache(s: State, t: Topology, service: Service, d: Dependency, k: nat)
    requires Crosses(t, service, d) && NoRouteKnown(s, KeyOf(Origin(service.name, d)))
    requires CachedFirst(s, service.name, d, k)
    ensures var r, entry := Resolve(s, t, service, d), s.cache.value.services[service.name].dependencies[k];
            && r.scope == entry.scope && r.status == entry.status && r.fallbackBlocked
            && r.provider == if entry.provider == NoProvider then WireGuard else entry.provider
  {
    FirstIsFound(s.cache.value.services[service.name].dependencies, k, d.alias, d.target);
  }

  /** With neither it waits on a private path for a synchronisation. */
  lemma CrossingWaits(s: State, t: Topology, service: Service, d: Dependency)
    requires Crosses(t, service, d) && NoRouteKnown(s, KeyOf(Origin(service.name, d)))
    requires NothingCached(s, service.name, d)
    ensures var r := Resolve(s, t, service, d);
            && r.scope == MeshPrivate && r.status == RoutePlanned && r.provider == WireGuard && r.fallbackBlocked
  {
  }

  // ---------------------------------------------------------------- the reasons

  /** Whether the files bear out a reason to doubt a private path of that status to the peer named `to`. */
  predicate BornOut(s: State, t: Topology, target: string, to: string, status: RouteStatus, reason: Reason) {
    match reason
    case CacheMissing => s.cache.None?
    case PlacementChanged => s.cache.Some? && s.cache.value.placement !in {"", t.placementFingerprint}
    case TargetRelocated =>
      s.cache.Some? && target in s.cache.value.services
      && s.cache.value.services[target].placementPeer !in {"", to}
    case OverlayChanged =>
      s.cache.Some? && s.report.Some? && s.cache.value.fingerprint != ""
      && FingerprintOf(s.report.value) !in {"", s.cache.value.fingerprint}
    case SyncPending => s.report.None?
    case PeerHealthChanged => status in {RoutePlanned, RouteDegraded, Blocked}
    case MeshDegraded => s.live.Some? && s.live.value.health.status == HealthDegraded
  }

  lemma InWhen(condition: bool, r: Reason, reason: Reason)
    ensures reason in When(condition, r) <==> condition && reason == r
  {
  }

  lemma InThree(a: seq<Reason>, b: seq<Reason>, c: seq<Reason>, reason: Reason)
    ensures reason in a + b + c <==> reason in a || reason in b || reason in c
  {
  }

  lemma ReasonsFromTheCache(s: State, t: Topology, target: string, to: string, reason: Reason)
    requires s.cache.Some?
    ensures var cache := s.cache.value;
            reason in CacheReasons(s, t, target, to) <==>
              || (reason == PlacementChanged && cache.placement != "" && cache.placement != t.placementFingerprint)
              || (reason == TargetRelocated && Relocated(cache.services, target, to))
              || (reason == OverlayChanged && OverlayDiffers(s))
  {
    var cache := s.cache.value;
    var changed := cache.placement != "" && cache.placement != t.placementFingerprint;
    InWhen(changed, PlacementChanged, reason);
    InWhen(Relocated(cache.services, target, to), TargetRelocated, reason);
    InWhen(OverlayDiffers(s), OverlayChanged, reason);
    InThree(When(changed, PlacementChanged), When(Relocated(cache.services, target, to), TargetRelocated),
            When(OverlayDiffers(s), OverlayChanged), reason);
  }

  lemma InLastThree(all: seq<Reason>, first: seq<Reason>, pending: bool, peers: bool, mesh: bool, reason: Reason)
    requires all == first + When(pending, SyncPending) + When(peers, PeerHealthChanged) + When(mesh, MeshDegraded)
    ensures reason in all <==>
              || reason in first || (reason == SyncPending && pending)
              || (reason == PeerHealthChanged && peers) || (reason == MeshDegraded && mesh)
  {
    InWhen(pending, SyncPending, reason);
    InWhen(peers, PeerHealthChanged, reason);
    InWhen(mesh, MeshDegraded, reason);
    InThree(first + When(pending, SyncPending), When(peers, PeerHealthChanged), When(mesh, MeshDegraded), reason);
  }

  lemma ReasonsAreBornOut(s: State, t: Topology, target: string, to: string, status: RouteStatus, reason: Reason)
    ensures reason in Reasons(s, t, target, to, status, true) <==> BornOut(s, t, target, to, status, reason)
  {
    InLastThree(
      Reasons(s, t, target, to, status, true), CacheReasons(s, t, target, to), s.report.None?,
      status in {RoutePlanned, RouteDegraded, Blocked},
      s.live.Some? && s.live.value.health.status == HealthDegraded, reason);
    if s.cache.Some? {
      ReasonsFromTheCache(s, t, target, to, reason);
    }
  }

  lemma ReasonsOfPath(s: State, t: Topology, service: Service, d: Dependency)
    ensures var r := Resolve(s, t, service, d);
            r.reasons == Reasons(s, t, d.target, PeerRef(TargetOf(t, d.target)), r.status, r.scope == MeshPrivate)
  {
  }

  /** On a private path each of the seven reasons is given exactly when the files bear it out; on a local one none. */
  lemma ReasonsExactlyWhen(
    s: State, t: Topology, service: Service, d: Dependency, target: Placement, to: string, reason: Reason)
    requires PlacedAt(t, d.target, DeclaredPlacement(t.services, d.target), target) && Named(target, to)
    ensures var r := Resolve(s, t, service, d);
            && (r.scope == LocalPath ==> r.reasons == [])
            && (r.scope == MeshPrivate ==> (reason in r.reasons <==> BornOut(s, t, d.target, to, r.status, reason)))
  {
    RefsAreNamed(target);
    ReasonsOfPath(s, t, service, d);
    ReasonsAreBornOut(s, t, d.target, to, Resolve(s, t, service, d).status, reason);
  }

  // ---------------------------------------------------------------- the cache and the routes

  /** In every undisturbed run a cached dependency says of its path what every route that serves it says. */
  lemma CacheSaysWhatTheRouteSays(cmds: seq<Command>, name: string, i: nat, k: nat)
    requires AdmissibleRun(cmds) && Undisturbed(cmds) && Run(cmds).cache.Some?
    requires var services := Run(cmds).cache.value.services;
             name in services && i < |services[name].dependencies|
    requires Run(cmds).live.Some? ==> k < |Run(cmds).live.value.routes|
    ensures Run(cmds).live.Some?
    ensures var entry, route := Run(cmds).cache.value.services[name].dependencies[i], Run(cmds).live.value.routes[k];
            && route.origin.service == name && route.origin.dependency.alias == entry.alias
            && route.origin.dependency.target == entry.target ==>
              && entry.scope == route.kind && entry.status == route.status && entry.provider == route.provider
              && entry.privateOnly == route.privateOnly && entry.fallbackBlocked == route.fallbackBlocked
  {
    UndisturbedStaysInStep(cmds);
    var entry, route := Run(cmds).cache.value.services[name].dependencies[i], Run(cmds).live.value.routes[k];
    assert CacheAgrees(Run(cmds).cache.value.services, Run(cmds).live.value.routes);
    if route.origin.service == name {
      assert route.origin.dependency.alias == entry.alias && route.origin.dependency.target == entry.target ==>
          route.Serves(name, entry.alias, entry.target);
    }
  }

  // ---------------------------------------------------------------- the reasons over runs

  /** The topology that the cache was last built from. */
  function CacheSource(cmds: seq<Command>): Option<Topology> {
    if cmds == [] then None
    else
      var c := cmds[|cmds| - 1];
      if c.BuildFoundation? && c.meshMode && c.written >= 4 then Some(c.topology) else CacheSource(cmds[..|cmds| - 1])
  }

  /** The cache lists the services of the topology and where each was placed. */
  ghost predicate CacheTellsOf(cache: CacheFile, t: Topology) {
    && cache.placement == t.placementFingerprint
    && (forall name :: name in cache.services <==> exists k :: 0 <= k < |t.services| && t.services[k].name == name)
    && (forall k :: 0 <= k < |t.services| ==>
          && t.services[k].name in cache.services
          && cache.services[t.services[k].name].placementPeer == PeerRef(SourceOf(t, t.services[k])))
  }

  lemma BuiltCacheTells(t: Topology)
    requires DistinctNames(t.services)
    ensures CacheTellsOf(FoundationCache(t), t)
  {
    var n := |t.services|;
    CacheComesFrom(t, n);
    var cache := FirstCache(t, n);
    forall k | 0 <= k < n
      ensures t.services[k].name in cache
           && cache[t.services[k].name].placementPeer == PeerRef(SourceOf(t, t.services[k]))
    {
      assert Recorded(cache, t, t.services[k]);
    }
  }

  lemma CacheKeepsTelling(s: State, c: Command, t: Topology)
    requires s.cache.Some? && CacheTellsOf(s.cache.value, t)
    requires !(c.BuildFoundation? && c.meshMode && c.written >= 4)
    ensures Step(s, c).state.cache.Some? && CacheTellsOf(Step(s, c).state.cache.value, t)
  {
  }

  lemma {:induction false} CacheComesFromItsBuild(cmds: seq<Command>)
    requires AdmissibleRun(cmds)
    ensures Run(cmds).cache.Some? <==> CacheSource(cmds).Some?
    ensures CacheSource(cmds).Some? ==> CacheTellsOf(Run(cmds).cache.value, CacheSource(cmds).value)
  {
    if cmds != [] {
      var n := |cmds| - 1;
      var init, c := cmds[..n], cmds[n];
      CacheComesFromItsBuild(init);
      if c.BuildFoundation? && c.meshMode && c.written >= 4 {
        BuiltCacheTells(c.topology);
      } else if CacheSource(init).Some? {
        CacheKeepsTelling(Run(init), c, CacheSource(init).value);
      }
    }
  }

  lemma PeerInCache(cache: CacheFile, t: Topology, k: nat, p: Placement, ref: string)
    requires CacheTellsOf(cache, t) && k < |t.services|
    requires PlacedAt(t, t.services[k].name, t.services[k].placement, p) && Named(p, ref)
    ensures t.services[k].name in cache.services && cache.services[t.services[k].name].placementPeer == ref != ""
  {
    RefsAreNamed(p);
  }

  /** On a private path no reason about placements depends on the status of the route. */
  lemma PrivateReason(
    s: State, t: Topology, service: Service, d: Dependency, target: Placement, to: string, reasons: seq<Reason>,
    reason: Reason)
    requires PlacedAt(t, d.target, DeclaredPlacement(t.services, d.target), target) && Named(target, to)
    requires Resolve(s, t, service, d).scope == MeshPrivate && reasons == Resolve(s, t, service, d).reasons
    requires reason in {PlacementChanged, TargetRelocated, Reason.CacheMissing}
    ensures reason in reasons <==> BornOut(s, t, d.target, to, Verified, reason)
  {
    ReasonsExactlyWhen(s, t, service, d, target, to, reason);
  }

  lemma BornOutByItsBuild(s: State, t0: Topology, t: Topology, target: string, was: string, to: string)
    requires s.cache.Some? && CacheTellsOf(s.cache.value, t0)
    requires target in s.cache.value.services && s.cache.value.services[target].placementPeer == was != ""
    ensures BornOut(s, t, target, to, Verified, PlacementChanged) <==>
              t0.placementFingerprint !in {"", t.placementFingerprint}
    ensures BornOut(s, t, target, to, Verified, TargetRelocated) <==> was != to
    ensures !BornOut(s, t, target, to, Verified, Reason.CacheMissing)
  {
  }

  /**
   Over every run: a crossing dependency on a private path is said to have a changed placement exactly if the build
   behind the cache had another fingerprint, and a relocated target exactly if that build had the target service
   under another peer name.
   */
  lemma PlacementReasonsOverRuns(
    cmds: seq<Command>, t0: Topology, t: Topology, service: Service, d: Dependency, k: nat,
    before: Placement, was: string, now: Placement, to: string)
    requires AdmissibleRun(cmds) && CacheSource(cmds) == Some(t0)
    requires Resolve(Run(cmds), t, service, d).scope == MeshPrivate
    requires k < |t0.services| && t0.services[k].name == d.target
    requires PlacedAt(t0, d.target, t0.services[k].placement, before) && Named(before, was)
    requires PlacedAt(t, d.target, DeclaredPlacement(t.services, d.target), now) && Named(now, to)
    ensures var r := Resolve(Run(cmds), t, service, d);
            && (PlacementChanged in r.reasons <==> t0.placementFingerprint !in {"", t.placementFingerprint})
            && (TargetRelocated in r.reasons <==> was != to)
            && Reason.CacheMissing !in r.reasons
  {
    CacheComesFromItsBuild(cmds);
    PeerInCache(Run(cmds).cache.value, t0, k, before, was);
    BornOutByItsBuild(Run(cmds), t0, t, d.target, was, to);
    var reasons := Resolve(Run(cmds), t, service, d).reasons;
    PrivateReason(Run(cmds), t, service, d, now, to, reasons, PlacementChanged);
    PrivateReason(Run(cmds), t, service, d, now, to, reasons, TargetRelocated);
    PrivateReason(Run(cmds), t, service, d, now, to, reasons, Reason.CacheMissing);
  }
}
