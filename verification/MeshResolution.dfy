/** Whole runs of the mesh, and what the dependency resolver reads from the files that they leave. */
module MeshResolution {
  import opened Text
  import opened Mesh
  import opened MeshFingerprints
  import opened MeshLaws
  import opened MeshHealth

  function Run(cmds: seq<Command>): State {
    if cmds == [] then NOTHING else Step(Run(cmds[..|cmds| - 1]), cmds[|cmds| - 1]).state
  }

  predicate AdmissibleRun(cmds: seq<Command>) {
    forall k :: 0 <= k < |cmds| ==> Admissible(cmds[k])
  }

  lemma {:induction false} RunKeepsInv(cmds: seq<Command>)
    requires AdmissibleRun(cmds)
    ensures Inv(Run(cmds))
  {
    if cmds != [] {
      RunKeepsInv(cmds[..|cmds| - 1]);
      InvariantIsInductive(Run(cmds[..|cmds| - 1]), cmds[|cmds| - 1]);
    }
  }

  /** No write failed between a new route table and its cache. */
  predicate Undisturbed(cmds: seq<Command>) {
    cmds == [] || (Undisturbed(cmds[..|cmds| - 1]) && !TornAt(Run(cmds[..|cmds| - 1]), cmds[|cmds| - 1]))
  }

  lemma {:induction false} UndisturbedStaysInStep(cmds: seq<Command>)
    requires AdmissibleRun(cmds) && Undisturbed(cmds)
    ensures InStep(Run(cmds))
  {
    if cmds != [] {
      var init, c := cmds[..|cmds| - 1], cmds[|cmds| - 1];
      UndisturbedStaysInStep(init);
      RunKeepsInv(init);
      StepKeepsInStep(Run(init), c);
    }
  }

  // ---------------------------------------------------------------- where the files come from

  predicate Lays(c: Command) {
    c.BuildFoundation? && c.meshMode && c.written >= 3
  }

  predicate Publishes(s: State, c: Command) {
    c.SyncRoutes? && Objection(s, c).None? && c.written >= 3
  }

  /** The topology that the route table was last built from. */
  function LiveSource(cmds: seq<Command>): Option<Topology> {
    if cmds == [] then None
    else if Lays(cmds[|cmds| - 1]) then Some(cmds[|cmds| - 1].topology)
    else LiveSource(cmds[..|cmds| - 1])
  }

  /** The topology whose routes the report shows. */
  function ReportSource(cmds: seq<Command>): Option<Topology> {
    if cmds == [] then None
    else if Publishes(Run(cmds[..|cmds| - 1]), cmds[|cmds| - 1]) then LiveSource(cmds[..|cmds| - 1])
    else ReportSource(cmds[..|cmds| - 1])
  }

  function RoutesOf(t: Topology): seq<Route> {
    FirstRoutes(t, |t.services|)
  }

  /** The route table still is that of the foundation of t, up to the fields that a sync rewrites. */
  predicate BuiltFrom(live: Live, t: Topology) {
    DistinctNames(t.services) && Alike(live.routes, RoutesOf(t))
  }

  predicate LocalsVerified(routes: seq<Route>) {
    forall k :: 0 <= k < |routes| && routes[k].kind == LocalPath ==> routes[k].status == LocalVerified
  }

  predicate Shows(report: seq<Route>, t: Topology) {
    DistinctNames(t.services) && Alike(report, RoutesOf(t)) && LocalsVerified(report) && KindsFollowEnds(report)
  }

  lemma AlikeChain(a: seq<Route>, b: seq<Route>, c: seq<Route>)
    requires Alike(a, b) && Alike(b, c)
    ensures Alike(a, c)
  {
    forall k | 0 <= k < |a| ensures Fixed(a[k], c[k]) {
      assert Fixed(a[k], b[k]) && Fixed(b[k], c[k]);
    }
  }

  lemma BuiltFromIsKept(s: State, c: Command, t: Topology)
    requires s.live.Some? && BuiltFrom(s.live.value, t) && !Lays(c)
    ensures var after := Step(s, c).state; after.live.Some? && BuiltFrom(after.live.value, t)
  {
    SyncedAlike(s.live.value);
    AlikeChain(Synced(s.live.value).routes, s.live.value.routes, RoutesOf(t));
  }

  lemma AlikeItself(routes: seq<Route>)
    ensures Alike(routes, routes)
  {
  }

  lemma {:induction false} LiveComesFrom(cmds: seq<Command>)
    requires AdmissibleRun(cmds)
    ensures Run(cmds).live.Some? <==> LiveSource(cmds).Some?
    ensures LiveSource(cmds).Some? ==> BuiltFrom(Run(cmds).live.value, LiveSource(cmds).value)
  {
    if cmds != [] {
      var init, c := cmds[..|cmds| - 1], cmds[|cmds| - 1];
      LiveComesFrom(init);
      if Lays(c) {
        AlikeItself(RoutesOf(c.topology));
      } else if LiveSource(init).Some? {
        BuiltFromIsKept(Run(init), c, LiveSource(init).value);
      }
    }
  }

  lemma PublishedShows(s: State, c: Command, t: Topology)
    requires Inv(s) && s.live.Some? && BuiltFrom(s.live.value, t) && Publishes(s, c)
    ensures var after := Step(s, c).state; after.report.Some? && Shows(after.report.value, t)
  {
    BuiltFromIsKept(s, c, t);
    SyncKeepsEnds(s.live.value, IndexPeers(s.live.value.peers), WireGuard);
  }

  lemma {:induction false} ReportComesFrom(cmds: seq<Command>)
    requires AdmissibleRun(cmds)
    ensures Run(cmds).report.Some? <==> ReportSource(cmds).Some?
    ensures ReportSource(cmds).Some? ==> Shows(Run(cmds).report.value, ReportSource(cmds).value)
  {
    if cmds != [] {
      var init, c := cmds[..|cmds| - 1], cmds[|cmds| - 1];
      ReportComesFrom(init);
      LiveComesFrom(init);
      if Publishes(Run(init), c) {
        RunKeepsInv(init);
        PublishedShows(Run(init), c, LiveSource(init).value);
      } else {
        assert Step(Run(init), c).state.report == Run(init).report;
      }
    }
  }

  // ---------------------------------------------------------------- when the report is current

  /** Some sync published its report, and neither a foundation nor a sync cut short changed the routes since. */
  predicate SyncedSinceBuild(cmds: seq<Command>) {
    cmds != []
    && var init, c := cmds[..|cmds| - 1], cmds[|cmds| - 1];
       if Publishes(Run(init), c) then true
       else if c.SyncRoutes? && Objection(Run(init), c).None? then c.written == 0 && SyncedSinceBuild(init)
       else !Lays(c) && SyncedSinceBuild(init)
  }

  /** Report, route table and the cache's fingerprint tell the same story. */
  predicate ReportCurrent(s: State) {
    s.live.Some? && s.cache.Some? && s.report == Some(s.live.value.routes)
    && s.cache.value.fingerprint == FingerprintOf(s.live.value.routes)
  }

  lemma {:induction false} ReportStaysCurrent(cmds: seq<Command>)
    requires AdmissibleRun(cmds) && SyncedSinceBuild(cmds)
    ensures ReportCurrent(Run(cmds))
  {
    var init, c := cmds[..|cmds| - 1], cmds[|cmds| - 1];
    RunKeepsInv(init);
    if !Publishes(Run(init), c) {
      ReportStaysCurrent(init);
    }
  }

  // ---------------------------------------------------------------- the resolver

  datatype Reason =
    | CacheMissing
    | PlacementChanged
    | TargetRelocated
    | OverlayChanged
    | SyncPending
    | PeerHealthChanged
    | MeshDegraded

  datatype Resolution = Resolution(
    scope: PathKind,
    status: RouteStatus,
    provider: Provider,
    fallbackBlocked: bool,
    reasons: seq<Reason>)

  /** The route that a map filled route by route keeps under a key. */
  function LastWithKey(routes: seq<Route>, key: string): (found: Option<Route>)
    ensures found.Some? <==> exists k :: 0 <= k < |routes| && routes[k].Key() == key
    ensures found.Some? ==> found.value in routes && found.value.Key() == key
  {
    if routes == [] then None
    else
      var n := |routes| - 1;
      assert forall k :: 0 <= k < |routes| ==> k == n || routes[k] == routes[..n][k];
      if routes[n].Key() == key then Some(routes[n]) else LastWithKey(routes[..n], key)
  }

  function FirstCachedFor(deps: seq<CachedDependency>, alias: string, target: string): (found: Option<CachedDependency>)
    ensures found.Some? <==> exists i :: 0 <= i < |deps| && deps[i].alias == alias && deps[i].target == target
    ensures found.Some? ==> found.value in deps && found.value.alias == alias && found.value.target == target
  {
    if deps == [] then None
    else if deps[0].alias == alias && deps[0].target == target then Some(deps[0])
    else
      assert forall i :: 0 < i < |deps| ==> deps[i] == deps[1..][i - 1];
      FirstCachedFor(deps[1..], alias, target)
  }

  /** The routes that the resolver consults: the sync report if there is one, else the table of the foundation. */
  function KnownRoutes(s: State): seq<Route> {
    if s.report.Some? then s.report.value
    else if s.live.Some? then s.live.value.routes
    else []
  }

  function CachedIn(cache: CacheFile, service: string, alias: string, target: string): Option<CachedDependency> {
    if service in cache.services then FirstCachedFor(cache.services[service].dependencies, alias, target) else None
  }

  function MetadataFor(s: State, service: string, d: Dependency): Option<CachedDependency> {
    if s.cache.Some? then CachedIn(s.cache.value, service, d.alias, d.target) else None
  }

  function OrElse(p: Provider, fallback: Provider): Provider {
    if p != NoProvider then p else fallback
  }

  /** How a dependency of a distributed mesh revision is reached. */
  function Resolve(s: State, t: Topology, service: Service, d: Dependency): Resolution {
    var source, target := PeerRef(SourceOf(t, service)), PeerRef(TargetOf(t, d.target));
    var found, metadata := LastWithKey(KnownRoutes(s), KeyOf(Origin(service.name, d))), MetadataFor(s, service.name, d);
    var local := Resolution(LocalPath, LocalVerified, NoProvider, false, []);
    var waiting := Resolution(MeshPrivate, RoutePlanned, WireGuard, true, []);
    var r :=
      if source == target then local
      else if found.Some? then
        Resolution(found.value.kind, found.value.status, OrElse(found.value.provider, waiting.provider),
                   found.value.fallbackBlocked || waiting.fallbackBlocked, [])
      else if metadata.Some? then
        Resolution(metadata.value.scope, metadata.value.status, OrElse(metadata.value.provider, waiting.provider),
                   metadata.value.fallbackBlocked || waiting.fallbackBlocked, [])
      else waiting;
    r.(reasons := Reasons(s, t, d.target, target, r.status, r.scope == MeshPrivate))
  }

  function When(condition: bool, reason: Reason): seq<Reason> {
    if condition then [reason] else []
  }

  predicate OverlayDiffers(s: State) {
    && s.cache.Some? && s.report.Some? && s.cache.value.fingerprint != "" && FingerprintOf(s.report.value) != ""
    && s.cache.value.fingerprint != FingerprintOf(s.report.value)
  }

  predicate Relocated(services: map<string, ServiceRecord>, target: string, targetPeer: string) {
    target in services && services[target].placementPeer != "" && services[target].placementPeer != targetPeer
  }

  function CacheReasons(s: State, t: Topology, target: string, targetPeer: string): seq<Reason> {
    if s.cache.None? then [Reason.CacheMissing]
    else
      var cache := s.cache.value;
      When(cache.placement != "" && cache.placement != t.placementFingerprint, PlacementChanged)
      + When(Relocated(cache.services, target, targetPeer), TargetRelocated)
      + When(OverlayDiffers(s), OverlayChanged)
  }

  function Reasons(
    s: State, t: Topology, target: string, targetPeer: string, status: RouteStatus, remote: bool): seq<Reason>
  {
    if !remote then []
    else
      CacheReasons(s, t, target, targetPeer)
      + When(s.report.None?, SyncPending)
      + When(status in {RoutePlanned, RouteDegraded, Blocked}, PeerHealthChanged)
      + When(s.live.Some? && s.live.value.health.status == HealthDegraded, MeshDegraded)
  }

  predicate Crosses(t: Topology, service: Service, d: Dependency) {
    PeerRef(SourceOf(t, service)) != PeerRef(TargetOf(t, d.target))
  }

  lemma OverlayAmongReasons(
    s: State, t: Topology, target: string, targetPeer: string, status: RouteStatus, remote: bool)
    ensures OverlayChanged in Reasons(s, t, target, targetPeer, status, remote) <==> remote && OverlayDiffers(s)
  {
  }

  lemma OverlayNeedsAPrivatePath(s: State, t: Topology, service: Service, d: Dependency)
    ensures var r := Resolve(s, t, service, d);
            OverlayChanged in r.reasons <==> r.scope == MeshPrivate && OverlayDiffers(s)
  {
    var r := Resolve(s, t, service, d);
    OverlayAmongReasons(s, t, d.target, PeerRef(TargetOf(t, d.target)), r.status, r.scope == MeshPrivate);
  }

  // ---------------------------------------------------------------- what the resolver has seen

  /** Tables alike give the same dependency the last word on a key. */
  lemma {:induction false} AlikeKeys(a: seq<Route>, b: seq<Route>, key: string)
    requires Alike(a, b)
    ensures LastWithKey(a, key).Some? <==> LastWithKey(b, key).Some?
    ensures LastWithKey(a, key).Some? ==> Fixed(LastWithKey(a, key).value, LastWithKey(b, key).value)
  {
    if a != [] {
      var n := |a| - 1;
      assert Fixed(a[n], b[n]);
      forall k | 0 <= k < n ensures Fixed(a[..n][k], b[..n][k]) {
        assert Fixed(a[k], b[k]);
      }
      AlikeKeys(a[..n], b[..n], key);
    }
  }

  lemma {:induction false} AlikeServing(a: seq<Route>, b: seq<Route>, service: string, alias: string, target: string)
    requires Alike(a, b)
    ensures var x, y := LastServing(a, service, alias, target), LastServing(b, service, alias, target);
            (x.Some? <==> y.Some?) && (x.Some? ==> Fixed(x.value, y.value))
  {
    if a != [] {
      var n := |a| - 1;
      assert Fixed(a[n], b[n]);
      forall k | 0 <= k < n ensures Fixed(a[..n][k], b[..n][k]) {
        assert Fixed(a[k], b[k]);
      }
      AlikeServing(a[..n], b[..n], service, alias, target);
    }
  }

  lemma ServedIsCached(cache: CacheFile, routes: seq<Route>, service: string, alias: string, target: string)
    requires CacheCovers(cache.services, routes) && LastServing(routes, service, alias, target).Some?
    ensures CachedIn(cache, service, alias, target).Some?
  {
    var k :| 0 <= k < |routes| && routes[k] == LastServing(routes, service, alias, target).value;
    assert Caches(cache.services[service], alias, target);
  }

  lemma CachedIsServed(cache: CacheFile, routes: seq<Route>, service: string, alias: string, target: string)
    requires Tells(cache, routes) && CachedIn(cache, service, alias, target).Some?
    ensures var serving := LastServing(routes, service, alias, target);
            serving.Some? && CachedIn(cache, service, alias, target).value.scope == serving.value.kind
  {
    var deps := cache.services[service].dependencies;
    var i :| 0 <= i < |deps| && deps[i] == FirstCachedFor(deps, alias, target).value;
    assert LastServing(routes, service, deps[i].alias, deps[i].target).Some?;
    var k :| 0 <= k < |routes| && routes[k] == LastServing(routes, service, alias, target).value;
    assert deps[i] == CachedRoute(alias, target, routes[k]);
  }

  /** A cache in step answers for a dependency exactly when a route serves it, and then as that route. */
  lemma CacheAnswersAsTheTable(cache: CacheFile, routes: seq<Route>, service: string, alias: string, target: string)
    requires Tells(cache, routes)
    ensures var serving, cached := LastServing(routes, service, alias, target), CachedIn(cache, service, alias, target);
            (cached.Some? <==> serving.Some?) && (cached.Some? ==> cached.value.scope == serving.value.kind)
  {
    if LastServing(routes, service, alias, target).Some? {
      ServedIsCached(cache, routes, service, alias, target);
    }
    if CachedIn(cache, service, alias, target).Some? {
      CachedIsServed(cache, routes, service, alias, target);
    }
  }

  /** The topology behind the routes that the resolver consults. */
  function KnownSource(cmds: seq<Command>): Option<Topology> {
    if ReportSource(cmds).Some? then ReportSource(cmds) else LiveSource(cmds)
  }

  function OwnerIn(known: Option<Topology>, origin: Origin): Option<Route> {
    if known.None? then None else LastWithKey(RoutesOf(known.value), KeyOf(origin))
  }

  function ServingIn(built: Option<Topology>, origin: Origin): Option<Route> {
    if built.None? then None
    else LastServing(RoutesOf(built.value), origin.service, origin.dependency.alias, origin.dependency.target)
  }

  /** Where the topologies that were built put a dependency: the owner of its key, else a namesake, else apart. */
  function SeenPath(known: Option<Topology>, built: Option<Topology>, origin: Origin): PathKind {
    if OwnerIn(known, origin).Some? then OwnerIn(known, origin).value.kind
    else if ServingIn(built, origin).Some? then ServingIn(built, origin).value.kind
    else MeshPrivate
  }

  lemma FoundFollowsOwner(cmds: seq<Command>, origin: Origin)
    requires AdmissibleRun(cmds)
    ensures var found, owner := LastWithKey(KnownRoutes(Run(cmds)), KeyOf(origin)), OwnerIn(KnownSource(cmds), origin);
            && (found.Some? <==> owner.Some?)
            && (found.Some? ==> Fixed(found.value, owner.value))
  {
    LiveComesFrom(cmds);
    ReportComesFrom(cmds);
    if KnownSource(cmds).Some? {
      AlikeKeys(KnownRoutes(Run(cmds)), RoutesOf(KnownSource(cmds).value), KeyOf(origin));
    }
  }

  lemma MetadataFollowsServing(cmds: seq<Command>, origin: Origin)
    requires AdmissibleRun(cmds) && InStep(Run(cmds))
    ensures var metadata := MetadataFor(Run(cmds), origin.service, origin.dependency);
            var serving := ServingIn(LiveSource(cmds), origin);
            && (metadata.Some? <==> serving.Some?)
            && (metadata.Some? ==> metadata.value.scope == serving.value.kind)
  {
    LiveComesFrom(cmds);
    var s, d := Run(cmds), origin.dependency;
    if s.live.Some? {
      CacheAnswersAsTheTable(s.cache.value, s.live.value.routes, origin.service, d.alias, d.target);
      AlikeServing(s.live.value.routes, RoutesOf(LiveSource(cmds).value), origin.service, d.alias, d.target);
    }
  }

  /**
   A dependency between different peers is reached by the path that the builds before have put it on, and never
   by a public one. On a local path no reason for doubt is ever given.
   */
  lemma PathFollowsTheBuilds(cmds: seq<Command>, t: Topology, service: Service, d: Dependency)
    requires AdmissibleRun(cmds) && InStep(Run(cmds)) && Crosses(t, service, d)
    ensures var r := Resolve(Run(cmds), t, service, d);
            && r.scope == SeenPath(KnownSource(cmds), LiveSource(cmds), Origin(service.name, d))
            && r.fallbackBlocked
            && (r.scope == LocalPath ==> r.reasons == [])
  {
    FoundFollowsOwner(cmds, Origin(service.name, d));
    MetadataFollowsServing(cmds, Origin(service.name, d));
  }

  /** The overlay reason is raised exactly when the builds put the path apart and the two fingerprints differ. */
  lemma OverlayReasonExactly(cmds: seq<Command>, t: Topology, service: Service, d: Dependency)
    requires AdmissibleRun(cmds) && InStep(Run(cmds))
    ensures var s := Run(cmds);
            OverlayChanged in Resolve(s, t, service, d).reasons <==>
              && Crosses(t, service, d)
              && SeenPath(KnownSource(cmds), LiveSource(cmds), Origin(service.name, d)) == MeshPrivate
              && s.live.Some? && s.report.Some? && s.live.value.routes != [] && s.report.value != []
              && FingerprintOf(s.live.value.routes) != FingerprintOf(s.report.value)
  {
    OverlayNeedsAPrivatePath(Run(cmds), t, service, d);
    if Crosses(t, service, d) {
      PathFollowsTheBuilds(cmds, t, service, d);
    }
  }

  /** So it is never raised before the next foundation, whatever peers are ensured meanwhile. */
  lemma OverlayReasonNeedsANewFoundation(cmds: seq<Command>, t: Topology, service: Service, d: Dependency)
    requires AdmissibleRun(cmds) && SyncedSinceBuild(cmds)
    ensures OverlayChanged !in Resolve(Run(cmds), t, service, d).reasons
  {
    ReportStaysCurrent(cmds);
    OverlayNeedsAPrivatePath(Run(cmds), t, service, d);
  }

  // ---------------------------------------------------------------- keys that separate

  /** No other dependency of the topology shares the key. */
  predicate KeySeparates(t: Topology, origin: Origin) {
    forall i, j :: 0 <= i < |t.services| && 0 <= j < |t.services[i].dependencies|
      && KeyOf(Origin(t.services[i].name, t.services[i].dependencies[j])) == KeyOf(origin)
      ==> Origin(t.services[i].name, t.services[i].dependencies[j]) == origin
  }

  predicate NoBarsIn(t: Topology) {
    forall i, j :: 0 <= i < |t.services| && 0 <= j < |t.services[i].dependencies| ==>
      NoBars(Origin(t.services[i].name, t.services[i].dependencies[j]))
  }

  lemma WithoutBarsKeysSeparate(t: Topology, origin: Origin)
    requires NoBarsIn(t) && NoBars(origin)
    ensures KeySeparates(t, origin)
  {
    forall i, j | 0 <= i < |t.services| && 0 <= j < |t.services[i].dependencies|
        && KeyOf(Origin(t.services[i].name, t.services[i].dependencies[j])) == KeyOf(origin)
      ensures Origin(t.services[i].name, t.services[i].dependencies[j]) == origin
    {
      NoBarsSeparate(Origin(t.services[i].name, t.services[i].dependencies[j]), origin);
    }
  }

  lemma OwnerExists(t: Topology, service: Service, d: Dependency)
    requires service in t.services && d in service.dependencies
    ensures LastWithKey(RoutesOf(t), KeyOf(Origin(service.name, d))).Some?
  {
    RoutesComeFrom(t, |t.services|);
    var i :| 0 <= i < |t.services| && t.services[i] == service;
    var j :| 0 <= j < |service.dependencies| && service.dependencies[j] == d;
    assert FirstRoute(t, t.services[i], t.services[i].dependencies[j]) in RoutesOf(t);
    var k :| 0 <= k < |RoutesOf(t)| && RoutesOf(t)[k] == FirstRoute(t, service, d);
    assert RoutesOf(t)[k].Key() == KeyOf(Origin(service.name, d));
  }

  /** Only one service has the name in a route's origin, so the origin decides the route. */
  lemma OriginDecidesRoute(t: Topology, service: Service, d: Dependency, route: Route)
    requires DistinctNames(t.services) && service in t.services && KeySeparates(t, Origin(service.name, d))
    requires From(t, |t.services|, route) && route.Key() == KeyOf(Origin(service.name, d))
    ensures route == FirstRoute(t, service, d)
  {
    var i, j :| 0 <= i < |t.services| && 0 <= j < |t.services[i].dependencies|
      && route == FirstRoute(t, t.services[i], t.services[i].dependencies[j]);
    assert route.origin == Origin(t.services[i].name, t.services[i].dependencies[j]);
  }

  lemma OwnerWhenSeparate(t: Topology, service: Service, d: Dependency)
    requires DistinctNames(t.services) && service in t.services && d in service.dependencies
    requires KeySeparates(t, Origin(service.name, d))
    ensures LastWithKey(RoutesOf(t), KeyOf(Origin(service.name, d))) == Some(FirstRoute(t, service, d))
  {
    OwnerExists(t, service, d);
    RoutesComeFrom(t, |t.services|);
    var owner := LastWithKey(RoutesOf(t), KeyOf(Origin(service.name, d))).value;
    var k :| 0 <= k < |RoutesOf(t)| && RoutesOf(t)[k] == owner;
    assert From(t, |t.services|, RoutesOf(t)[k]);
    OriginDecidesRoute(t, service, d, owner);
  }

  // ---------------------------------------------------------------- moved targets

  /** The flag of the route that the resolver finds. */
  predicate SaysBlocked(s: State, origin: Origin) {
    var found := LastWithKey(KnownRoutes(s), KeyOf(origin));
    found.Some? && found.value.fallbackBlocked
  }

  /** What a report says of a dependency is what the owner of its key was when the report was published. */
  lemma ReportedAs(cmds: seq<Command>, t0: Topology, origin: Origin)
    requires AdmissibleRun(cmds) && ReportSource(cmds) == Some(t0) && OwnerIn(Some(t0), origin).Some?
    ensures var found := LastWithKey(KnownRoutes(Run(cmds)), KeyOf(origin));
            && found.Some? && found.value.kind == OwnerIn(Some(t0), origin).value.kind
            && (found.value.kind == LocalPath ==> found.value.status == LocalVerified)
            && (found.value.fallbackBlocked <==> found.value.kind == MeshPrivate)
  {
    FoundFollowsOwner(cmds, origin);
    ReportComesFrom(cmds);
    var report := Run(cmds).report.value;
    var k :| 0 <= k < |report| && report[k] == LastWithKey(report, KeyOf(origin)).value;
  }

  /** So the owner of the key in t0 decides the path, and on a local path nothing is doubted. */
  lemma ReportDecidesThePath(cmds: seq<Command>, t0: Topology, t: Topology, service: Service, d: Dependency)
    requires AdmissibleRun(cmds) && ReportSource(cmds) == Some(t0) && Crosses(t, service, d)
    requires OwnerIn(Some(t0), Origin(service.name, d)).Some?
    ensures var r, owner := Resolve(Run(cmds), t, service, d), OwnerIn(Some(t0), Origin(service.name, d)).value;
            && r.scope == owner.kind && r.fallbackBlocked
            && (owner.kind == LocalPath ==> r.status == LocalVerified && r.reasons == [])
            && (SaysBlocked(Run(cmds), Origin(service.name, d)) <==> owner.kind == MeshPrivate)
  {
    ReportedAs(cmds, t0, Origin(service.name, d));
  }

  /**
   With a report of t0, a dependency that now crosses peers resolves to a verified local path, and raises no reason,
   exactly when it did not cross in t0. The fallback is blocked although the report then says that it is not.
   */
  lemma MovedTargetGoesUnnoticedExactlyWhen(
    cmds: seq<Command>, t0: Topology, s0: Service, t: Topology, service: Service, d: Dependency)
    requires AdmissibleRun(cmds) && ReportSource(cmds) == Some(t0)
    requires s0 in t0.services && d in s0.dependencies && KeySeparates(t0, Origin(s0.name, d))
    requires s0.name == service.name && Crosses(t, service, d)
    ensures var s := Run(cmds);
            var r := Resolve(s, t, service, d);
            && (r.scope == LocalPath <==> !Crosses(t0, s0, d))
            && (!Crosses(t0, s0, d) ==> r.status == LocalVerified && r.reasons == [])
            && (OverlayChanged in r.reasons <==> Crosses(t0, s0, d) && OverlayDiffers(s))
            && r.fallbackBlocked
            && (SaysBlocked(s, Origin(s0.name, d)) <==> Crosses(t0, s0, d))
  {
    ReportComesFrom(cmds);
    OwnerWhenSeparate(t0, s0, d);
    ReportDecidesThePath(cmds, t0, t, service, d);
    OverlayNeedsAPrivatePath(Run(cmds), t, service, d);
  }

  // ---------------------------------------------------------------- end to end

  lemma ResolvedFromReport(s: State, t: Topology, service: Service, d: Dependency, route: Route)
    requires Crosses(t, service, d) && LastWithKey(KnownRoutes(s), KeyOf(Origin(service.name, d))) == Some(route)
    ensures var r := Resolve(s, t, service, d);
            && r.scope == route.kind && r.status == route.status && r.provider == OrElse(route.provider, WireGuard)
            && r.fallbackBlocked
  {
  }

  predicate BothActive(peers: seq<Peer>, source: string, target: string) {
    StateOf(IndexPeers(peers), source) == Some(Active) && StateOf(IndexPeers(peers), target) == Some(Active)
  }

  /** The dependency resolves to its private route: verified if both of its peers are active, else blocked. */
  predicate ResolvesBy(peers: seq<Peer>, s: State, t: Topology, service: Service, d: Dependency) {
    var r := Resolve(s, t, service, d);
    && r.scope == MeshPrivate && r.provider == WireGuard && r.fallbackBlocked
    && r.status == if BothActive(peers, PeerRef(SourceOf(t, service)), PeerRef(TargetOf(t, d.target)))
                   then Verified else Blocked
  }

  /** What a sync makes of a route whose peers are listed and settled. */
  lemma SyncedByPeers(live: Live, k: nat)
    requires LiveInv(live) && k < |live.routes|
    ensures var route, synced := live.routes[k], Synced(live).routes[k];
            && (route.kind == MeshPrivate ==>
                  && synced.provider == WireGuard
                  && synced.status == if BothActive(live.peers, route.sourcePeer, route.targetPeer)
                                      then Verified else Blocked)
  {
    SyncFindsBothEnds(live, k);
  }

  lemma FoundAfterSync(s: State, c: Command, t: Topology, service: Service, d: Dependency) returns (k: nat)
    requires Inv(s) && s.live.Some? && BuiltFrom(s.live.value, t) && Publishes(s, c)
    requires service in t.services && d in service.dependencies
    ensures var live, key := s.live.value, KeyOf(Origin(service.name, d));
            && k < |live.routes| && LastWithKey(RoutesOf(t), key).Some?
            && LastWithKey(KnownRoutes(Step(s, c).state), key) == Some(Synced(live).routes[k])
            && Fixed(live.routes[k], LastWithKey(RoutesOf(t), key).value)
  {
    var live, key := s.live.value, KeyOf(Origin(service.name, d));
    OwnerExists(t, service, d);
    SyncedAlike(live);
    AlikeChain(Synced(live).routes, live.routes, RoutesOf(t));
    AlikeKeys(Synced(live).routes, RoutesOf(t), key);
    assert KnownRoutes(Step(s, c).state) == Synced(live).routes;
    k :| 0 <= k < |live.routes| && Synced(live).routes[k] == LastWithKey(Synced(live).routes, key).value;
    assert Fixed(Synced(live).routes[k], live.routes[k]);
  }

  /** The owner of the key stands for the dependency: it crosses too, between peers that are as active. */
  predicate StandsFor(peers: seq<Peer>, owner: Route, t: Topology, service: Service, d: Dependency) {
    && owner.kind == MeshPrivate
    && (BothActive(peers, owner.sourcePeer, owner.targetPeer) <==>
          BothActive(peers, PeerRef(SourceOf(t, service)), PeerRef(TargetOf(t, d.target))))
  }

  /**
   Right after a sync that published its report, a crossing dependency of the revision that was built resolves to
   its private route, verified or blocked by its own peers, exactly when the owner of its key stands for it.
   */
  lemma ResolvedAfterSyncExactlyWhen(
    cmds: seq<Command>, c: Command, t: Topology, service: Service, d: Dependency)
    requires AdmissibleRun(cmds) && LiveSource(cmds) == Some(t) && Publishes(Run(cmds), c)
    requires service in t.services && d in service.dependencies && Crosses(t, service, d)
    ensures var peers := Run(cmds).live.value.peers;
            var owner := LastWithKey(RoutesOf(t), KeyOf(Origin(service.name, d)));
            && owner.Some?
            && (ResolvesBy(peers, Step(Run(cmds), c).state, t, service, d) <==>
                  StandsFor(peers, owner.value, t, service, d))
  {
    var s := Run(cmds);
    RunKeepsInv(cmds);
    LiveComesFrom(cmds);
    var k := FoundAfterSync(s, c, t, service, d);
    ResolvedFromReport(Step(s, c).state, t, service, d, Synced(s.live.value).routes[k]);
    SyncedByPeers(s.live.value, k);
    assert Fixed(Synced(s.live.value).routes[k], s.live.value.routes[k]);
  }

  /** So every dependency whose key is its own is resolved by its own peers. */
  lemma ResolvedAfterSync(cmds: seq<Command>, c: Command, t: Topology, service: Service, d: Dependency)
    requires AdmissibleRun(cmds) && LiveSource(cmds) == Some(t) && Publishes(Run(cmds), c)
    requires service in t.services && d in service.dependencies && Crosses(t, service, d)
    requires KeySeparates(t, Origin(service.name, d))
    ensures ResolvesBy(Run(cmds).live.value.peers, Step(Run(cmds), c).state, t, service, d)
  {
    LiveComesFrom(cmds);
    OwnerWhenSeparate(t, service, d);
    ResolvedAfterSyncExactlyWhen(cmds, c, t, service, d);
  }
}
