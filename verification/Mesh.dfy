/**
 The mesh overlay of one binding: peers, route table, service metadata cache, link health and health counts,
 as values. The manager that changes them in place is in MeshManager.
 */
module Mesh {
  import opened Text
  import opened Digests

  datatype PeerState = Planned | Joining | Active | Degraded | Leaving | Removed

  datatype PathKind = LocalPath | MeshPrivate

  datatype RouteStatus = RouteActive | RoutePlanned | LocalVerified | Verified | RouteDegraded | Blocked | Unavailable

  datatype Provider = NoProvider | WireGuard | Tailscale | OtherProvider

  datatype Placement = Placement(kind: string, targetId: string)

  datatype Dependency = Dependency(alias: string, target: string, protocol: string, endpoint: string)

  datatype Service = Service(name: string, placement: Option<Placement>, dependencies: seq<Dependency>)

  datatype Binding = Binding(kind: string, targetId: string, targetRef: string, projectId: string)

  /** What BuildFoundation is given: a revision's services placed on targets. */
  datatype Topology = Topology(
    binding: Binding,
    services: seq<Service>,
    placements: map<string, Placement>,
    placementFingerprint: string)

  datatype Peer = Peer(ref: string, placement: Placement, isLocal: bool, state: PeerState)

  /** The dependency that a route was made for. */
  datatype Origin = Origin(service: string, dependency: Dependency)

  datatype Route = Route(
    origin: Origin,
    sourcePeer: string,
    targetPeer: string,
    kind: PathKind,
    status: RouteStatus,
    provider: Provider,
    verified: bool,
    privateOnly: bool,
    fallbackBlocked: bool)
  {
    predicate Serves(service: string, alias: string, target: string) {
      origin.service == service && origin.dependency.alias == alias && origin.dependency.target == target
    }

    function Key(): string {
      KeyOf(origin)
    }

    function LinkKey(): string {
      sourcePeer + "->" + targetPeer
    }
  }

  datatype CachedDependency = CachedDependency(
    alias: string,
    target: string,
    scope: PathKind,
    status: RouteStatus,
    provider: Provider,
    privateOnly: bool,
    fallbackBlocked: bool)

  datatype ServiceRecord = ServiceRecord(placementPeer: string, dependencies: seq<CachedDependency>)

  datatype LinkHealth = LinkHealth(
    provider: Provider,
    status: RouteStatus,
    verified: bool,
    privateOnly: bool,
    routeCount: nat)

  datatype HealthStatus = HealthActive | HealthDegraded | HealthPlanning | HealthDisabled

  datatype Health = Health(
    status: HealthStatus,
    totalPeers: nat,
    activePeers: nat,
    plannedPeers: nat,
    degradedPeers: nat,
    totalRoutes: nat,
    privateRoutes: nat,
    localRoutes: nat,
    verifiedRoutes: nat,
    degradedRoutes: nat,
    blockedRoutes: nat)

  datatype Live = Live(peers: seq<Peer>, routes: seq<Route>, health: Health)

  datatype CacheFile = CacheFile(services: map<string, ServiceRecord>, fingerprint: string, placement: string)

  /** The files under the binding's live root. */
  datatype State = State(
    live: Option<Live>,
    cache: Option<CacheFile>,
    report: Option<seq<Route>>,
    links: Option<map<string, LinkHealth>>)

  const NOTHING := State(None, None, None, None)

  // ---------------------------------------------------------------- keys, fingerprints and indexes

  function KeyText(origin: Origin): string {
    var d := origin.dependency;
    Join([origin.service, d.alias, d.target, d.protocol, d.endpoint], BAR)
  }

  function KeyOf(origin: Origin): string {
    Digest(KeyText(origin))
  }

  /** What a route contributes to a fingerprint. */
  datatype Part = Part(key: string, kind: PathKind, status: RouteStatus, provider: Provider, targetPeer: string)

  function PartOf(route: Route): Part {
    Part(route.Key(), route.kind, route.status, route.provider, route.targetPeer)
  }

  function KindText(kind: PathKind): string {
    match kind
    case LocalPath => "local"
    case MeshPrivate => "mesh_private"
  }

  function StatusText(status: RouteStatus): string {
    match status
    case RouteActive => "active"
    case RoutePlanned => "planned"
    case LocalVerified => "local_verified"
    case Verified => "verified"
    case RouteDegraded => "degraded"
    case Blocked => "blocked"
    case Unavailable => "unavailable"
  }

  function ProviderText(provider: Provider): string {
    match provider
    case NoProvider => ""
    case WireGuard => "wireguard"
    case Tailscale => "tailscale"
    case OtherProvider => "other"
  }

  function LineOf(part: Part): string {
    Join([part.key, KindText(part.kind), StatusText(part.status), ProviderText(part.provider), part.targetPeer], BAR)
  }

  function LinesOf(parts: seq<Part>): seq<string> {
    Map(LineOf, parts)
  }

  /** The digest of the sorted lines; blank for an empty table. */
  function FingerprintOf(routes: seq<Route>): string {
    if routes == [] then "" else Digest(JoinLines(Sort(LinesOf(Map(PartOf, routes)))))
  }

  function IndexPeers(peers: seq<Peer>): map<string, Peer> {
    if peers == [] then map[]
    else IndexPeers(peers[..|peers| - 1])[peers[|peers| - 1].ref := peers[|peers| - 1]]
  }

  lemma {:induction false} IndexedExactly(peers: seq<Peer>, ref: string)
    ensures ref in IndexPeers(peers) <==> exists k :: 0 <= k < |peers| && peers[k].ref == ref
    ensures ref in IndexPeers(peers) ==> IndexPeers(peers)[ref] in peers && IndexPeers(peers)[ref].ref == ref
  {
    if peers != [] {
      var n := |peers| - 1;
      IndexedExactly(peers[..n], ref);
      if exists k :: 0 <= k < |peers| && peers[k].ref == ref {
        var k :| 0 <= k < |peers| && peers[k].ref == ref;
        assert k < n ==> peers[..n][k].ref == ref;
      }
      if ref in IndexPeers(peers) && peers[n].ref != ref {
        var k :| 0 <= k < |peers[..n]| && peers[..n][k].ref == ref;
        assert peers[k].ref == ref;
      }
    }
  }

  // ---------------------------------------------------------------- foundation

  function PeerRef(p: Placement): string {
    p.kind + ":" + FirstNonEmpty([p.targetId, "unknown"])
  }

  function LocalPlacement(b: Binding): Placement {
    Placement(b.kind, FirstNonEmpty([b.targetId, b.targetRef, b.projectId]))
  }

  function PlacementOf(t: Topology, name: string, own: Option<Placement>): Placement {
    if name in t.placements then t.placements[name]
    else if own.Some? then own.value
    else Placement(t.binding.kind, t.binding.targetId)
  }

  /** The placement that the first service of that name declares. */
  function DeclaredPlacement(services: seq<Service>, name: string): Option<Placement> {
    if services == [] then None
    else if services[0].name == name then services[0].placement
    else DeclaredPlacement(services[1..], name)
  }

  function SourceOf(t: Topology, service: Service): Placement {
    PlacementOf(t, service.name, service.placement)
  }

  function TargetOf(t: Topology, target: string): Placement {
    PlacementOf(t, target, DeclaredPlacement(t.services, target))
  }

  function FirstRoute(t: Topology, service: Service, d: Dependency): Route {
    var source, target := PeerRef(SourceOf(t, service)), PeerRef(TargetOf(t, d.target));
    var crosses := target != source;
    Route(
      Origin(service.name, d), source, target, if crosses then MeshPrivate else LocalPath,
      if crosses then RoutePlanned else RouteActive, NoProvider, false, crosses, crosses)
  }

  function CachedRoute(alias: string, target: string, route: Route): CachedDependency {
    CachedDependency(
      alias, target, route.kind, route.status, route.provider, route.privateOnly, route.fallbackBlocked)
  }

  function FirstCached(t: Topology, service: Service, d: Dependency): CachedDependency {
    CachedRoute(d.alias, d.target, FirstRoute(t, service, d))
  }

  function ServiceRoutes(t: Topology, service: Service, n: nat): (routes: seq<Route>)
    requires n <= |service.dependencies|
  {
    seq(n, k requires 0 <= k < n => FirstRoute(t, service, service.dependencies[k]))
  }

  function ServiceCached(t: Topology, service: Service, n: nat): seq<CachedDependency>
    requires n <= |service.dependencies|
  {
    seq(n, k requires 0 <= k < n => FirstCached(t, service, service.dependencies[k]))
  }

  function RecordOf(t: Topology, service: Service): ServiceRecord {
    ServiceRecord(PeerRef(SourceOf(t, service)), ServiceCached(t, service, |service.dependencies|))
  }

  /** The routes of the first n services, in the order in which they are met. */
  function FirstRoutes(t: Topology, n: nat): seq<Route>
    requires n <= |t.services|
  {
    if n == 0 then []
    else FirstRoutes(t, n - 1) + ServiceRoutes(t, t.services[n - 1], |t.services[n - 1].dependencies|)
  }

  function FirstCache(t: Topology, n: nat): map<string, ServiceRecord>
    requires n <= |t.services|
  {
    if n == 0 then map[] else FirstCache(t, n - 1)[t.services[n - 1].name := RecordOf(t, t.services[n - 1])]
  }

  predicate KnowsPeer(peers: seq<Peer>, ref: string) {
    exists k :: 0 <= k < |peers| && peers[k].ref == ref
  }

  function WithPeer(peers: seq<Peer>, p: Placement): seq<Peer> {
    if KnowsPeer(peers, PeerRef(p)) then peers else peers + [Peer(PeerRef(p), p, false, Planned)]
  }

  function WithTargets(peers: seq<Peer>, t: Topology, service: Service, n: nat): seq<Peer>
    requires n <= |service.dependencies|
  {
    if n == 0 then WithPeer(peers, SourceOf(t, service))
    else WithPeer(WithTargets(peers, t, service, n - 1), TargetOf(t, service.dependencies[n - 1].target))
  }

  function FirstPeers(t: Topology, n: nat): seq<Peer>
    requires n <= |t.services|
  {
    if n == 0 then [Peer(PeerRef(LocalPlacement(t.binding)), LocalPlacement(t.binding), true, Active)]
    else WithTargets(FirstPeers(t, n - 1), t, t.services[n - 1], |t.services[n - 1].dependencies|)
  }

  function Foundation(t: Topology): Live {
    var peers, routes := FirstPeers(t, |t.services|), FirstRoutes(t, |t.services|);
    Live(peers, routes, HealthOf(peers, routes))
  }

  function FoundationCache(t: Topology): CacheFile {
    var n := |t.services|;
    CacheFile(FirstCache(t, n), FingerprintOf(FirstRoutes(t, n)), t.placementFingerprint)
  }

  /** Services of one revision have distinct names; the payload decoder rejects duplicates. */
  predicate DistinctNames(services: seq<Service>) {
    forall i, j :: 0 <= i < j < |services| ==> services[i].name != services[j].name
  }

  // ---------------------------------------------------------------- peers

  /** Which remote peers an ensure command addresses; a blank field matches every peer. */
  datatype PeerFilter = PeerFilter(ref: string, targetId: string, kind: string)
  {
    predicate Matches(p: Peer) {
      !p.isLocal && ref in {"", p.ref} && targetId in {"", p.placement.targetId} && kind in {"", p.placement.kind}
    }
  }

  function EnsuredState(desired: PeerState): PeerState {
    if desired == Leaving || desired == Removed then Removed else Active
  }

  function EnsuredPeers(peers: seq<Peer>, filter: PeerFilter, desired: PeerState): seq<Peer> {
    seq(|peers|, k requires 0 <= k < |peers| =>
      if filter.Matches(peers[k]) then peers[k].(state := EnsuredState(desired)) else peers[k])
  }

  // ---------------------------------------------------------------- route synchronisation

  function StateOf(index: map<string, Peer>, ref: string): Option<PeerState> {
    if ref in index then Some(index[ref].state) else None
  }

  function SyncedStatus(source: Option<PeerState>, target: Option<PeerState>): RouteStatus {
    if target in {None, Some(Removed), Some(Leaving)} then Blocked
    else if source == Some(Degraded) || target == Some(Degraded) then RouteDegraded
    else if source == Some(Active) && target == Some(Active) then Verified
    else Blocked
  }

  function SyncedRoute(index: map<string, Peer>, provider: Provider, route: Route): Route {
    if route.kind == LocalPath then
      route.(status := LocalVerified, verified := true, provider := NoProvider, fallbackBlocked := false)
    else
      var status := SyncedStatus(StateOf(index, route.sourcePeer), StateOf(index, route.targetPeer));
      route.(
        status := status, verified := status == Verified, provider := provider, privateOnly := true,
        fallbackBlocked := true)
  }

  function SyncedRoutes(index: map<string, Peer>, provider: Provider, routes: seq<Route>): seq<Route> {
    seq(|routes|, k requires 0 <= k < |routes| => SyncedRoute(index, provider, routes[k]))
  }

  /** The last route of a list that serves a dependency. */
  function LastServing(routes: seq<Route>, service: string, alias: string, target: string): (found: Option<Route>)
    ensures found.Some? <==> exists k :: 0 <= k < |routes| && routes[k].Serves(service, alias, target)
    ensures found.Some? ==> found.value in routes && found.value.Serves(service, alias, target)
  {
    if routes == [] then None
    else
      var n := |routes| - 1;
      assert forall k :: 0 <= k < |routes| ==> k == n || routes[k] == routes[..n][k];
      if routes[n].Serves(service, alias, target) then Some(routes[n])
      else LastServing(routes[..n], service, alias, target)
  }

  function SyncedDependency(d: CachedDependency, service: string, routes: seq<Route>): CachedDependency {
    match LastServing(routes, service, d.alias, d.target)
    case None => d
    case Some(route) => CachedRoute(d.alias, d.target, route)
  }

  /** The cache once every route of the list has been written through to the dependencies that it serves. */
  function SyncedCache(cache: map<string, ServiceRecord>, routes: seq<Route>): map<string, ServiceRecord> {
    map s | s in cache ::
      cache[s].(dependencies :=
        seq(|cache[s].dependencies|, k requires 0 <= k < |cache[s].dependencies| =>
          SyncedDependency(cache[s].dependencies[k], s, routes)))
  }

  predicate OnLink(route: Route, key: string) {
    route.kind == MeshPrivate && route.LinkKey() == key
  }

  function CountOnLink(routes: seq<Route>, key: string): nat {
    if routes == [] then 0
    else CountOnLink(routes[..|routes| - 1], key) + (if OnLink(routes[|routes| - 1], key) then 1 else 0)
  }

  predicate LinkHas(routes: seq<Route>, key: string, status: RouteStatus) {
    exists k :: 0 <= k < |routes| && OnLink(routes[k], key) && routes[k].status == status
  }

  /** The worst status on a link: any blocked route makes it unavailable, else any degraded route degrades it. */
  function JoinedStatus(routes: seq<Route>, key: string): RouteStatus {
    if LinkHas(routes, key, Blocked) || LinkHas(routes, key, Unavailable) then Unavailable
    else if LinkHas(routes, key, RouteDegraded) then RouteDegraded
    else Verified
  }

  function LinkKeys(routes: seq<Route>): set<string> {
    set k | 0 <= k < |routes| && routes[k].kind == MeshPrivate :: routes[k].LinkKey()
  }

  function LinksOf(routes: seq<Route>, provider: Provider): map<string, LinkHealth> {
    map key | key in LinkKeys(routes) ::
      var status := JoinedStatus(routes, key);
      LinkHealth(provider, status, status == Verified, true, CountOnLink(routes, key))
  }

  // ---------------------------------------------------------------- health

  function CountPeers(peers: seq<Peer>, state: PeerState): nat {
    if peers == [] then 0
    else CountPeers(peers[..|peers| - 1], state) + (if peers[|peers| - 1].state == state then 1 else 0)
  }

  datatype RouteClass = ClassVerified | ClassDegraded | ClassBlocked | ClassPending

  function ClassOf(status: RouteStatus): RouteClass {
    match status
    case Verified | LocalVerified | RouteActive => ClassVerified
    case RouteDegraded => ClassDegraded
    case Blocked | Unavailable => ClassBlocked
    case RoutePlanned => ClassPending
  }

  function CountClass(routes: seq<Route>, c: RouteClass): nat {
    if routes == [] then 0
    else CountClass(routes[..|routes| - 1], c) + (if ClassOf(routes[|routes| - 1].status) == c then 1 else 0)
  }

  function CountPrivate(routes: seq<Route>): nat {
    if routes == [] then 0
    else CountPrivate(routes[..|routes| - 1]) + (if routes[|routes| - 1].kind == MeshPrivate then 1 else 0)
  }

  lemma {:induction false} CountsFit(peers: seq<Peer>, routes: seq<Route>)
    ensures CountPeers(peers, Active) + CountPeers(peers, Degraded) <= |peers|
    ensures CountPrivate(routes) <= |routes|
    decreases |peers| + |routes|
  {
    if peers != [] {
      CountsFit(peers[..|peers| - 1], routes);
    } else if routes != [] {
      CountsFit(peers, routes[..|routes| - 1]);
    }
  }

  function HealthOf(peers: seq<Peer>, routes: seq<Route>): Health {
    CountsFit(peers, routes);
    var active, degraded := CountPeers(peers, Active), CountPeers(peers, Degraded);
    var planned := |peers| - active - degraded;
    var degradedRoutes, blocked := CountClass(routes, ClassDegraded), CountClass(routes, ClassBlocked);
    Health(
      if blocked > 0 || degradedRoutes > 0 || degraded > 0 then HealthDegraded
      else if planned > 0 then HealthPlanning
      else if |peers| == 0 then HealthDisabled
      else HealthActive,
      |peers|, active, planned, degraded, |routes|, CountPrivate(routes), |routes| - CountPrivate(routes),
      CountClass(routes, ClassVerified), degradedRoutes, blocked)
  }

  // ---------------------------------------------------------------- synchronised files

  function Synced(live: Live): Live {
    var routes := SyncedRoutes(IndexPeers(live.peers), WireGuard, live.routes);
    live.(routes := routes, health := HealthOf(live.peers, routes))
  }

  function SyncedFile(cache: CacheFile, routes: seq<Route>): CacheFile {
    cache.(services := SyncedCache(cache.services, routes), fingerprint := FingerprintOf(routes))
  }

  function Ensured(live: Live, filter: PeerFilter, desired: PeerState): Live {
    var peers := EnsuredPeers(live.peers, filter, desired);
    live.(peers := peers, health := HealthOf(peers, live.routes))
  }

  // ---------------------------------------------------------------- commands

  /**
   A command writes its files one after the other; `written` counts the writes that succeed before one fails.
   A build writes two copies into the workspace, then live state and cache; an ensure writes live state, cache
   and two signal files; a sync writes live state, cache, report, links and four files more.
   */
  datatype Command =
    | BuildFoundation(topology: Topology, meshMode: bool, written: nat)
    | EnsurePeer(
        meshMode: bool, provider: Provider, filter: PeerFilter, desired: Option<PeerState>, broken: set<string>,
        written: nat)
    | SyncRoutes(meshMode: bool, provider: Provider, written: nat)

  datatype Refusal =
    | ModeDisabled
    | ProviderReserved
    | ProviderUnsupported
    | LiveStateMissing
    | CacheMissing
    | InvalidState
    | PeerFailed
    | WriteFailed

  datatype Outcome = Done | Refused(why: Refusal)

  datatype Reply = Reply(state: State, outcome: Outcome)

  predicate ProviderOk(p: Provider) {
    p == NoProvider || p == WireGuard
  }

  function Written(written: nat, all: nat): Outcome {
    if written >= all then Done else Refused(WriteFailed)
  }

  predicate AnyBroken(peers: seq<Peer>, filter: PeerFilter, broken: set<string>) {
    exists k :: 0 <= k < |peers| && filter.Matches(peers[k]) && peers[k].ref in broken
  }

  /** Why a command is turned away before it writes anything. */
  function Objection(s: State, c: Command): Option<Refusal> {
    match c
    case BuildFoundation(_, _, _) => None
    case EnsurePeer(meshMode, provider, filter, desired, broken, _) =>
      if !meshMode then Some(ModeDisabled)
      else if !ProviderOk(provider) then Some(ProviderUnsupported)
      else if s.live.None? then Some(LiveStateMissing)
      else if s.cache.None? then Some(Refusal.CacheMissing)
      else if desired.None? then Some(InvalidState)
      else if AnyBroken(s.live.value.peers, filter, broken) then Some(PeerFailed)
      else None
    case SyncRoutes(meshMode, provider, _) =>
      if !meshMode then Some(ModeDisabled)
      else if provider == Tailscale then Some(ProviderReserved)
      else if !ProviderOk(provider) then Some(ProviderUnsupported)
      else if s.live.None? then Some(LiveStateMissing)
      else if s.cache.None? then Some(Refusal.CacheMissing)
      else None
  }

  function Step(s: State, c: Command): Reply {
    if Objection(s, c).Some? then Reply(s, Refused(Objection(s, c).value))
    else
      match c
      case BuildFoundation(t, meshMode, written) =>
        if !meshMode then Reply(s, Done)
        else
          Reply(
            s.(live := if written >= 3 then Some(Foundation(t)) else s.live,
               cache := if written >= 4 then Some(FoundationCache(t)) else s.cache),
            Written(written, 4))
      case EnsurePeer(_, _, filter, desired, _, written) =>
        Reply(
          s.(live := if written >= 1 then Some(Ensured(s.live.value, filter, desired.value)) else s.live),
          Written(written, 4))
      case SyncRoutes(_, _, written) =>
        var synced := Synced(s.live.value);
        Reply(
          State(
            if written >= 1 then Some(synced) else s.live,
            if written >= 2 then Some(SyncedFile(s.cache.value, synced.routes)) else s.cache,
            if written >= 3 then Some(synced.routes) else s.report,
            if written >= 4 then Some(LinksOf(synced.routes, WireGuard)) else s.links),
          Written(written, 8))
  }
}
