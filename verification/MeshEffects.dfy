/**
 What the mesh commands do to peers, routes, cache and counts, said of the files before and after, and what a whole
 build, ensure and sync leads to.
 */
module MeshEffects {
  import opened Text
  import opened Digests
  import opened Mesh
  import opened MeshLaws
  import opened MeshHealth
  import opened MeshResolution

  // ---------------------------------------------------------------- ensuring peers

  /** Whether an ensure with these filter fields addresses a peer: it is remote, and no filter field differs. */
  predicate Addresses(ref: string, targetId: string, kind: string, peer: Peer) {
    && !peer.isLocal
    && (ref != "" ==> peer.ref == ref)
    && (targetId != "" ==> peer.placement.targetId == targetId)
    && (kind != "" ==> peer.placement.kind == kind)
  }

  predicate AsksForRemoval(desired: PeerState) {
    desired == Leaving || desired == Removed
  }

  /**
   An ensure that writes its first file leaves every addressed peer removed if removal was asked, and active otherwise.
   Local and other peers, routes, cache and report stay as they were.
   */
  lemma EnsureSetsExactlyTheAddressed(
    s: State, meshMode: bool, provider: Provider, ref: string, targetId: string, kind: string, desired: PeerState,
    broken: set<string>, written: nat)
    requires var c := EnsurePeer(meshMode, provider, PeerFilter(ref, targetId, kind), Some(desired), broken, written);
             written >= 1 && Step(s, c).outcome in {Done, Refused(WriteFailed)}
    ensures var c := EnsurePeer(meshMode, provider, PeerFilter(ref, targetId, kind), Some(desired), broken, written);
            var after := Step(s, c).state;
            && s.live.Some? && after.live.Some?
            && |after.live.value.peers| == |s.live.value.peers|
            && (forall k :: 0 <= k < |s.live.value.peers| ==>
                  var peer := s.live.value.peers[k];
                  after.live.value.peers[k] ==
                  if !Addresses(ref, targetId, kind, peer) then peer
                  else if AsksForRemoval(desired) then peer.(state := Removed) else peer.(state := Active))
            && after.live.value.routes == s.live.value.routes
            && after.cache == s.cache && after.report == s.report && after.links == s.links
  {
    var filter := PeerFilter(ref, targetId, kind);
    EnsureIsUnrefused(s, EnsurePeer(meshMode, provider, filter, Some(desired), broken, written));
  }

  lemma EnsureIsUnrefused(s: State, c: Command)
    requires c.EnsurePeer? && Step(s, c).outcome in {Done, Refused(WriteFailed)}
    ensures Objection(s, c).None? && s.live.Some?
  {
  }

  // ---------------------------------------------------------------- when a command is turned away

  /** Some addressed peer cannot be set up or torn down. */
  predicate AddressesBroken(peers: seq<Peer>, filter: PeerFilter, broken: set<string>) {
    exists p :: p in peers && p.ref in broken && Addresses(filter.ref, filter.targetId, filter.kind, p)
  }

  /** The reasons for which an ensure is turned away, each exactly when it holds and no earlier one does. */
  lemma EnsureRefusesExactlyWhen(s: State, c: Command)
    requires c.EnsurePeer?
    ensures var outcome, unsupported := Step(s, c).outcome, c.provider in {Tailscale, OtherProvider};
            var broken := s.live.Some? && AddressesBroken(s.live.value.peers, c.filter, c.broken);
            && (outcome == Refused(ModeDisabled) <==> !c.meshMode)
            && (outcome == Refused(ProviderUnsupported) <==> c.meshMode && unsupported)
            && (outcome == Refused(LiveStateMissing) <==> c.meshMode && !unsupported && s.live.None?)
            && (outcome == Refused(Refusal.CacheMissing) <==>
                  c.meshMode && !unsupported && s.live.Some? && s.cache.None?)
            && (outcome == Refused(InvalidState) <==>
                  c.meshMode && !unsupported && s.live.Some? && s.cache.Some? && c.desired.None?)
            && (outcome == Refused(PeerFailed) <==>
                  c.meshMode && !unsupported && s.live.Some? && s.cache.Some? && c.desired.Some? && broken)
            && (outcome == Done <==>
                  && c.meshMode && !unsupported && s.live.Some? && s.cache.Some? && c.desired.Some? && !broken
                  && c.written >= 4)
            && (outcome !in {Done, Refused(WriteFailed)} ==> Step(s, c).state == s)
  {
    if s.live.Some? {
      var peers := s.live.value.peers;
      forall k | 0 <= k < |peers|
        ensures c.filter.Matches(peers[k]) <==> Addresses(c.filter.ref, c.filter.targetId, c.filter.kind, peers[k])
      {
      }
    }
  }

  /** The same for a sync; tailscale is reserved rather than unsupported. */
  lemma SyncRefusesExactlyWhen(s: State, c: Command)
    requires c.SyncRoutes?
    ensures var outcome, usable := Step(s, c).outcome, c.provider in {NoProvider, WireGuard};
            && (outcome == Refused(ModeDisabled) <==> !c.meshMode)
            && (outcome == Refused(ProviderReserved) <==> c.meshMode && c.provider == Tailscale)
            && (outcome == Refused(ProviderUnsupported) <==> c.meshMode && c.provider == OtherProvider)
            && (outcome == Refused(LiveStateMissing) <==> c.meshMode && usable && s.live.None?)
            && (outcome == Refused(Refusal.CacheMissing) <==> c.meshMode && usable && s.live.Some? && s.cache.None?)
            && (outcome == Done <==> c.meshMode && usable && s.live.Some? && s.cache.Some? && c.written >= 8)
            && (outcome !in {Done, Refused(WriteFailed)} ==> Step(s, c).state == s)
  {
  }

  // ---------------------------------------------------------------- what a build lays down

  /** Where a service is placed: by the revision's overlay, else as it declares, else where the binding is. */
  predicate PlacedAt(t: Topology, name: string, declared: Option<Placement>, p: Placement) {
    && (name in t.placements ==> p == t.placements[name])
    && (name !in t.placements && declared.Some? ==> p == declared.value)
    && (name !in t.placements && declared.None? ==> p.kind == t.binding.kind && p.targetId == t.binding.targetId)
  }

  /** The name of a peer: the kind, a colon and the target, or `unknown` for a blank target. */
  predicate Named(p: Placement, ref: string) {
    |ref| > |p.kind| && ref[..|p.kind|] == p.kind && ref[|p.kind|] == ':'
    && ref[|p.kind| + 1..] == if Trim(p.targetId) == "" then "unknown" else p.targetId
  }

  lemma RefsAreNamed(p: Placement)
    ensures Named(p, PeerRef(p)) && forall ref :: Named(p, ref) ==> ref == PeerRef(p)
  {
    var ref := PeerRef(p);
    assert FirstNonEmpty([p.targetId, "unknown"]) == if Trim(p.targetId) == "" then "unknown" else p.targetId by {
      assert Trim("unknown") == "unknown";
      assert [p.targetId, "unknown"][1..] == ["unknown"];
    }
    forall other | Named(p, other) ensures other == ref {
      assert other == other[..|p.kind|] + [other[|p.kind|]] + other[|p.kind| + 1..];
    }
  }

  /** Service k is the first of its name. */
  predicate FirstOfName(services: seq<Service>, k: nat) {
    k < |services| && forall j :: 0 <= j < k ==> services[j].name != services[k].name
  }

  /** The declaration that counts for a name is that of the first service with the name, if any. */
  lemma {:induction false} FirstDeclaration(services: seq<Service>, k: nat)
    requires FirstOfName(services, k)
    ensures DeclaredPlacement(services, services[k].name) == services[k].placement
  {
    if k > 0 {
      FirstInTail(services, k);
      FirstDeclaration(services[1..], k - 1);
    }
  }

  lemma FirstInTail(services: seq<Service>, k: nat)
    requires FirstOfName(services, k) && k > 0
    ensures FirstOfName(services[1..], k - 1) && services[1..][k - 1] == services[k]
    ensures services[0].name != services[k].name
  {
  }

  lemma {:induction false} NoDeclaration(services: seq<Service>, name: string)
    requires forall k :: 0 <= k < |services| ==> services[k].name != name
    ensures DeclaredPlacement(services, name) == None
  {
    if services != [] {
      NoDeclaration(services[1..], name);
    }
  }

  /** What a build makes of a dependency whose ends are placed at source and target. */
  predicate FreshRoute(route: Route, name: string, d: Dependency, source: Placement, target: Placement) {
    && route.origin.service == name && route.origin.dependency == d
    && Named(source, route.sourcePeer) && Named(target, route.targetPeer)
    && !route.verified && route.provider == NoProvider
    && (if route.sourcePeer == route.targetPeer
        then route.kind == LocalPath && route.status == RouteActive && !route.privateOnly && !route.fallbackBlocked
        else route.kind == MeshPrivate && route.status == RoutePlanned && route.privateOnly && route.fallbackBlocked)
  }

  /**
   After a build every dependency of every service has its route, from the service's placement to that of its target:
   local and active if both have one name, else private and planned with the public fallback blocked. There is no
   other route.
   */
  lemma BuildLaysEveryRoute(
    s: State, t: Topology, written: nat, i: nat, j: nat, source: Placement, target: Placement)
    requires written >= 3 && i < |t.services| && j < |t.services[i].dependencies|
    requires PlacedAt(t, t.services[i].name, t.services[i].placement, source)
    requires var name := t.services[i].dependencies[j].target;
             PlacedAt(t, name, DeclaredPlacement(t.services, name), target)
    ensures exists k :: 0 <= k < |Step(s, BuildFoundation(t, true, written)).state.live.value.routes|
              && FreshRoute(Step(s, BuildFoundation(t, true, written)).state.live.value.routes[k],
                            t.services[i].name, t.services[i].dependencies[j], source, target)
  {
    var service, d := t.services[i], t.services[i].dependencies[j];
    var routes := Step(s, BuildFoundation(t, true, written)).state.live.value.routes;
    RoutesComeFrom(t, |t.services|);
    RefsAreNamed(source);
    RefsAreNamed(target);
    assert source == SourceOf(t, service) && target == TargetOf(t, d.target);
    var k :| 0 <= k < |routes| && routes[k] == FirstRoute(t, service, d);
    assert FreshRoute(routes[k], service.name, d, source, target);
  }

  function Dependencies(t: Topology, n: nat): nat
    requires n <= |t.services|
  {
    if n == 0 then 0 else Dependencies(t, n - 1) + |t.services[n - 1].dependencies|
  }

  lemma {:induction false} OneRouteEach(t: Topology, n: nat)
    requires n <= |t.services|
    ensures |FirstRoutes(t, n)| == Dependencies(t, n)
  {
    if n > 0 {
      OneRouteEach(t, n - 1);
    }
  }

  /** One local peer, the first and the only active one; all others are remote and planned; no name twice. */
  predicate FreshPeers(peers: seq<Peer>) {
    && |peers| > 0
    && (forall k :: 0 <= k < |peers| ==> Named(peers[k].placement, peers[k].ref))
    && (forall k :: 0 <= k < |peers| ==> peers[k].isLocal == (k == 0))
    && (forall k :: 0 <= k < |peers| ==> peers[k].state == if k == 0 then Active else Planned)
    && DistinctRefs(peers)
  }

  predicate DistinctRefs(peers: seq<Peer>) {
    forall j, k :: 0 <= j < k < |peers| ==> peers[j].ref != peers[k].ref
  }

  lemma WithPeerFresh(peers: seq<Peer>, p: Placement)
    requires FreshPeers(peers)
    ensures FreshPeers(WithPeer(peers, p)) && WithPeer(peers, p)[0] == peers[0]
  {
    RefsAreNamed(p);
    var grown := WithPeer(peers, p);
    if !KnowsPeer(peers, PeerRef(p)) {
      forall j, k | 0 <= j < k < |grown| ensures grown[j].ref != grown[k].ref {
        assert peers[j].ref != PeerRef(p);
      }
    }
  }

  lemma {:induction false} WithTargetsFresh(peers: seq<Peer>, t: Topology, service: Service, n: nat)
    requires n <= |service.dependencies| && FreshPeers(peers)
    ensures FreshPeers(WithTargets(peers, t, service, n)) && WithTargets(peers, t, service, n)[0] == peers[0]
  {
    if n == 0 {
      WithPeerFresh(peers, SourceOf(t, service));
    } else {
      WithTargetsFresh(peers, t, service, n - 1);
      WithPeerFresh(WithTargets(peers, t, service, n - 1), TargetOf(t, service.dependencies[n - 1].target));
    }
  }

  /** The local target is the first of target, target reference and project that is not blank. */
  predicate LocalTarget(b: Binding, targetId: string) {
    targetId ==
      if Trim(b.targetId) != "" then b.targetId
      else if Trim(b.targetRef) != "" then b.targetRef
      else if Trim(b.projectId) != "" then b.projectId else ""
  }

  lemma LocalPlacementIsFound(b: Binding)
    ensures LocalPlacement(b).kind == b.kind && LocalTarget(b, LocalPlacement(b).targetId)
  {
    FirstOrNext(b.targetId, [b.targetRef, b.projectId]);
    FirstOrNext(b.targetRef, [b.projectId]);
    FirstOrNext(b.projectId, []);
    assert [b.projectId] + [] == [b.projectId];
    assert [b.targetRef] + [b.projectId] == [b.targetRef, b.projectId];
    assert [b.targetId] + [b.targetRef, b.projectId] == [b.targetId, b.targetRef, b.projectId];
  }

  lemma {:induction false} FirstPeersFresh(t: Topology, n: nat)
    requires n <= |t.services|
    ensures FreshPeers(FirstPeers(t, n)) && FirstPeers(t, n)[0].placement == LocalPlacement(t.binding)
  {
    if n == 0 {
      RefsAreNamed(LocalPlacement(t.binding));
    } else {
      FirstPeersFresh(t, n - 1);
      WithTargetsFresh(FirstPeers(t, n - 1), t, t.services[n - 1], |t.services[n - 1].dependencies|);
      NextPeers(t, n);
    }
  }

  /** After a build the first peer is the local one, where the binding is; every end of a route is listed once. */
  lemma BuildListsPeers(s: State, t: Topology, written: nat)
    requires written >= 3 && DistinctNames(t.services)
    ensures var live := Step(s, BuildFoundation(t, true, written)).state.live.value;
            && FreshPeers(live.peers)
            && live.peers[0].placement.kind == t.binding.kind
            && LocalTarget(t.binding, live.peers[0].placement.targetId)
            && PeersKnown(live)
            && |live.routes| == Dependencies(t, |t.services|)
  {
    FirstPeersFresh(t, |t.services|);
    LocalPlacementIsFound(t.binding);
    FoundationKeepsInv(t);
    OneRouteEach(t, |t.services|);
  }

  /** A build writes two copies, the live state and the cache, in this order; outside mesh mode it writes nothing. */
  lemma BuildWritesInOrder(s: State, t: Topology, meshMode: bool, written: nat)
    ensures var reply := Step(s, BuildFoundation(t, meshMode, written));
            && (reply.outcome == Done <==> !meshMode || written >= 4)
            && (!meshMode ==> reply.state == s)
            && (written < 3 ==> reply.state.live == s.live) && (written < 4 ==> reply.state.cache == s.cache)
            && (meshMode && written >= 3 ==> reply.state.live.Some?)
            && (meshMode && written >= 4 ==> reply.state.cache.Some?)
            && reply.state.report == s.report && reply.state.links == s.links
  {
  }

  // ---------------------------------------------------------------- from a build to verified routes

  /** Of two peers with one name the later one counts. */
  lemma {:induction false} LastPeerCounts(peers: seq<Peer>, k: nat)
    requires k < |peers| && forall j :: k < j < |peers| ==> peers[j].ref != peers[k].ref
    ensures peers[k].ref in IndexPeers(peers) && IndexPeers(peers)[peers[k].ref] == peers[k]
  {
    var n := |peers| - 1;
    if k < n {
      LastPeerCounts(peers[..n], k);
      assert peers[n].ref != peers[k].ref;
    }
  }

  lemma StateOfListed(peers: seq<Peer>, k: nat)
    requires DistinctRefs(peers) && k < |peers|
    ensures StateOf(IndexPeers(peers), peers[k].ref) == Some(peers[k].state)
  {
    LastPeerCounts(peers, k);
  }

  /** The peer of that name is local, or an ensure with this filter and desired state makes it active. */
  predicate Reachable(peers: seq<Peer>, name: string, filter: PeerFilter, desired: PeerState) {
    exists k :: 0 <= k < |peers| && peers[k].ref == name
      && (peers[k].isLocal
          || (!AsksForRemoval(desired) && Addresses(filter.ref, filter.targetId, filter.kind, peers[k])))
  }

  /** Every write succeeds: build t, ensure peers, synchronise. */
  function BuildEnsureSync(t: Topology, filter: PeerFilter, desired: PeerState): seq<Command> {
    [BuildFoundation(t, true, 4), EnsurePeer(true, WireGuard, filter, Some(desired), {}, 4),
     SyncRoutes(true, WireGuard, 8)]
  }

  /** The peers after an ensure, addressed and others. */
  predicate EnsuredAs(before: seq<Peer>, after: seq<Peer>, filter: PeerFilter, desired: PeerState) {
    |after| == |before|
    && forall k :: 0 <= k < |before| ==>
         after[k] == if !Addresses(filter.ref, filter.targetId, filter.kind, before[k]) then before[k]
                     else if AsksForRemoval(desired) then before[k].(state := Removed)
                     else before[k].(state := Active)
  }

  lemma RefsStayDistinct(before: seq<Peer>, after: seq<Peer>, filter: PeerFilter, desired: PeerState)
    requires DistinctRefs(before) && EnsuredAs(before, after, filter, desired)
    ensures DistinctRefs(after)
  {
    assert forall k :: 0 <= k < |before| ==> after[k].ref == before[k].ref;
  }

  lemma OnlyPeerOfThatName(peers: seq<Peer>, k: nat, filter: PeerFilter, desired: PeerState)
    requires DistinctRefs(peers) && k < |peers|
    ensures Reachable(peers, peers[k].ref, filter, desired) <==>
              peers[k].isLocal
              || (!AsksForRemoval(desired) && Addresses(filter.ref, filter.targetId, filter.kind, peers[k]))
  {
    forall j | 0 <= j < |peers| && peers[j].ref == peers[k].ref ensures j == k {
    }
  }

  lemma ActiveAfter(before: seq<Peer>, after: seq<Peer>, k: nat, filter: PeerFilter, desired: PeerState)
    requires FreshPeers(before) && EnsuredAs(before, after, filter, desired) && k < |before|
    ensures after[k].ref == before[k].ref
    ensures after[k].state == Active <==>
              before[k].isLocal
              || (!AsksForRemoval(desired) && Addresses(filter.ref, filter.targetId, filter.kind, before[k]))
  {
  }

  lemma EndActive(before: seq<Peer>, after: seq<Peer>, name: string, filter: PeerFilter, desired: PeerState)
    requires FreshPeers(before) && KnowsPeer(before, name) && EnsuredAs(before, after, filter, desired)
    ensures StateOf(IndexPeers(after), name) == Some(Active) <==> Reachable(before, name, filter, desired)
  {
    var k :| 0 <= k < |before| && before[k].ref == name;
    RefsStayDistinct(before, after, filter, desired);
    ActiveAfter(before, after, k, filter, desired);
    OnlyPeerOfThatName(before, k, filter, desired);
    StateOfListed(after, k);
  }

  lemma RunSnoc(cmds: seq<Command>, c: Command)
    ensures Run(cmds + [c]) == Step(Run(cmds), c).state
  {
    assert (cmds + [c])[..|cmds + [c]| - 1] == cmds;
  }

  lemma BuildEffect(s: State, t: Topology)
    ensures var built := Step(s, BuildFoundation(t, true, 4)).state;
            built.live == Some(Foundation(t)) && built.cache.Some?
  {
  }

  lemma EnsureEffect(s: State, filter: PeerFilter, desired: PeerState)
    requires s.live.Some? && s.cache.Some?
    ensures var ensured := Step(s, EnsurePeer(true, WireGuard, filter, Some(desired), {}, 4)).state;
            ensured.live == Some(Ensured(s.live.value, filter, desired)) && ensured.cache.Some?
  {
    assert !AnyBroken(s.live.value.peers, filter, {});
  }

  lemma SyncEffect(s: State)
    requires s.live.Some? && s.cache.Some?
    ensures Step(s, SyncRoutes(true, WireGuard, 8)).state.live == Some(Synced(s.live.value))
  {
  }

  /** What the three commands leave of the route table, whatever was there before. */
  lemma BuiltEnsuredSynced(cmds: seq<Command>, t: Topology, filter: PeerFilter, desired: PeerState)
    ensures Run(cmds + BuildEnsureSync(t, filter, desired)).live
         == Some(Synced(Ensured(Foundation(t), filter, desired)))
  {
    var c := BuildEnsureSync(t, filter, desired);
    RunSnoc(cmds, c[0]);
    RunSnoc(cmds + [c[0]], c[1]);
    RunSnoc(cmds + [c[0]] + [c[1]], c[2]);
    assert cmds + [c[0]] + [c[1]] + [c[2]] == cmds + c;
    BuildEffect(Run(cmds), t);
    EnsureEffect(Run(cmds + [c[0]]), filter, desired);
    SyncEffect(Run(cmds + [c[0]] + [c[1]]));
  }

  lemma PeersAreEnsured(live: Live, filter: PeerFilter, desired: PeerState)
    ensures EnsuredAs(live.peers, Ensured(live, filter, desired).peers, filter, desired)
    ensures Ensured(live, filter, desired).routes == live.routes
  {
  }

  /**
   After build, ensure and sync a private route is verified exactly when each of its peers is local or was addressed
   by an ensure that did not ask for removal, and blocked otherwise; a local route always is verified.
   */
  lemma VerifiedExactlyWhenReachable(
    cmds: seq<Command>, t: Topology, filter: PeerFilter, desired: PeerState, k: nat)
    requires DistinctNames(t.services) && k < Dependencies(t, |t.services|)
    ensures var built := Step(Run(cmds), BuildFoundation(t, true, 4)).state.live.value;
            var s := Run(cmds + BuildEnsureSync(t, filter, desired));
            && s.live.Some? && |s.live.value.routes| == |built.routes| == Dependencies(t, |t.services|)
            && Fixed(s.live.value.routes[k], built.routes[k])
            && (built.routes[k].kind == LocalPath ==> s.live.value.routes[k].status == LocalVerified)
            && (built.routes[k].kind == MeshPrivate ==>
                  s.live.value.routes[k].status ==
                  if Reachable(built.peers, built.routes[k].sourcePeer, filter, desired)
                     && Reachable(built.peers, built.routes[k].targetPeer, filter, desired)
                  then Verified else Blocked)
  {
    BuildListsPeers(Run(cmds), t, 4);
    BuiltEnsuredSynced(cmds, t, filter, desired);
    FoundationKeepsInv(t);
    SyncedAsReachable(Foundation(t), filter, desired, k);
  }

  lemma SyncedAsReachable(built: Live, filter: PeerFilter, desired: PeerState, k: nat)
    requires LiveInv(built) && FreshPeers(built.peers) && k < |built.routes|
    ensures var synced := Synced(Ensured(built, filter, desired));
            && |synced.routes| == |built.routes| && Fixed(synced.routes[k], built.routes[k])
            && (built.routes[k].kind == LocalPath ==> synced.routes[k].status == LocalVerified)
            && (built.routes[k].kind == MeshPrivate ==>
                  synced.routes[k].status ==
                  if Reachable(built.peers, built.routes[k].sourcePeer, filter, desired)
                     && Reachable(built.peers, built.routes[k].targetPeer, filter, desired)
                  then Verified else Blocked)
  {
    var ensured := Ensured(built, filter, desired);
    EnsureKeepsInv(built, filter, desired);
    PeersAreEnsured(built, filter, desired);
    SyncedAlike(ensured);
    SyncedByPeers(ensured, k);
    EndActive(built.peers, ensured.peers, built.routes[k].sourcePeer, filter, desired);
    EndActive(built.peers, ensured.peers, built.routes[k].targetPeer, filter, desired);
  }

  const EVERY_PEER := PeerFilter("", "", "")

  lemma AllReachable(peers: seq<Peer>, name: string)
    requires KnowsPeer(peers, name)
    ensures Reachable(peers, name, EVERY_PEER, Active)
  {
    var k :| 0 <= k < |peers| && peers[k].ref == name;
    assert peers[k].isLocal || Addresses("", "", "", peers[k]);
  }

  predicate EveryPeerActive(live: Live) {
    forall k :: 0 <= k < |live.peers| ==> live.peers[k].state == Active
  }

  predicate EveryRouteVerified(live: Live) {
    forall k :: 0 <= k < |live.routes| ==>
      live.routes[k].status == if live.routes[k].kind == LocalPath then LocalVerified else Verified
  }

  lemma EnsuredActive(built: Live)
    requires FreshPeers(built.peers)
    ensures EveryPeerActive(Synced(Ensured(built, EVERY_PEER, Active)))
  {
    PeersAreEnsured(built, EVERY_PEER, Active);
    var peers := Ensured(built, EVERY_PEER, Active).peers;
    forall k | 0 <= k < |peers| ensures peers[k].state == Active {
      assert k > 0 ==> Addresses("", "", "", built.peers[k]);
    }
  }

  lemma SyncedVerified(built: Live)
    requires LiveInv(built) && FreshPeers(built.peers)
    ensures EveryRouteVerified(Synced(Ensured(built, EVERY_PEER, Active)))
  {
    var synced := Synced(Ensured(built, EVERY_PEER, Active));
    forall k | 0 <= k < |synced.routes|
      ensures synced.routes[k].status == if synced.routes[k].kind == LocalPath then LocalVerified else Verified
    {
      PeersAreEnsured(built, EVERY_PEER, Active);
      AllReachable(built.peers, built.routes[k].sourcePeer);
      AllReachable(built.peers, built.routes[k].targetPeer);
      SyncedAsReachable(built, EVERY_PEER, Active, k);
    }
  }

  lemma VerifiedMeansActive(live: Live)
    requires live.peers != [] && EveryPeerActive(live) && EveryRouteVerified(live)
    requires live.health == HealthOf(live.peers, live.routes)
    ensures live.health.status == HealthActive
  {
    ClassCountZero(live.routes, ClassDegraded);
    ClassCountZero(live.routes, ClassBlocked);
    AllPeersActive(live.peers);
    CountsFit(live.peers, live.routes);
  }

  /**
   Build, ensure every peer active and synchronise: all peers are active, every route is verified, and the mesh is
   active.
   */
  lemma BuildEnsureSyncIsActive(cmds: seq<Command>, t: Topology)
    requires DistinctNames(t.services)
    ensures var live := Run(cmds + BuildEnsureSync(t, EVERY_PEER, Active)).live;
            && live.Some? && EveryPeerActive(live.value) && EveryRouteVerified(live.value)
            && live.value.health.status == HealthActive
  {
    BuildListsPeers(Run(cmds), t, 4);
    BuiltEnsuredSynced(cmds, t, EVERY_PEER, Active);
    FoundationKeepsInv(t);
    EnsuredActive(Foundation(t));
    SyncedVerified(Foundation(t));
    VerifiedMeansActive(Synced(Ensured(Foundation(t), EVERY_PEER, Active)));
  }

  lemma NotBothReachable(peers: seq<Peer>, a: string, b: string)
    requires FreshPeers(peers) && a != b
    ensures !Reachable(peers, a, EVERY_PEER, Removed) || !Reachable(peers, b, EVERY_PEER, Removed)
  {
  }

  lemma BlockedMeansDegraded(live: Live, k: nat)
    requires live.health == HealthOf(live.peers, live.routes)
    requires k < |live.routes| && live.routes[k].status == Blocked
    ensures live.health.status == HealthDegraded
  {
    ClassCountZero(live.routes, ClassBlocked);
    assert ClassOf(live.routes[k].status) == ClassBlocked;
  }

  lemma SyncedBlocked(built: Live, k: nat)
    requires LiveInv(built) && FreshPeers(built.peers) && k < |built.routes| && built.routes[k].kind == MeshPrivate
    ensures var synced := Synced(Ensured(built, EVERY_PEER, Removed));
            && |synced.routes| == |built.routes| && synced.routes[k].status == Blocked
            && synced.health.status == HealthDegraded
  {
    SyncedAsReachable(built, EVERY_PEER, Removed, k);
    NotBothReachable(built.peers, built.routes[k].sourcePeer, built.routes[k].targetPeer);
    BlockedMeansDegraded(Synced(Ensured(built, EVERY_PEER, Removed)), k);
  }

  /** Ensuring the removal of every peer instead blocks every private route, so with one the mesh is degraded. */
  lemma BuildRemoveSyncIsBlocked(cmds: seq<Command>, t: Topology, k: nat)
    requires DistinctNames(t.services)
    requires var built := Step(Run(cmds), BuildFoundation(t, true, 4)).state.live.value;
             k < |built.routes| && built.routes[k].kind == MeshPrivate
    ensures var live := Run(cmds + BuildEnsureSync(t, EVERY_PEER, Removed)).live;
            && live.Some? && k < |live.value.routes| && live.value.routes[k].status == Blocked
            && live.value.health.status == HealthDegraded
  {
    BuildListsPeers(Run(cmds), t, 4);
    BuiltEnsuredSynced(cmds, t, EVERY_PEER, Removed);
    FoundationKeepsInv(t);
    SyncedBlocked(Foundation(t), k);
  }

  // ---------------------------------------------------------------- health, counted

  function PeersIn(peers: seq<Peer>, state: PeerState): set<int> {
    set k | 0 <= k < |peers| && peers[k].state == state
  }

  function RoutesIn(routes: seq<Route>, statuses: set<RouteStatus>): set<int> {
    set k | 0 <= k < |routes| && routes[k].status in statuses
  }

  function RoutesOfKind(routes: seq<Route>, kind: PathKind): set<int> {
    set k | 0 <= k < |routes| && routes[k].kind == kind
  }

  lemma {:induction false} PeersCounted(peers: seq<Peer>, state: PeerState)
    ensures CountPeers(peers, state) == |PeersIn(peers, state)|
  {
    if peers != [] {
      var n := |peers| - 1;
      PeersCounted(peers[..n], state);
      assert PeersIn(peers, state) == PeersIn(peers[..n], state) + if peers[n].state == state then {n} else {};
    }
  }

  lemma {:induction false} RoutesCounted(routes: seq<Route>, c: RouteClass, statuses: set<RouteStatus>)
    requires forall status :: status in statuses <==> ClassOf(status) == c
    ensures CountClass(routes, c) == |RoutesIn(routes, statuses)|
  {
    if routes != [] {
      var n := |routes| - 1;
      RoutesCounted(routes[..n], c, statuses);
      assert RoutesIn(routes, statuses)
          == RoutesIn(routes[..n], statuses) + if routes[n].status in statuses then {n} else {};
    }
  }

  lemma OneMoreOfKind(routes: seq<Route>, n: nat, kind: PathKind)
    requires |routes| == n + 1
    ensures |RoutesOfKind(routes, kind)| == |RoutesOfKind(routes[..n], kind)| + if routes[n].kind == kind then 1 else 0
  {
    assert RoutesOfKind(routes, kind)
        == RoutesOfKind(routes[..n], kind) + if routes[n].kind == kind then {n} else {};
  }

  lemma {:induction false} KindsCounted(routes: seq<Route>)
    ensures CountPrivate(routes) == |RoutesOfKind(routes, MeshPrivate)|
    ensures |routes| - CountPrivate(routes) == |RoutesOfKind(routes, LocalPath)|
  {
    if routes != [] {
      var n := |routes| - 1;
      KindsCounted(routes[..n]);
      OneMoreOfKind(routes, n, MeshPrivate);
      OneMoreOfKind(routes, n, LocalPath);
    }
  }

  lemma NoneIsEmpty<T>(s: set<T>)
    ensures |s| == 0 <==> s == {}
  {
  }

  /** Each number of the summary counts the peers or routes that it says. */
  predicate CountsRight(h: Health, peers: seq<Peer>, routes: seq<Route>) {
    && h.totalPeers == |peers| && h.totalRoutes == |routes|
    && h.activePeers == |PeersIn(peers, Active)|
    && h.degradedPeers == |PeersIn(peers, Degraded)|
    && h.plannedPeers == |peers| - |PeersIn(peers, Active)| - |PeersIn(peers, Degraded)|
    && h.privateRoutes == |RoutesOfKind(routes, MeshPrivate)|
    && h.localRoutes == |RoutesOfKind(routes, LocalPath)|
    && h.verifiedRoutes == |RoutesIn(routes, {Verified, LocalVerified, RouteActive})|
    && h.degradedRoutes == |RoutesIn(routes, {RouteDegraded})|
    && h.blockedRoutes == |RoutesIn(routes, {Blocked, Unavailable})|
  }

  lemma SummaryCounts(peers: seq<Peer>, routes: seq<Route>)
    ensures CountsRight(HealthOf(peers, routes), peers, routes)
  {
    PeersCounted(peers, Active);
    PeersCounted(peers, Degraded);
    KindsCounted(routes);
    RoutesCounted(routes, ClassVerified, {Verified, LocalVerified, RouteActive});
    RoutesCounted(routes, ClassDegraded, {RouteDegraded});
    RoutesCounted(routes, ClassBlocked, {Blocked, Unavailable});
  }

  predicate Ails(peers: seq<Peer>, routes: seq<Route>) {
    || (exists k :: 0 <= k < |peers| && peers[k].state == Degraded)
    || (exists k :: 0 <= k < |routes| && routes[k].status in {RouteDegraded, Blocked, Unavailable})
  }

  lemma SummaryStatus(peers: seq<Peer>, routes: seq<Route>)
    ensures var status, allActive := HealthOf(peers, routes).status, forall p :: p in peers ==> p.state == Active;
            && (status == HealthDegraded <==> Ails(peers, routes))
            && (status == HealthPlanning <==> !Ails(peers, routes) && !allActive)
            && (status == HealthDisabled <==> !Ails(peers, routes) && peers == [])
            && (status == HealthActive <==> !Ails(peers, routes) && peers != [] && allActive)
  {
    ClassCountZero(routes, ClassDegraded);
    ClassCountZero(routes, ClassBlocked);
    AllPeersActive(peers);
    PeersCounted(peers, Degraded);
    CountsFit(peers, routes);
    NoneIsEmpty(PeersIn(peers, Degraded));
    assert (exists k :: 0 <= k < |peers| && peers[k].state == Degraded) <==> PeersIn(peers, Degraded) != {} by {
      assert forall k :: k in PeersIn(peers, Degraded) <==> 0 <= k < |peers| && peers[k].state == Degraded;
    }
  }

  /**
   After every run the summary counts right; the mesh is degraded exactly if some peer or route is degraded, blocked
   or unavailable, else planning exactly if some peer is not active yet, else disabled without peers, else active.
   */
  lemma HealthTellsOfTheMesh(cmds: seq<Command>)
    requires AdmissibleRun(cmds) && Run(cmds).live.Some?
    ensures var live := Run(cmds).live.value;
            var status, allActive := live.health.status, forall p :: p in live.peers ==> p.state == Active;
            && CountsRight(live.health, live.peers, live.routes)
            && (status == HealthDegraded <==> Ails(live.peers, live.routes))
            && (status == HealthPlanning <==> !Ails(live.peers, live.routes) && !allActive)
            && (status == HealthDisabled <==> !Ails(live.peers, live.routes) && live.peers == [])
            && (status == HealthActive <==> !Ails(live.peers, live.routes) && live.peers != [] && allActive)
  {
    RunKeepsInv(cmds);
    var live := Run(cmds).live.value;
    SummaryCounts(live.peers, live.routes);
    SummaryStatus(live.peers, live.routes);
  }

  // ---------------------------------------------------------------- what a sync writes

  /** What a sync makes of a route; its status is decided by the states of its peers. */
  lemma SyncDecidesEachRoute(s: State, written: nat, k: nat)
    requires s.live.Some? && s.cache.Some? && written >= 1 && k < |s.live.value.routes|
    ensures var route := s.live.value.routes[k];
            var after := Step(s, SyncRoutes(true, WireGuard, written)).state.live.value;
            && after.peers == s.live.value.peers && |after.routes| == |s.live.value.routes|
            && Fixed(after.routes[k], route)
            && after.routes[k].verified == (after.routes[k].status in {Verified, LocalVerified})
            && (route.kind == LocalPath ==>
                  && after.routes[k].status == LocalVerified && after.routes[k].provider == NoProvider
                  && !after.routes[k].fallbackBlocked && after.routes[k].privateOnly == route.privateOnly)
            && (route.kind == MeshPrivate ==>
                  && after.routes[k].provider == WireGuard && after.routes[k].privateOnly
                  && after.routes[k].fallbackBlocked)
  {
  }

  /** When a private route is verified, degraded or blocked by a sync, over every state of its two peers. */
  lemma SyncedStatusExactly(s: State, written: nat, k: nat)
    requires s.live.Some? && s.cache.Some? && written >= 1 && k < |s.live.value.routes|
    requires s.live.value.routes[k].kind == MeshPrivate
    ensures var index, route := IndexPeers(s.live.value.peers), s.live.value.routes[k];
            var status := Step(s, SyncRoutes(true, WireGuard, written)).state.live.value.routes[k].status;
            var from, to := route.sourcePeer, route.targetPeer;
            && (status == Verified <==>
                  from in index && to in index && index[from].state == Active && index[to].state == Active)
            && (status == RouteDegraded <==>
                  && to in index && index[to].state !in {Leaving, Removed}
                  && (index[to].state == Degraded || (from in index && index[from].state == Degraded)))
            && status in {Verified, RouteDegraded, Blocked}
  {
  }

  /** Route k is the last of the list that serves the dependency. */
  predicate ServesLast(routes: seq<Route>, k: nat, service: string, alias: string, target: string) {
    && k < |routes| && routes[k].Serves(service, alias, target)
    && forall j :: k < j < |routes| ==> !routes[j].Serves(service, alias, target)
  }

  lemma {:induction false} LastServingIs(routes: seq<Route>, k: nat, service: string, alias: string, target: string)
    requires ServesLast(routes, k, service, alias, target)
    ensures LastServing(routes, service, alias, target) == Some(routes[k])
    decreases |routes|
  {
    var n := |routes| - 1;
    if k < n {
      ServesLastInPrefix(routes, n, k, service, alias, target);
      LastServingIs(routes[..n], k, service, alias, target);
    }
  }

  lemma ServesLastInPrefix(
    routes: seq<Route>, n: nat, k: nat, service: string, alias: string, target: string)
    requires k < n <= |routes| && ServesLast(routes, k, service, alias, target)
    ensures ServesLast(routes[..n], k, service, alias, target)
  {
  }

  /** The fields of a cache entry that tell of a route. */
  predicate TellsOf(entry: CachedDependency, route: Route) {
    && entry.scope == route.kind && entry.status == route.status && entry.provider == route.provider
    && entry.privateOnly == route.privateOnly && entry.fallbackBlocked == route.fallbackBlocked
  }

  lemma EntryAfterSync(was: CachedDependency, name: string, routes: seq<Route>, k: nat)
    ensures var entry := SyncedDependency(was, name, routes);
            && entry.alias == was.alias && entry.target == was.target
            && ((forall j :: 0 <= j < |routes| ==> !routes[j].Serves(name, was.alias, was.target)) ==> entry == was)
            && (ServesLast(routes, k, name, was.alias, was.target) ==> TellsOf(entry, routes[k]))
  {
    if ServesLast(routes, k, name, was.alias, was.target) {
      LastServingIs(routes, k, name, was.alias, was.target);
    }
  }

  lemma RecordAfterSync(cache: map<string, ServiceRecord>, routes: seq<Route>, name: string, i: nat)
    requires name in cache && i < |cache[name].dependencies|
    ensures var after := SyncedCache(cache, routes);
            && after.Keys == cache.Keys && after[name].placementPeer == cache[name].placementPeer
            && |after[name].dependencies| == |cache[name].dependencies|
            && after[name].dependencies[i] == SyncedDependency(cache[name].dependencies[i], name, routes)
  {
  }

  lemma CacheAfterSync(s: State, written: nat)
    requires s.live.Some? && s.cache.Some? && written >= 2
    ensures var after, routes := Step(s, SyncRoutes(true, WireGuard, written)).state, Synced(s.live.value).routes;
            && after.live.Some? && after.live.value.routes == routes
            && after.cache.Some? && after.cache.value.placement == s.cache.value.placement
            && after.cache.value.services == SyncedCache(s.cache.value.services, routes)
  {
  }

  /**
   A sync gives each cache entry the fields of the last route that serves it, and leaves an entry without one as it is;
   names and placements in the cache stay.
   */
  lemma SyncRewritesTheCache(s: State, written: nat, name: string, i: nat, k: nat)
    requires s.live.Some? && s.cache.Some? && written >= 2
    requires name in s.cache.value.services && i < |s.cache.value.services[name].dependencies|
    ensures var after, record := Step(s, SyncRoutes(true, WireGuard, written)).state, s.cache.value.services[name];
            var was, routes := record.dependencies[i], after.live.value.routes;
            && after.cache.value.placement == s.cache.value.placement
            && after.cache.value.services.Keys == s.cache.value.services.Keys
            && after.cache.value.services[name].placementPeer == record.placementPeer
            && |after.cache.value.services[name].dependencies| == |record.dependencies|
            && var entry := after.cache.value.services[name].dependencies[i];
               && entry.alias == was.alias && entry.target == was.target
               && ((forall j :: 0 <= j < |routes| ==> !routes[j].Serves(name, was.alias, was.target)) ==> entry == was)
               && (ServesLast(routes, k, name, was.alias, was.target) ==> TellsOf(entry, routes[k]))
  {
    CacheAfterSync(s, written);
    RecordAfterSync(s.cache.value.services, Synced(s.live.value).routes, name, i);
    EntryAfterSync(s.cache.value.services[name].dependencies[i], name, Synced(s.live.value).routes, k);
  }

  /** The link table after a sync: one record for each pair of peers with a private route between them. */
  lemma SyncWritesLinks(s: State, written: nat, key: string)
    requires s.live.Some? && s.cache.Some? && written >= 4
    ensures var after := Step(s, SyncRoutes(true, WireGuard, written)).state;
            var routes := after.live.value.routes;
            && after.links.Some? && after.report == Some(routes)
            && (key in after.links.value <==>
                  exists k :: 0 <= k < |routes| && routes[k].kind == MeshPrivate
                              && key == routes[k].sourcePeer + "->" + routes[k].targetPeer)
            && (key in after.links.value ==>
                  && after.links.value[key].provider == WireGuard && after.links.value[key].privateOnly
                  && after.links.value[key].routeCount
                       == |set k | 0 <= k < |routes| && routes[k].kind == MeshPrivate
                                   && key == routes[k].sourcePeer + "->" + routes[k].targetPeer|)
  {
    var routes := Step(s, SyncRoutes(true, WireGuard, written)).state.live.value.routes;
    LinksCounted(routes, key);
    assert (set k | 0 <= k < |routes| && routes[k].kind == MeshPrivate
                    && key == routes[k].sourcePeer + "->" + routes[k].targetPeer) == RoutesOnLink(routes, key);
  }

  function RoutesOnLink(routes: seq<Route>, key: string): set<int> {
    set k | 0 <= k < |routes| && OnLink(routes[k], key)
  }

  lemma {:induction false} LinksCounted(routes: seq<Route>, key: string)
    ensures CountOnLink(routes, key) == |RoutesOnLink(routes, key)|
  {
    if routes != [] {
      var n := |routes| - 1;
      LinksCounted(routes[..n], key);
      assert RoutesOnLink(routes, key) == RoutesOnLink(routes[..n], key) + if OnLink(routes[n], key) then {n} else {};
    }
  }
}
