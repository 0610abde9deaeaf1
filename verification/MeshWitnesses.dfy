/** Runs of the mesh after which a crossing dependency resolves as a verified local one. */
module MeshWitnesses {
  import opened Text
  import opened Mesh
  import opened MeshFingerprints
  import opened MeshLaws
  import opened MeshResolution

  function Built(t: Topology): Command {
    BuildFoundation(t, true, 4)
  }

  const SYNC := SyncRoutes(true, WireGuard, 8)

  /** The dependency counts as a verified local one, and no reason to doubt it is given. */
  predicate Unnoticed(cmds: seq<Command>, t: Topology, service: Service, d: Dependency) {
    var r := Resolve(Run(cmds), t, service, d);
    r.scope == LocalPath && r.status == LocalVerified && r.reasons == []
  }

  lemma LocalOwnerHides(cmds: seq<Command>, t0: Topology, t: Topology, service: Service, d: Dependency)
    requires AdmissibleRun(cmds) && ReportSource(cmds) == Some(t0) && Crosses(t, service, d)
    requires var owner := OwnerIn(Some(t0), Origin(service.name, d)); owner.Some? && owner.value.kind == LocalPath
    ensures Unnoticed(cmds, t, service, d)
  {
    ReportDecidesThePath(cmds, t0, t, service, d);
  }

  lemma AfterBuildAndSync(t: Topology)
    requires DistinctNames(t.services)
    ensures AdmissibleRun([Built(t), SYNC]) && ReportSource([Built(t), SYNC]) == Some(t)
  {
    assert [Built(t), SYNC][..1] == [Built(t)] && [Built(t)][..0] == [];
  }

  // ---------------------------------------------------------------- moved targets

  /** Build t0, synchronise, and build t: the report still is of t0. */
  function Moved(t0: Topology, t: Topology): seq<Command> {
    [Built(t0), SYNC, Built(t)]
  }

  lemma AfterTheMove(t0: Topology, t: Topology)
    requires DistinctNames(t0.services) && DistinctNames(t.services)
    ensures AdmissibleRun(Moved(t0, t)) && ReportSource(Moved(t0, t)) == Some(t0)
  {
    assert Moved(t0, t)[..2] == [Built(t0), SYNC];
    AfterBuildAndSync(t0);
  }

  /** Whatever is built, a dependency that was local before the last sync and crosses now goes unnoticed. */
  lemma EveryMoveGoesUnnoticed(t0: Topology, s0: Service, t: Topology, service: Service, d: Dependency)
    requires DistinctNames(t0.services) && DistinctNames(t.services)
    requires s0 in t0.services && d in s0.dependencies && KeySeparates(t0, Origin(s0.name, d))
    requires s0.name == service.name && !Crosses(t0, s0, d) && Crosses(t, service, d)
    ensures Unnoticed(Moved(t0, t), t, service, d)
  {
    AfterTheMove(t0, t);
    OwnerWhenSeparate(t0, s0, d);
    LocalOwnerHides(Moved(t0, t), t0, t, service, d);
  }

  const NEEDS_DB := Dependency("db", "db", "tcp", "localhost:5432")
  const API := Service("api", None, [NEEDS_DB])
  const BINDING := Binding("node", "a", "", "p")

  function Placed(target: string): Topology {
    Topology(BINDING, [API], map["db" := Placement("node", target)], target)
  }

  lemma Refs()
    ensures PeerRef(Placement("node", "a")) == "node:a" && PeerRef(Placement("node", "b")) == "node:b"
    ensures "node:a" != "node:b"
  {
  }

  lemma NoBarsPlaced()
    ensures KeySeparates(Placed("a"), Origin("api", NEEDS_DB))
  {
    assert NoBars(Origin("api", NEEDS_DB));
    WithoutBarsKeysSeparate(Placed("a"), Origin("api", NEEDS_DB));
  }

  lemma PlacedCrosses()
    ensures !Crosses(Placed("a"), API, NEEDS_DB) && Crosses(Placed("b"), API, NEEDS_DB)
  {
    Refs();
  }

  /** It does happen: build on one node, synchronise, move the database to another and build again. */
  lemma RelocationGoesUnnoticed()
    ensures AdmissibleRun(Moved(Placed("a"), Placed("b"))) && Crosses(Placed("b"), API, NEEDS_DB)
    ensures Unnoticed(Moved(Placed("a"), Placed("b")), Placed("b"), API, NEEDS_DB)
  {
    AfterTheMove(Placed("a"), Placed("b"));
    PlacedCrosses();
    NoBarsPlaced();
    EveryMoveGoesUnnoticed(Placed("a"), API, Placed("b"), API, NEEDS_DB);
  }

  // ---------------------------------------------------------------- shared keys

  const CROSSING := Dependency("x|y", "z", "tcp", "e")
  const LOCAL := Dependency("x", "y|z", "tcp", "e")
  const CLASHING := Service("api", None, [CROSSING, LOCAL])
  const CLASH := Topology(BINDING, [CLASHING], map["z" := Placement("node", "b")], "")

  lemma SameText()
    ensures KeyText(Origin("api", CROSSING)) == KeyText(Origin("api", LOCAL))
  {
  }

  lemma LastIsLocal()
    ensures OwnerIn(Some(CLASH), Origin("api", CROSSING)) == Some(FirstRoute(CLASH, CLASHING, LOCAL))
  {
    var routes := [FirstRoute(CLASH, CLASHING, CROSSING), FirstRoute(CLASH, CLASHING, LOCAL)];
    assert FirstRoutes(CLASH, 0) == [] && RoutesOf(CLASH) == routes;
    SameText();
    assert routes[1].Key() == KeyOf(Origin("api", CROSSING));
  }

  lemma ClashCrosses()
    ensures Crosses(CLASH, CLASHING, CROSSING)
  {
    Refs();
  }

  lemma LocalStays()
    ensures !Crosses(CLASH, CLASHING, LOCAL)
  {
    assert |"y|z"| != |"z"| && "y|z"[0] != "api"[0];
    assert "y|z" !in CLASH.placements && CLASH.services[1..] == [];
    assert DeclaredPlacement(CLASH.services, "y|z") == None;
    assert DeclaredPlacement(CLASH.services, "api") == None;
  }

  lemma KeysClash()
    ensures CROSSING in CLASHING.dependencies && !KeySeparates(CLASH, Origin("api", CROSSING))
  {
    SameText();
    assert CLASH.services[0].dependencies[1] == LOCAL && CLASHING.dependencies[0] == CROSSING;
  }

  /**
   Two dependencies of one service, {alias x|y, target z} and {alias x, target y|z}, have one key. With z on another
   node the first crosses and the second does not, and after a build and a sync the first resolves as local.
   */
  lemma SharedKeyHidesTheCrossing()
    ensures AdmissibleRun([Built(CLASH), SYNC]) && CROSSING in CLASHING.dependencies
    ensures Crosses(CLASH, CLASHING, CROSSING) && !Crosses(CLASH, CLASHING, LOCAL)
    ensures !KeySeparates(CLASH, Origin("api", CROSSING))
    ensures Unnoticed([Built(CLASH), SYNC], CLASH, CLASHING, CROSSING)
  {
    ClashCrosses();
    LocalStays();
    KeysClash();
    LastIsLocal();
    AfterBuildAndSync(CLASH);
    LocalOwnerHides([Built(CLASH), SYNC], CLASH, CLASH, CLASHING, CROSSING);
  }

  // ---------------------------------------------------------------- torn builds

  /** A build that stops between route table and cache leaves the cache of the build before, or none. */
  lemma TornBuildLeavesTheOldCache(t0: Topology, t: Topology)
    requires DistinctNames(t0.services) && DistinctNames(t.services)
    ensures var s := Run([Built(t0), BuildFoundation(t, true, 3)]);
            && s.live == Some(Foundation(t)) && s.cache == Some(FoundationCache(t0))
            && (FingerprintOf(RoutesOf(t0)) != FingerprintOf(RoutesOf(t)) ==> !InStep(s))
    ensures !InStep(Run([BuildFoundation(t, true, 3)]))
  {
    var cmds := [Built(t0), BuildFoundation(t, true, 3)];
    assert cmds[..1] == [Built(t0)] && [Built(t0)][..0] == [] && [BuildFoundation(t, true, 3)][..0] == [];
  }
}
