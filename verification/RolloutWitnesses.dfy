/** Concrete runs that show why each assumption on a rollout run is needed. */
module RolloutWitnesses {
  import opened Text
  import opened Candidate
  import opened Rollout
  import opened RolloutRuns

  lemma RunSnoc(cmds: seq<Command>, c: Command)
    ensures Run(cmds + [c]) == Step(Run(cmds), c).state
  {
  }

  lemma AdmissibleSnoc(cmds: seq<Command>, c: Command)
    requires AdmissibleRun(cmds) && Admissible(Run(cmds), c)
    ensures AdmissibleRun(cmds + [c])
  {
    var longer := cmds + [c];
    assert longer[..|cmds|] == cmds;
    forall i | 0 <= i < |cmds| ensures Admissible(Run(longer[..i]), longer[i]) {
      assert longer[..i] == cmds[..i];
    }
  }

  function Deploy(r: RevisionId, passed: bool): seq<Command> {
    [Prepare(r, Finished), Start(r, true), RunGate(r, [passed], false)]
  }

  function AfterGate(passed: bool): Record {
    Walk(Walk(FRESH, [Starting]), if passed then [Healthy, Promotable] else [Unhealthy, Failed])
      .(gate := Some(GateSnapshot(if passed then Promotable else Failed, passed)))
  }

  /** The state after deploying r: its workspace is gated and only the candidate fields of the cache moved. */
  function Deployed(s: State, r: RevisionId, passed: bool): State {
    s.(cache := s.cache.(pending := r, candidate := r, candidateState := Some(if passed then Promotable else Failed)),
       roots := s.roots[r := Workspace(true, Some(AfterGate(passed)))])
  }

  function AfterPrepare(s: State, r: RevisionId): State {
    s.(cache := s.cache.(pending := r), roots := s.roots[r := Workspace(true, None)])
  }

  function AfterStart(s: State, r: RevisionId): State {
    s.(cache := s.cache.(pending := r, candidate := r, candidateState := Some(Starting)),
       roots := s.roots[r := Workspace(true, Some(Walk(FRESH, [Starting])))])
  }

  lemma DeployedByPrepare(s: State, r: RevisionId)
    requires Trim(r) != "" && r !in s.roots
    ensures Step(s, Prepare(r, Finished)).state == AfterPrepare(s, r)
  {
  }

  lemma DeployedByStart(s: State, r: RevisionId)
    requires Trim(r) != ""
    ensures Step(AfterPrepare(s, r), Start(r, true)).state == AfterStart(s, r)
  {
    var roots := AfterPrepare(s, r).roots;
    assert roots[r := AfterStart(s, r).roots[r]] == AfterStart(s, r).roots;
  }

  lemma DeployedByGate(s: State, r: RevisionId, passed: bool)
    requires Trim(r) != ""
    ensures Step(AfterStart(s, r), RunGate(r, [passed], false)).state == Deployed(s, r, passed)
  {
    assert AllPassed([passed]) <==> passed by {
      assert [passed][0] == passed;
    }
    var roots := AfterStart(s, r).roots;
    assert roots[r := Deployed(s, r, passed).roots[r]] == Deployed(s, r, passed).roots;
  }

  lemma AdmissibleDeploy(cmds: seq<Command>, r: RevisionId, passed: bool)
    requires AdmissibleRun(cmds) && Trimmed(r)
    ensures AdmissibleRun(cmds + Deploy(r, passed))
  {
    var d := Deploy(r, passed);
    AdmissibleSnoc(cmds, d[0]);
    AdmissibleSnoc(cmds + [d[0]], d[1]);
    AdmissibleSnoc(cmds + [d[0]] + [d[1]], d[2]);
    assert cmds + [d[0]] + [d[1]] + [d[2]] == cmds + d;
  }

  lemma RunThree(cmds: seq<Command>, d: seq<Command>, s1: State, s2: State, s3: State)
    requires |d| == 3
    requires Step(Run(cmds), d[0]).state == s1 && Step(s1, d[1]).state == s2 && Step(s2, d[2]).state == s3
    ensures Run(cmds + d) == s3
  {
    RunSnoc(cmds, d[0]);
    RunSnoc(cmds + [d[0]], d[1]);
    RunSnoc(cmds + [d[0]] + [d[1]], d[2]);
    OneByOne(cmds, d);
  }

  lemma OneByOne(cmds: seq<Command>, d: seq<Command>)
    requires |d| == 3
    ensures cmds + d == cmds + [d[0]] + [d[1]] + [d[2]]
  {
  }

  /** Deploying a new revision leaves its record promotable or failed and shifts nothing else. */
  lemma RunDeploy(cmds: seq<Command>, r: RevisionId, passed: bool)
    requires Trim(r) != "" && r !in Run(cmds).roots
    ensures Run(cmds + Deploy(r, passed)) == Deployed(Run(cmds), r, passed)
  {
    var s := Run(cmds);
    DeployedByPrepare(s, r);
    DeployedByStart(s, r);
    DeployedByGate(s, r, passed);
    RunThree(cmds, Deploy(r, passed), AfterPrepare(s, r), AfterStart(s, r), Deployed(s, r, passed));
  }

  /** The first deployment of a fresh agent, promoted. */
  lemma RunFirst(r: RevisionId)
    requires Trim(r) != ""
    ensures var s := Run(Deploy(r, true) + [Promote(r, true, true)]);
            && s.cache == RevisionCache(r, r, "", "", "", None, "")
            && s.traffic == Some(Traffic(r, "", r, false))
            && s.roots == map[r := Workspace(true, Some(AfterGate(true)))]
    ensures Trimmed(r) ==> AdmissibleRun(Deploy(r, true) + [Promote(r, true, true)])
  {
    RunDeploy([], r, true);
    var first := Deploy(r, true);
    assert [] + first == first;
    assert Trim("") == "";
    RunSnoc(first, Promote(r, true, true));
    if Trimmed(r) {
      AdmissibleDeploy([], r, true);
      AdmissibleSnoc(first, Promote(r, true, true));
    }
  }

  /** From any good state, rolling back a prepared stray and then the live revision makes the stray live. */
  lemma StrayBecomesLive(s: State, stray: RevisionId, live: RevisionId)
    requires Inv(s) && live == s.cache.current && live != ""
    requires Trimmed(stray) && stray !in {"", live} && HasManifest(s, stray)
    ensures var parked := Step(s, Rollback(stray, true, true));
            var after := Step(parked.state, Rollback(live, true, true));
            && parked.outcome == Done && !parked.state.traffic.value.rollbackReady
            && after.outcome == Done && after.state.cache.current == stray && after.state.traffic.value.active == stray
  {
    InvariantIsInductive(s, Rollback(stray, true, true));
    PlanUnderAgreement(s, stray);
    PlanUnderAgreement(Step(s, Rollback(stray, true, true)).state, live);
  }

  const BEFORE_STRAY := Deploy("S", true) + [Promote("S", true, true)] + Deploy("C", false)

  lemma RunBeforeStray()
    ensures AdmissibleRun(BEFORE_STRAY) && Run(BEFORE_STRAY).cache.current == "S"
    ensures HasFailed(Run(BEFORE_STRAY), "C") && HasManifest(Run(BEFORE_STRAY), "C")
  {
    assert Trim("S") == "S" && Trim("C") == "C";
    var first := Deploy("S", true) + [Promote("S", true, true)];
    RunFirst("S");
    RunDeploy(first, "C", false);
    AdmissibleDeploy(first, "C", false);
    DeployedAsFailed(Run(first), "C");
  }

  lemma DeployedAsFailed(s: State, r: RevisionId)
    ensures var t := Deployed(s, r, false);
            t.cache.current == s.cache.current && HasFailed(t, r) && HasManifest(t, r)
  {
    WalkEndsAt(Walk(FRESH, [Starting]), [Unhealthy, Failed]);
  }

  const STRAY_LIVE := BEFORE_STRAY + [Rollback("C", true, true)] + [Rollback("S", true, true)]

  lemma StrayRunIsAdmissible()
    ensures AdmissibleRun(STRAY_LIVE)
  {
    assert Trim("S") == "S" && Trim("C") == "C";
    RunBeforeStray();
    RunKeepsInv(BEFORE_STRAY);
    var parked := BEFORE_STRAY + [Rollback("C", true, true)];
    AdmissibleSnoc(BEFORE_STRAY, Rollback("C", true, true));
    RunKeepsInv(parked);
    RunSnoc(BEFORE_STRAY, Rollback("C", true, true));
    StrayParks(Run(BEFORE_STRAY), "C");
    AdmissibleSnoc(parked, Rollback("S", true, true));
  }

  lemma StrayParks(s: State, stray: RevisionId)
    requires Inv(s) && s.cache.current != ""
    requires Trimmed(stray) && stray !in {"", s.cache.current} && HasManifest(s, stray)
    ensures HasManifest(Step(s, Rollback(stray, true, true)).state, s.cache.current)
  {
  }

  lemma OnlyTheFirstIsPromoted()
    ensures forall j :: 0 <= j < |STRAY_LIVE| && STRAY_LIVE[j].Promote? ==> STRAY_LIVE[j].revision == "S"
  {
  }

  lemma StrayEndsLive()
    ensures Run(STRAY_LIVE).cache.current == "C"
  {
    assert Trim("S") == "S" && Trim("C") == "C";
    RunBeforeStray();
    RunKeepsInv(BEFORE_STRAY);
    var s := Run(BEFORE_STRAY);
    StrayBecomesLive(s, "C", "S");
    RunSnoc(BEFORE_STRAY, Rollback("C", true, true));
    RunSnoc(BEFORE_STRAY + [Rollback("C", true, true)], Rollback("S", true, true));
  }

  /**
   A rollback never reads the ready flag: promote S, fail the gate of C, roll back C and then S, and C is live
   although no promotion ever named it.
   */
  lemma UnguardedRollbackActivatesTheStray()
    ensures AdmissibleRun(STRAY_LIVE) && Run(STRAY_LIVE).cache.current == "C"
    ensures forall j :: !Promotes(STRAY_LIVE, j, "C")
  {
    StrayRunIsAdmissible();
    StrayEndsLive();
    OnlyTheFirstIsPromoted();
  }

  /** Rolling back a collected revision remakes its root without a manifest, which the next live rollback misses. */
  lemma RollingBackACollectedRevisionLosesTheWayBack(s: State, gone: RevisionId)
    requires Inv(s) && s.cache.current != "" && Trimmed(gone) && gone != "" && gone !in s.roots
    ensures var t := Step(s, Rollback(gone, true, true));
            && t.outcome == Done
            && Step(t.state, Rollback(s.cache.current, true, true)).outcome == Refused(StableManifestMissing)
  {
    PlanUnderAgreement(s, gone);
    var t := Step(s, Rollback(gone, true, true)).state;
    assert Agreement(t) && t.roots[gone] == Workspace(false, None);
    PlanUnderAgreement(t, s.cache.current);
  }

  /**
   An accepted promotion leaves live and draining revision restorable exactly when the promoted revision and the
   live identifier as trimmed have manifests, so a live identifier with white space is safe only if the trimmed one
   is a prepared revision too.
   */
  lemma PromotionIsRestorableExactlyWhen(s: State, r: RevisionId)
    requires Step(s, Promote(r, true, true)).outcome == Done
    requires Trim(s.cache.current) != "" && r !in {s.cache.current, Trim(s.cache.current)}
    ensures Restorable(Step(s, Promote(r, true, true)).state)
       <==> HasManifest(s, r) && HasManifest(s, Trim(s.cache.current))
  {
    assert r != "" by {
      assert Trim("") == "";
    }
  }

  /** A padded identifier is accepted, but a promotion over it records a predecessor that has no workspace. */
  lemma PaddedIdentifierLosesTheWayBack()
    ensures var first := Deploy(" a", true) + [Promote(" a", true, true)];
            var cmds := first + Deploy("b", true) + [Promote("b", true, true)];
            && Run(cmds).cache.current == "b" && Run(cmds).traffic == Some(Traffic("b", "a", "b", true))
            && "a" !in Run(cmds).roots
  {
    var third := Deploy(" a", true) + [Promote(" a", true, true)] + Deploy("b", true);
    Padded();
    BeforeTheSecondPromotion();
    PromotedOver(Run(third));
    RunSnoc(third, Promote("b", true, true));
  }

  lemma Padded()
    ensures Trim(" a") == "a" && Trim("b") == "b"
  {
  }

  lemma BeforeTheSecondPromotion()
    ensures var s := Run(Deploy(" a", true) + [Promote(" a", true, true)] + Deploy("b", true));
            s.cache.current == " a" && "a" !in s.roots && "b" in s.roots && s.roots["b"].record.Some?
            && ReadyToPromote(s.roots["b"].record.value)
  {
    Padded();
    var first := Deploy(" a", true) + [Promote(" a", true, true)];
    RunFirst(" a");
    RunDeploy(first, "b", true);
    DeployedOver(Run(first));
  }

  lemma DeployedOver(s: State)
    requires s.cache.current == " a" && "a" !in s.roots && "b" !in s.roots
    ensures var t := Deployed(s, "b", true);
            t.cache.current == " a" && "a" !in t.roots && HasRecord(t, "b") && ReadyToPromote(t.roots["b"].record.value)
  {
    WalkEndsAt(Walk(FRESH, [Starting]), [Healthy, Promotable]);
    assert "a"[0] != "b"[0];
  }

  lemma PromotedOver(s: State)
    requires s.cache.current == " a" && "a" !in s.roots
    requires HasRecord(s, "b") && ReadyToPromote(s.roots["b"].record.value)
    ensures var t := Step(s, Promote("b", true, true)).state;
            t.cache.current == "b" && t.traffic == Some(Traffic("b", "a", "b", true)) && "a" !in t.roots
  {
    Padded();
  }
}
