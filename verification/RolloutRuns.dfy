/** Whole runs of the rollout protocol: what every admissible run guarantees, and exactly where guarantees end. */
module RolloutRuns {
  import opened Text
  import opened Candidate
  import opened Rollout

  /** The state after handling the commands one by one, from a fresh agent. */
  function Run(cmds: seq<Command>): State {
    if cmds == [] then INITIAL else Step(Run(cmds[..|cmds| - 1]), cmds[|cmds| - 1]).state
  }

  predicate Accepted(cmds: seq<Command>, i: nat)
    requires i < |cmds|
  {
    Step(Run(cmds[..i]), cmds[i]).outcome == Done
  }

  predicate AdmissibleRun(cmds: seq<Command>) {
    forall i :: 0 <= i < |cmds| ==> Admissible(Run(cmds[..i]), cmds[i])
  }

  /** Command i is a health gate of r that was accepted with every service passing. */
  predicate PassesGate(cmds: seq<Command>, i: nat, r: RevisionId) {
    i < |cmds| && cmds[i].RunGate? && cmds[i].revision == r && AllPassed(cmds[i].verdicts) && Accepted(cmds, i)
  }

  /** Command j is an accepted promotion of r. */
  predicate Promotes(cmds: seq<Command>, j: nat, r: RevisionId) {
    j < |cmds| && cmds[j].Promote? && cmds[j].revision == r && Accepted(cmds, j)
  }

  /** At some time r was promoted, after a health gate that it passed. */
  ghost predicate PromotedAfterGate(cmds: seq<Command>, r: RevisionId) {
    exists i, j :: 0 <= i < j && PassesGate(cmds, i, r) && Promotes(cmds, j, r)
  }

  lemma RunIsLastStep(cmds: seq<Command>, n: nat)
    requires |cmds| == n + 1
    ensures Run(cmds) == Step(Run(cmds[..n]), cmds[n]).state
  {
  }

  lemma PrefixOfPrefix(cmds: seq<Command>, i: nat, n: nat)
    requires i <= n <= |cmds|
    ensures cmds[..n][..i] == cmds[..i]
  {
  }

  lemma AdmissibleInit(cmds: seq<Command>, n: nat)
    requires AdmissibleRun(cmds) && |cmds| == n + 1
    ensures AdmissibleRun(cmds[..n]) && Admissible(Run(cmds[..n]), cmds[n])
  {
    forall i | 0 <= i < n ensures Admissible(Run(cmds[..n][..i]), cmds[..n][i]) {
      PrefixOfPrefix(cmds, i, n);
    }
  }

  lemma {:induction false} RunKeepsInv(cmds: seq<Command>)
    requires AdmissibleRun(cmds)
    ensures Inv(Run(cmds))
  {
    if cmds != [] {
      var n := |cmds| - 1;
      AdmissibleInit(cmds, n);
      RunKeepsInv(cmds[..n]);
      InvariantIsInductive(Run(cmds[..n]), cmds[n]);
    }
  }

  /** Every identifier is trimmed: all that agreement and activation safety ask of a run. */
  predicate TrimmedRun(cmds: seq<Command>) {
    forall i :: 0 <= i < |cmds| ==> Trimmed(cmds[i].revision)
  }

  lemma {:induction false} RunAgrees(cmds: seq<Command>)
    requires TrimmedRun(cmds)
    ensures Agreement(Run(cmds))
  {
    if cmds != [] {
      RunAgrees(cmds[..|cmds| - 1]);
      AgreementIsInductive(Run(cmds[..|cmds| - 1]), cmds[|cmds| - 1]);
    }
  }

  lemma {:induction false} RunRests(cmds: seq<Command>)
    ensures RecordsAtRest(Run(cmds))
  {
    if cmds != [] {
      RunRests(cmds[..|cmds| - 1]);
      RestIsInductive(Run(cmds[..|cmds| - 1]), cmds[|cmds| - 1]);
    }
  }

  /**
   In every run whatever, a record has a connected history of allowed moves with at most six entries, and is
   promotable only with the snapshot of a passed gate on it.
   */
  lemma EveryRecordIsAtRest(cmds: seq<Command>, r: RevisionId)
    requires HasRecord(Run(cmds), r)
    ensures var record := Run(cmds).roots[r].record.value;
            && ConnectedHistory(record) && |record.history| <= 6
            && record.state in {Starting, Promotable, Failed}
            && (record.state == Promotable ==> record.gate == Some(GateSnapshot(Promotable, true)))
  {
    RunRests(cmds);
    AtRestHistory(Run(cmds).roots[r].record.value);
  }

  // ---------------------------------------------------------------- restorability

  /** The revision that any rollback restores is the live or the draining one, and both are protected. */
  lemma RestorationTarget(s: State, r: RevisionId)
    requires Agreement(s) && s.traffic.Some?
    ensures SelectRollbackPlan(r, s.cache, s.traffic.value).restored in {"", s.cache.current, s.cache.draining}
    ensures forall keep, id :: id in {s.cache.current, s.cache.draining} && id != "" ==>
              id in ProtectedRevisions(keep, s.cache)
  {
    var t := s.traffic.value;
    FirstOfTrimmed([s.cache.current, s.cache.stable, t.active]);
    FirstOfTrimmed([s.cache.previousStable, t.previous]);
    assert forall k :: 0 <= k < 2 ==> [s.cache.previousStable, t.previous][k] in {"", s.cache.draining};
  }

  lemma CollectionSpares(
    s: State, keep: RevisionId, removed: set<RevisionId>, stuck: Option<Stuck>, id: RevisionId)
    requires HasManifest(s, id) && id in ProtectedRevisions(keep, s.cache)
    ensures HasManifest(Step(s, Collect(keep, removed, stuck)).state, id)
  {
    ProtectedStays(s, keep, removed, stuck, id);
  }

  /** A rollback that has something to restore finds its workspace, now and after any collection. */
  predicate FindsItsWorkspace(s: State, r: RevisionId, collection: Command)
    requires s.traffic.Some?
  {
    var restored := SelectRollbackPlan(r, s.cache, s.traffic.value).restored;
    restored != "" ==> HasManifest(s, restored) && HasManifest(Step(s, collection).state, restored)
  }

  lemma RestorationFindsItsWorkspace(s: State, r: RevisionId, collection: Command)
    requires Inv(s) && s.traffic.Some? && collection.Collect?
    ensures FindsItsWorkspace(s, r, collection)
    ensures Step(s, Rollback(r, true, true)).outcome
         !in {Refused(StableWorkspaceMissing), Refused(StableManifestMissing)}
  {
    var restored := SelectRollbackPlan(r, s.cache, s.traffic.value).restored;
    RestorationTarget(s, r);
    if restored != "" {
      CollectionSpares(s, collection.revision, collection.removed, collection.stuck, restored);
    }
  }

  /** So it does in every admissible run, whatever a collection removes and wherever it gets stuck. */
  lemma RestorationAlwaysFindsItsWorkspace(cmds: seq<Command>, r: RevisionId, collection: Command)
    requires AdmissibleRun(cmds) && Run(cmds).traffic.Some? && collection.Collect?
    ensures FindsItsWorkspace(Run(cmds), r, collection)
    ensures Step(Run(cmds), Rollback(r, true, true)).outcome
         !in {Refused(StableWorkspaceMissing), Refused(StableManifestMissing)}
  {
    RunKeepsInv(cmds);
    RestorationFindsItsWorkspace(Run(cmds), r, collection);
  }

  /** A root that a failed removal left behind: it may have lost its manifest or its record, and has gained nothing. */
  predicate LeftBehind(was: Workspace, stuck: Stuck, w: Workspace) {
    && (w.manifest <==> was.manifest && stuck.manifest)
    && (if stuck.record then w.record == was.record else w.record == None)
  }

  /**
   A finished collection leaves exactly the protected workspaces; an unfinished one never loses a protected one.
   Of what is left only the one root that could not be removed may be altered, and it only loses.
   */
  lemma CollectionKeepsExactlyTheProtected(
    s: State, keep: RevisionId, removed: set<RevisionId>, stuck: Option<Stuck>)
    requires Trim(keep) != ""
    ensures var reply, kept := Step(s, Collect(keep, removed, stuck)), ProtectedRevisions(keep, s.cache);
            && (reply.outcome == Done ==> reply.state.roots.Keys == s.roots.Keys * kept)
            && s.roots.Keys * kept <= reply.state.roots.Keys <= s.roots.Keys
            && (forall id :: id in reply.state.roots ==>
                  if GotStuck(s, keep, removed, stuck) && id == stuck.value.id
                  then id !in kept && LeftBehind(s.roots[id], stuck.value, reply.state.roots[id])
                  else reply.state.roots[id] == s.roots[id])
  {
  }

  /** The first assumption is exact: a prepare that fails late keeps the invariant iff it is harmless. */
  lemma FailedPrepareIsSafeExactlyWhen(s: State, r: RevisionId, left: Leftover)
    requires Inv(s) && Trimmed(r) && r != ""
    ensures Inv(Step(s, Prepare(r, FailedLate(left))).state) <==> Harmless(s, r, left)
  {
    RestIsInductive(s, Prepare(r, FailedLate(left)));
  }

  /** Whatever its removal may leave behind, that is: iff it names neither the live nor the draining revision. */
  lemma FailedPrepareIsAlwaysSafeExactlyWhen(s: State, r: RevisionId)
    requires Inv(s) && Trimmed(r) && r != ""
    ensures (forall left :: Inv(Step(s, Prepare(r, FailedLate(left))).state))
       <==> r !in {s.cache.current, s.cache.draining}
  {
    forall left ensures Inv(Step(s, Prepare(r, FailedLate(left))).state) <==> Harmless(s, r, left) {
      FailedPrepareIsSafeExactlyWhen(s, r, left);
    }
    assert !Harmless(s, r, Nothing) <==> r in {s.cache.current, s.cache.draining};
  }

  /** The second assumption is exact: an accepted promotion keeps the invariant iff its workspace has a manifest. */
  lemma PromotionIsSafeExactlyWhen(s: State, r: RevisionId)
    requires Inv(s) && Trimmed(r) && Step(s, Promote(r, true, true)).outcome == Done
    ensures Inv(Step(s, Promote(r, true, true)).state) <==> HasManifest(s, r)
  {
    if HasManifest(s, r) {
      InvariantIsInductive(s, Promote(r, true, true));
    }
  }

  /** The third assumption is exact: a rollback keeps it iff it names a prepared revision or nothing is live. */
  lemma RollbackIsSafeExactlyWhen(s: State, r: RevisionId)
    requires Inv(s) && Trimmed(r) && r != ""
    ensures Inv(Step(s, Rollback(r, true, true)).state) <==> s.cache.current == "" || HasManifest(s, r)
  {
    if HasManifest(s, r) {
      InvariantIsInductive(s, Rollback(r, true, true));
    } else if s.cache.current != "" {
      PlanUnderAgreement(s, r);
      assert Step(s, Rollback(r, true, true)).state.cache.draining == r;
    }
  }

  // ---------------------------------------------------------------- activation safety

  predicate IsPromotable(s: State, r: RevisionId) {
    HasRecord(s, r) && s.roots[r].record.value.state == Promotable
  }

  lemma GateMakesPromotable(s: State, g: RevisionId, passed: bool, cancelled: bool, r: RevisionId)
    requires IsPromotable(StepGate(s, g, passed, cancelled).state, r) && !IsPromotable(s, r)
    ensures g == r && passed && StepGate(s, g, passed, cancelled).outcome == Done
  {
  }

  /** A failed gate never walks to promotable, and a rollback never does. */
  lemma WalkEnds(record: Record, passed: bool)
    ensures var path := GatePath(record.state, passed);
            path.Some? && Walk(record, path.value).state == Promotable ==> passed
    ensures Walk(record, RollbackPath(record.state)).state != Promotable
  {
    WalkEndsAt(record, RollbackPath(record.state));
    if GatePath(record.state, passed).Some? {
      WalkEndsAt(record, GatePath(record.state, passed).value);
    }
  }

  lemma RollbackMakesNonePromotable(s: State, g: RevisionId, gatewayReady: bool, sidecarsReady: bool, r: RevisionId)
    requires IsPromotable(StepRollback(s, g, gatewayReady, sidecarsReady).state, r)
    ensures IsPromotable(s, r)
  {
    if HasRecord(s, g) {
      WalkEnds(s.roots[g].record.value, false);
    }
  }

  /** Only an accepted passing gate of r makes the record of r promotable. */
  lemma PromotableOnlyByGate(s: State, c: Command, r: RevisionId)
    requires IsPromotable(Step(s, c).state, r) && !IsPromotable(s, r)
    ensures c.RunGate? && c.revision == r && Step(s, c).outcome == Done
    ensures forall k :: 0 <= k < |c.verdicts| ==> c.verdicts[k]
  {
    if c.RunGate? {
      GateMakesPromotable(s, c.revision, AllPassed(c.verdicts), c.cancelled, r);
    } else if c.Rollback? && Trim(c.revision) != "" {
      RollbackMakesNonePromotable(s, c.revision, c.gatewayReady, c.sidecarsReady, r);
    }
  }

  lemma {:induction false} PromotableMeansGated(cmds: seq<Command>, r: RevisionId) returns (i: nat)
    requires IsPromotable(Run(cmds), r)
    ensures PassesGate(cmds, i, r)
  {
    var n := |cmds| - 1;
    var init := cmds[..n];
    if IsPromotable(Run(init), r) {
      i := PromotableMeansGated(init, r);
      PassesGateInPrefix(cmds, n, i, r);
    } else {
      PromotableOnlyByGate(Run(init), cmds[n], r);
      i := n;
    }
  }

  /** An accepted promotion has its passing gate behind it. */
  lemma PromotionIsGated(cmds: seq<Command>, r: RevisionId)
    requires cmds != [] && Promotes(cmds, |cmds| - 1, r)
    ensures PromotedAfterGate(cmds, r)
  {
    var n := |cmds| - 1;
    var i := PromotableMeansGated(cmds[..n], r);
    PrefixOfPrefix(cmds, i, n);
    assert PassesGate(cmds, i, r);
  }

  lemma PassesGateInPrefix(cmds: seq<Command>, n: nat, i: nat, r: RevisionId)
    requires i < n <= |cmds|
    ensures PassesGate(cmds[..n], i, r) <==> PassesGate(cmds, i, r)
  {
    PrefixOfPrefix(cmds, i, n);
  }

  lemma PromotesInPrefix(cmds: seq<Command>, n: nat, i: nat, r: RevisionId)
    requires i < n <= |cmds|
    ensures Promotes(cmds[..n], i, r) <==> Promotes(cmds, i, r)
  {
    PrefixOfPrefix(cmds, i, n);
  }

  lemma PromotedPersists(cmds: seq<Command>, r: RevisionId)
    requires cmds != []
    ensures PromotedAfterGate(cmds[..|cmds| - 1], r) ==> PromotedAfterGate(cmds, r)
    ensures PromotedAfterGate(cmds, r) ==> PromotedAfterGate(cmds[..|cmds| - 1], r) || Promotes(cmds, |cmds| - 1, r)
  {
    if PromotedAfterGate(cmds[..|cmds| - 1], r) {
      PromotedStays(cmds, |cmds| - 1, r);
    }
    if PromotedAfterGate(cmds, r) {
      PromotedBeforeOrNow(cmds, |cmds| - 1, r);
    }
  }

  lemma PromotedBeforeOrNow(cmds: seq<Command>, n: nat, r: RevisionId)
    requires |cmds| == n + 1 && PromotedAfterGate(cmds, r)
    ensures PromotedAfterGate(cmds[..n], r) || Promotes(cmds, n, r)
  {
    var i, j := PromotionOf(cmds, r);
    if j < n {
      WitnessInPrefix(cmds, n, i, j, r);
    } else {
      LastPromotes(cmds, n, j, r);
    }
  }

  lemma LastPromotes(cmds: seq<Command>, n: nat, j: nat, r: RevisionId)
    requires n <= j < |cmds| == n + 1 && Promotes(cmds, j, r)
    ensures Promotes(cmds, n, r)
  {
    assert j == n;
  }

  lemma PromotionOf(cmds: seq<Command>, r: RevisionId) returns (i: nat, j: nat)
    requires PromotedAfterGate(cmds, r)
    ensures i < j < |cmds| && PassesGate(cmds, i, r) && Promotes(cmds, j, r)
  {
    i, j :| i < j && PassesGate(cmds, i, r) && Promotes(cmds, j, r);
  }

  lemma WitnessInPrefix(cmds: seq<Command>, n: nat, i: nat, j: nat, r: RevisionId)
    requires i < j < n <= |cmds| && PassesGate(cmds, i, r) && Promotes(cmds, j, r)
    ensures PromotedAfterGate(cmds[..n], r)
  {
    PassesGateInPrefix(cmds, n, i, r);
    PromotesInPrefix(cmds, n, j, r);
    WitnessSuffices(cmds[..n], i, j, r);
  }

  lemma WitnessSuffices(cmds: seq<Command>, i: nat, j: nat, r: RevisionId)
    requires i < j && PassesGate(cmds, i, r) && Promotes(cmds, j, r)
    ensures PromotedAfterGate(cmds, r)
  {
  }

  lemma PromotedStays(cmds: seq<Command>, n: nat, r: RevisionId)
    requires n <= |cmds| && PromotedAfterGate(cmds[..n], r)
    ensures PromotedAfterGate(cmds, r)
  {
    var i, j := PromotionOf(cmds[..n], r);
    PassesGateInPrefix(cmds, n, i, r);
    PromotesInPrefix(cmds, n, j, r);
    WitnessSuffices(cmds, i, j, r);
  }

  /** The last accepted traffic shift rolled back a stray candidate that had never been promoted. */
  ghost predicate NeverPromotedIsParked(cmds: seq<Command>) {
    cmds != []
    && var n := |cmds| - 1;
       var c := cmds[n];
       if !(c.Promote? || c.Rollback?) || !Accepted(cmds, n) then NeverPromotedIsParked(cmds[..n])
       else c.Rollback? && c.revision != Run(cmds[..n]).cache.current && !PromotedAfterGate(cmds[..n], c.revision)
  }

  /** Command i is an accepted rollback of the live revision. */
  predicate RollsBackLive(cmds: seq<Command>, i: nat) {
    i < |cmds| && cmds[i].Rollback? && cmds[i].revision == Run(cmds[..i]).cache.current && Accepted(cmds, i)
  }

  ghost predicate LiveWasPromoted(cmds: seq<Command>) {
    Run(cmds).cache.current == "" || PromotedAfterGate(cmds, Run(cmds).cache.current)
  }

  /** What parking means for the state: the draining revision was never promoted and no rollback is ready. */
  lemma {:induction false} ParkedMeans(cmds: seq<Command>)
    requires TrimmedRun(cmds) && NeverPromotedIsParked(cmds)
    ensures var s := Run(cmds);
            && s.traffic.Some? && !s.traffic.value.rollbackReady
            && s.cache.draining != "" && !PromotedAfterGate(cmds, s.cache.draining)
  {
    var n := |cmds| - 1;
    var init, c := cmds[..n], cmds[n];
    RunAgrees(init);
    if !(c.Promote? || c.Rollback?) || !Accepted(cmds, n) {
      ParkedMeans(init);
      TrafficShiftsOnly(Run(init), c);
      PromotedPersists(cmds, Run(init).cache.draining);
    } else {
      PlanUnderAgreement(Run(init), c.revision);
      PromotedPersists(cmds, c.revision);
    }
  }

  /** Only accepted promotions and rollbacks shift traffic. */
  lemma TrafficShiftsOnly(s: State, c: Command)
    requires !(c.Promote? || c.Rollback?) || Step(s, c).outcome != Done
    ensures var t := Step(s, c).state;
            t.traffic == s.traffic && t.cache.current == s.cache.current && t.cache.draining == s.cache.draining
  {
  }

  ghost predicate DrainingIsAccountedFor(cmds: seq<Command>) {
    var d := Run(cmds).cache.draining;
    d == "" || PromotedAfterGate(cmds, d) || NeverPromotedIsParked(cmds)
  }

  lemma PromotionShifts(s: State, c: Command)
    requires Agreement(s) && c.Promote? && Trimmed(c.revision) && Step(s, c).outcome == Done
    ensures var t := Step(s, c).state.cache;
            t.current == c.revision && t.draining == if c.revision == s.cache.current then "" else s.cache.current
  {
    PreviousUnderAgreement(s, c.revision);
  }

  lemma RollbackShifts(s: State, c: Command)
    requires Agreement(s) && c.Rollback? && Trimmed(c.revision) && Step(s, c).outcome == Done
    ensures var t := Step(s, c).state.cache;
            if c.revision != s.cache.current then t.current == s.cache.current && t.draining == c.revision
            else t.current == s.cache.draining && t.draining == s.cache.current
  {
    PlanUnderAgreement(s, c.revision);
  }

  /** An accepted promotion: what it makes live was gated, and what it drains was live. */
  lemma SafePromotion(cmds: seq<Command>)
    requires cmds != [] && Agreement(Run(cmds[..|cmds| - 1])) && Trimmed(cmds[|cmds| - 1].revision)
    requires LiveWasPromoted(cmds[..|cmds| - 1]) && Accepted(cmds, |cmds| - 1) && cmds[|cmds| - 1].Promote?
    ensures LiveWasPromoted(cmds) && DrainingIsAccountedFor(cmds)
  {
    var n := |cmds| - 1;
    var s, c := Run(cmds[..n]), cmds[n];
    PromotedPersists(cmds, s.cache.current);
    PromotionIsGated(cmds, c.revision);
    PromotionShifts(s, c);
  }

  /** An accepted rollback: live and draining change places, or the draining one is a stray. */
  lemma SafeRollback(cmds: seq<Command>)
    requires cmds != [] && Agreement(Run(cmds[..|cmds| - 1])) && Trimmed(cmds[|cmds| - 1].revision)
    requires LiveWasPromoted(cmds[..|cmds| - 1]) && DrainingIsAccountedFor(cmds[..|cmds| - 1])
    requires Accepted(cmds, |cmds| - 1) && cmds[|cmds| - 1].Rollback?
    requires RollsBackLive(cmds, |cmds| - 1) ==> !NeverPromotedIsParked(cmds[..|cmds| - 1])
    ensures LiveWasPromoted(cmds) && DrainingIsAccountedFor(cmds)
  {
    var n := |cmds| - 1;
    var s, c := Run(cmds[..n]), cmds[n];
    PromotedPersists(cmds, s.cache.current);
    PromotedPersists(cmds, s.cache.draining);
    PromotedPersists(cmds, c.revision);
    RollbackShifts(s, c);
  }

  lemma SafeOther(cmds: seq<Command>)
    requires cmds != [] && LiveWasPromoted(cmds[..|cmds| - 1]) && DrainingIsAccountedFor(cmds[..|cmds| - 1])
    requires !Accepted(cmds, |cmds| - 1) || !(cmds[|cmds| - 1].Promote? || cmds[|cmds| - 1].Rollback?)
    ensures LiveWasPromoted(cmds) && DrainingIsAccountedFor(cmds)
  {
    var n := |cmds| - 1;
    var s := Run(cmds[..n]);
    TrafficShiftsOnly(s, cmds[n]);
    PromotedPersists(cmds, s.cache.current);
    PromotedPersists(cmds, s.cache.draining);
  }

  /** Without a rollback of the live revision onto a parked one, live and draining revisions are accounted for. */
  lemma {:induction false} SafeRun(cmds: seq<Command>)
    requires TrimmedRun(cmds)
    requires forall i :: 0 <= i < |cmds| && RollsBackLive(cmds, i) ==> !NeverPromotedIsParked(cmds[..i])
    ensures LiveWasPromoted(cmds) && DrainingIsAccountedFor(cmds)
  {
    if cmds != [] {
      var n := |cmds| - 1;
      var init := cmds[..n];
        forall i | 0 <= i < n && RollsBackLive(init, i) ensures !NeverPromotedIsParked(init[..i]) {
        PrefixOfPrefix(cmds, i, n);
        assert RollsBackLive(cmds, i);
      }
      SafeRun(init);
      RunAgrees(init);
      if !(cmds[n].Promote? || cmds[n].Rollback?) || !Accepted(cmds, n) {
        SafeOther(cmds);
      } else if cmds[n].Promote? {
        SafePromotion(cmds);
      } else {
        SafeRollback(cmds);
      }
    }
  }

  /** A rollback of the live revision onto a parked one makes a never promoted revision live. */
  lemma ParkedBecomesLive(cmds: seq<Command>, i: nat)
    requires TrimmedRun(cmds) && RollsBackLive(cmds, i) && NeverPromotedIsParked(cmds[..i])
    ensures !LiveWasPromoted(cmds[..i + 1])
  {
    var init, longer := cmds[..i], cmds[..i + 1];
    var parked := Run(init).cache.draining;
    RunAgrees(init);
    ParkedMeans(init);
    RollbackShifts(Run(init), cmds[i]);
    assert longer[..i] == init && longer[i] == cmds[i];
    RunIsLastStep(longer, i);
    PromotedPersists(longer, parked);
    assert !Promotes(longer, i, parked);
  }

  /**
   Activation safety, exactly: throughout a run the live revision has been promoted after a passing
   gate if and only if no rollback of the live revision is issued while a never promoted candidate is parked.
   */
  lemma ActivationSafetyExactlyWhen(cmds: seq<Command>)
    requires TrimmedRun(cmds)
    ensures (forall n :: 0 <= n <= |cmds| ==> LiveWasPromoted(cmds[..n]))
       <==> (forall i :: 0 <= i < |cmds| && RollsBackLive(cmds, i) ==> !NeverPromotedIsParked(cmds[..i]))
  {
    if forall i :: 0 <= i < |cmds| && RollsBackLive(cmds, i) ==> !NeverPromotedIsParked(cmds[..i]) {
      forall n | 0 <= n <= |cmds| ensures LiveWasPromoted(cmds[..n]) {
        forall i | 0 <= i < n && RollsBackLive(cmds[..n], i) ensures !NeverPromotedIsParked(cmds[..n][..i]) {
          PrefixOfPrefix(cmds, i, n);
          assert RollsBackLive(cmds, i);
        }
        SafeRun(cmds[..n]);
      }
    } else {
      var i :| 0 <= i < |cmds| && RollsBackLive(cmds, i) && NeverPromotedIsParked(cmds[..i]);
      ParkedBecomesLive(cmds, i);
    }
  }

  /** The guard that the traffic record offers is enough: roll back the live revision only while it says ready. */
  lemma GuardedRunIsSafe(cmds: seq<Command>)
    requires TrimmedRun(cmds)
    requires forall i :: 0 <= i < |cmds| && RollsBackLive(cmds, i) ==> Run(cmds[..i]).traffic.value.rollbackReady
    ensures LiveWasPromoted(cmds)
  {
    forall i | 0 <= i < |cmds| && RollsBackLive(cmds, i) ensures !NeverPromotedIsParked(cmds[..i]) {
      if NeverPromotedIsParked(cmds[..i]) {
        ParkedMeans(cmds[..i]);
      }
    }
    SafeRun(cmds);
  }

  // ---------------------------------------------------------------- round trip and absorption

  /** Promoting r over a live S and rolling r back returns to S; the same rollback once more changes nothing at all. */
  lemma PromoteThenRollBack(s: State, r: RevisionId, live: RevisionId)
    requires Inv(s) && live == s.cache.current && live != "" && Trimmed(r) && r != "" && r != live
    requires Step(s, Promote(r, true, true)).outcome == Done && HasManifest(s, r)
    ensures var promoted := Step(s, Promote(r, true, true)).state;
            var back := Step(promoted, Rollback(r, true, true));
            && promoted.cache.current == r && promoted.traffic.value == Traffic(r, live, r, true)
            && back.outcome == Done
            && back.state.cache.current == back.state.cache.stable == live
            && back.state.traffic == Some(Traffic(live, r, live, false))
            && back.state.roots[r].record.value.state == Failed
            && Step(back.state, Rollback(r, true, true)) == back
  {
    InvariantIsInductive(s, Promote(r, true, true));
    PreviousUnderAgreement(s, r);
    var promoted := Step(s, Promote(r, true, true)).state;
    PlanUnderAgreement(promoted, r);
    InvariantIsInductive(promoted, Rollback(r, true, true));
    var back := Step(promoted, Rollback(r, true, true)).state;
    assert back.roots[r].record == Some(Walk(s.roots[r].record.value, [Unhealthy, Failed]));
    RollBackAgain(back, r);
  }

  /** Rolling back a stray that has failed and is draining already changes nothing. */
  lemma RollBackAgain(s: State, r: RevisionId)
    requires Inv(s) && Trimmed(r) && r !in {"", s.cache.current} && s.cache.current != "" && HasFailed(s, r)
    requires s.cache == RevisionCache(s.cache.current, s.cache.current, "", "", "", None, r)
    requires s.traffic == Some(Traffic(s.cache.current, r, s.cache.current, false))
    ensures Step(s, Rollback(r, true, true)) == Reply(s, Done)
  {
    PlanUnderAgreement(s, r);
    assert s.roots[r := s.roots[r]] == s.roots;
  }

  predicate HasFailed(s: State, r: RevisionId) {
    HasRecord(s, r) && s.roots[r].record.value.state == Failed
  }

  lemma FailedStays(s: State, c: Command, r: RevisionId)
    requires HasFailed(s, r) && HasRecord(Step(s, c).state, r)
    ensures HasFailed(Step(s, c).state, r)
  {
  }

  lemma FailedIsNotPromoted(s: State, r: RevisionId, gatewayReady: bool, sidecarsReady: bool)
    requires HasFailed(s, r)
    ensures Step(s, Promote(r, gatewayReady, sidecarsReady)).outcome != Done
  {
  }

  lemma {:induction false} FailedUntil(cmds: seq<Command>, from: nat, r: RevisionId)
    requires from <= |cmds| && HasFailed(Run(cmds[..from]), r)
    requires forall k :: from <= k <= |cmds| ==> HasRecord(Run(cmds[..k]), r)
    ensures HasFailed(Run(cmds), r)
    decreases |cmds| - from
  {
    assert cmds[..|cmds|] == cmds;
    if from < |cmds| {
      assert cmds[..from + 1][..from] == cmds[..from];
      FailedStays(Run(cmds[..from]), cmds[from], r);
      FailedUntil(cmds, from + 1, r);
    }
  }

  /** While its record lives, a failed revision stays failed, so no later command promotes it. */
  lemma FailedIsAbsorbing(cmds: seq<Command>, from: nat, r: RevisionId)
    requires from <= |cmds| && HasFailed(Run(cmds[..from]), r)
    requires forall k :: from <= k <= |cmds| ==> HasRecord(Run(cmds[..k]), r)
    ensures HasFailed(Run(cmds), r)
    ensures forall gatewayReady, sidecarsReady ::
              Step(Run(cmds), Promote(r, gatewayReady, sidecarsReady)).outcome != Done
  {
    FailedUntil(cmds, from, r);
    forall gatewayReady, sidecarsReady
      ensures Step(Run(cmds), Promote(r, gatewayReady, sidecarsReady)).outcome != Done
    {
      FailedIsNotPromoted(Run(cmds), r, gatewayReady, sidecarsReady);
    }
  }
}
