/** The agent's command handlers as they run: each changes the cache, the traffic record and the roots step by step. */
module RolloutAgent {
  import opened Text
  import opened Candidate
  import opened Rollout
  import opened RolloutCollections
  import opened RolloutInterrupted

  /** The entries of the directory of roots, each once. */
  predicate Listing(listing: seq<RevisionId>, roots: map<RevisionId, Workspace>) {
    && (roots.Keys == set id | id in listing)
    && forall i, j :: 0 <= i < j < |listing| ==> listing[i] != listing[j]
  }

  /**
   Removes unprotected roots in directory order, stopping at the first one that cannot be removed; `stuck` says
   which cannot, and what a failed removal leaves of them.
   */
  method RemoveUnprotected(
    roots: map<RevisionId, Workspace>, kept: set<RevisionId>, listing: seq<RevisionId>,
    stuck: map<RevisionId, Leftover>)
      returns (left: map<RevisionId, Workspace>, failed: Option<Stuck>, ghost removed: set<RevisionId>)
    requires Listing(listing, roots) && forall id :: id in stuck ==> stuck[id].Remains?
    ensures removed !! kept && removed !! stuck.Keys
    ensures var rest := Keep(roots, roots.Keys - removed + kept);
            if failed.Some?
            then failed.value.id in roots.Keys - kept - removed
                 && left == rest[failed.value.id := Stripped(roots[failed.value.id], failed.value)]
            else roots.Keys - kept <= removed && left == rest
    ensures failed.Some? <==> exists id :: id in stuck && id in roots && id !in kept
  {
    left, failed, removed := roots, None, {};
    for k := 0 to |listing|
      invariant left == roots - removed
      invariant removed == set id | id in listing[..k] && id !in kept
      invariant removed !! stuck.Keys
    {
      assert listing[..k + 1] == listing[..k] + [listing[k]];
      var id := listing[k];
      if id in kept {
        continue;
      }
      assert left == Keep(roots, roots.Keys - removed + kept) && id !in removed;
      if id in stuck {
        failed := Some(Stuck(id, stuck[id].manifest, stuck[id].record));
        left := left[id := Stripped(left[id], failed.value)];
        return;
      }
      left := left - {id};
      removed := removed + {id};
    }
    assert listing[..|listing|] == listing;
    assert left == Keep(roots, roots.Keys - removed + kept);
  }

  /** Loads the candidate record of a root, if there is one, notes the failure in it and saves it. */
  method NoteRolledBack(w: Workspace) returns (noted: Workspace)
    ensures noted == RolledBack(w)
  {
    if w.record.None? {
      return w;
    }
    var candidate := new CandidateRecord.Load(w.record.value);
    candidate.AnnotateRolledBack();
    var stored := candidate.Save();
    noted := w.(record := Some(stored));
  }

  class Agent {
    var cache: RevisionCache
    var traffic: Option<Traffic>
    var roots: map<RevisionId, Workspace>

    ghost function View(): State
      reads this
    {
      State(cache, traffic, roots)
    }

    constructor ()
      ensures View() == INITIAL
    {
      cache, traffic, roots := EMPTY_CACHE, None, map[];
    }

    method RecordPending(r: RevisionId)
      modifies this`cache
      ensures cache == old(cache).(pending := r)
    {
      cache := cache.(pending := r);
    }

    method RecordCandidate(r: RevisionId, state: CandidateState)
      modifies this`cache
      ensures cache == old(cache).(pending := r, candidate := r, candidateState := Some(state))
    {
      RecordPending(r);
      cache := cache.(candidate := r);
      cache := cache.(candidateState := Some(state));
    }

    method HandlePrepare(r: RevisionId, fate: PrepareFate) returns (outcome: Outcome)
      modifies this
      ensures Reply(View(), outcome) == Step(old(View()), Prepare(r, fate))
    {
      if Trim(r) == "" {
        return Refused(RevisionRequired);
      }
      if fate == RejectedEarly {
        return Refused(PrepareFailed);
      }
      var record := None;
      if r in roots {
        record := roots[r].record;
      } else {
        roots := roots[r := Workspace(false, None)];
      }
      if fate.FailedLate? {
        if fate.left == Nothing {
          roots := roots - {r};
          assert roots == old(roots) - {r};
        } else {
          roots := roots[r := Workspace(fate.left.manifest, if fate.left.record then record else None)];
        }
        return Refused(PrepareFailed);
      }
      roots := roots[r := Workspace(true, record)];
      RecordPending(r);
      return Done;
    }

    method HandleRenderConfig(r: RevisionId) returns (outcome: Outcome)
      modifies this
      ensures Reply(View(), outcome) == Step(old(View()), RenderConfig(r))
    {
      if Trim(r) == "" {
        return Refused(RevisionRequired);
      }
      RecordPending(r);
      return Done;
    }

    method HandleStart(r: RevisionId, runtimeUp: bool) returns (outcome: Outcome)
      modifies this
      ensures Reply(View(), outcome) == Step(old(View()), Start(r, runtimeUp))
    {
      if Trim(r) == "" {
        return Refused(RevisionRequired);
      }
      if r !in roots || !roots[r].manifest {
        return Refused(ManifestMissing);
      }
      if !runtimeUp {
        return Refused(RuntimeDown);
      }
      var candidate: CandidateRecord;
      if roots[r].record.Some? {
        candidate := new CandidateRecord.Load(roots[r].record.value);
        if candidate.state == Prepared {
          var _ := candidate.MoveTo(Starting);
        }
      } else {
        candidate := new CandidateRecord.Load(FRESH);
        var _ := candidate.MoveTo(Starting);
      }
      var stored := candidate.Save();
      roots := roots[r := roots[r].(record := Some(stored))];
      RecordCandidate(r, stored.state);
      return Done;
    }

    method HandleRunGate(r: RevisionId, verdicts: seq<bool>, cancelled: bool) returns (outcome: Outcome)
      modifies this
      ensures Reply(View(), outcome) == Step(old(View()), RunGate(r, verdicts, cancelled))
    {
      if Trim(r) == "" {
        return Refused(RevisionRequired);
      }
      if r !in roots || roots[r].record.None? {
        return Refused(RecordMissing);
      }
      var candidate := new CandidateRecord.Load(roots[r].record.value);
      if cancelled {
        return Refused(GateCancelled);
      }
      var failing := 0;
      for k := 0 to |verdicts|
        invariant 0 <= failing <= k
        invariant failing == 0 <==> AllPassed(verdicts[..k])
      {
        assert verdicts[..k + 1] == verdicts[..k] + [verdicts[k]];
        if !verdicts[k] {
          failing := failing + 1;
          assert !verdicts[..k + 1][k];
        }
      }
      assert verdicts[..|verdicts|] == verdicts;
      var ok;
      if failing == 0 {
        ok := candidate.MoveToPromotable();
      } else {
        ok := candidate.MoveToFailed();
      }
      if !ok {
        return Refused(GateNotApplicable);
      }
      candidate.RecordGate(failing == 0);
      var stored := candidate.Save();
      roots := roots[r := roots[r].(record := Some(stored))];
      RecordCandidate(r, stored.state);
      return Done;
    }

    method FindPreviousStable(r: RevisionId) returns (previous: RevisionId)
      ensures previous == PreviousStable(r, cache)
    {
      previous := Trim(cache.current);
      if previous == "" {
        previous := Trim(cache.stable);
      }
      if previous == r {
        previous := "";
      }
    }

    /** Why a promotion cannot go ahead, if it cannot. */
    method CheckPromotion(r: RevisionId, gatewayReady: bool, sidecarsReady: bool) returns (objection: Option<Refusal>)
      ensures var full := Step(View(), Promote(r, gatewayReady, sidecarsReady));
              if objection.Some? then full == Reply(View(), Refused(objection.value)) else full.outcome == Done
    {
      if Trim(r) == "" {
        return Some(RevisionRequired);
      }
      if r !in roots || roots[r].record.None? {
        return Some(RecordMissing);
      }
      var record := roots[r].record.value;
      if record.state != Promotable || record.gate.None? || !record.gate.value.promotable {
        return Some(NotPromotable);
      }
      if !gatewayReady {
        return Some(GatewayNotReady);
      }
      return if sidecarsReady then None else Some(SidecarsNotReady);
    }

    method RecordPromotion(r: RevisionId, previous: RevisionId)
      modifies this`cache
      ensures cache == RevisionCache(r, r, previous, "", "", None, previous)
    {
      RecordPending(r);
      cache := cache.(current := r);
      cache := cache.(previousStable := previous);
      cache := cache.(stable := r);
      cache := cache.(pending := "", candidate := "", candidateState := None);
      cache := cache.(draining := previous);
    }

    method HandlePromote(r: RevisionId, gatewayReady: bool, sidecarsReady: bool, stop: Stop)
        returns (outcome: Outcome)
      modifies this
      ensures Reply(View(), outcome) == Attempt(old(View()), Promote(r, gatewayReady, sidecarsReady), stop)
    {
      var objection := CheckPromotion(r, gatewayReady, sidecarsReady);
      if objection.Some? {
        return Refused(objection.value);
      }
      var previous := FindPreviousStable(r);
      if stop == AtOnce || stop == BeforeTraffic {
        return Refused(PersistFailed);
      }
      traffic := Some(Traffic(r, previous, r, previous != ""));
      if stop != Never {
        return Refused(PersistFailed);
      }
      RecordPromotion(r, previous);
      return Done;
    }

    /** What a rollback is to do, or why it cannot go ahead. */
    method CheckRollback(r: RevisionId, gatewayReady: bool, sidecarsReady: bool)
        returns (plan: RollbackPlan, objection: Option<Refusal>)
      ensures var full := Step(View(), Rollback(r, gatewayReady, sidecarsReady));
              full == if objection.Some? then Reply(View(), Refused(objection.value))
                      else Reply(AfterRollback(View(), r, plan), Done)
    {
      plan, objection := RollbackPlan("", "", CandidateFailed), None;
      if Trim(r) == "" {
        return plan, Some(RevisionRequired);
      }
      if traffic.None? {
        return plan, Some(TrafficMissing);
      }
      if !gatewayReady {
        return plan, Some(GatewayNotReady);
      }
      if !sidecarsReady {
        return plan, Some(SidecarsNotReady);
      }
      plan := SelectRollbackPlan(r, cache, traffic.value);
      if plan.restored == "" {
        return plan, Some(PreviousStableMissing);
      }
      if plan.restored !in roots {
        return plan, Some(StableWorkspaceMissing);
      }
      if !roots[plan.restored].manifest {
        return plan, Some(StableManifestMissing);
      }
    }

    method RecordRollback(plan: RollbackPlan)
      modifies this`cache
      ensures cache == RevisionCache(plan.restored, plan.restored, "", "", "", None, plan.failed)
    {
      cache := cache.(current := plan.restored);
      cache := cache.(stable := plan.restored);
      cache := cache.(previousStable := "");
      cache := cache.(pending := "", candidate := "", candidateState := None);
      cache := cache.(draining := plan.failed);
    }

    /** Carries a rollback out, up to the write that fails, if one does. */
    method ApplyRollback(r: RevisionId, plan: RollbackPlan, stop: Stop) returns (outcome: Outcome)
      modifies this
      ensures View() == RolledBackUpTo(old(View()), r, AfterRollback(old(View()), r, plan), stop)
      ensures outcome == if stop in {Never, Unnoted} then Done else Refused(PersistFailed)
    {
      if stop == AtOnce {
        return Refused(PersistFailed);
      }
      if r !in roots {
        roots := roots[r := Workspace(false, None)];
      }
      if stop == BeforeTraffic {
        return Refused(PersistFailed);
      }
      traffic := Some(Traffic(plan.restored, plan.failed, plan.restored, false));
      if stop == AfterTraffic {
        return Refused(PersistFailed);
      }
      if stop != Unnoted {
        var noted := NoteRolledBack(roots[r]);
        roots := roots[r := noted];
        assert roots == old(roots)[r := RolledBack(if r in old(roots) then old(roots)[r] else Workspace(false, None))];
      }
      if stop == AfterRecord {
        return Refused(PersistFailed);
      }
      RecordRollback(plan);
      return Done;
    }

    method HandleRollback(r: RevisionId, gatewayReady: bool, sidecarsReady: bool, stop: Stop)
        returns (outcome: Outcome)
      modifies this
      ensures Reply(View(), outcome) == Attempt(old(View()), Rollback(r, gatewayReady, sidecarsReady), stop)
    {
      var plan, objection := CheckRollback(r, gatewayReady, sidecarsReady);
      if objection.Some? {
        return Refused(objection.value);
      }
      outcome := ApplyRollback(r, plan, stop);
    }

    method Protect(r: RevisionId) returns (kept: set<RevisionId>)
      ensures kept == ProtectedRevisions(r, cache)
    {
      kept := {};
      for k := 0 to 7
        invariant kept == set id | id in Named(r)[..k] && Trim(id) != ""
      {
        if Trim(Named(r)[k]) != "" {
          kept := kept + {Named(r)[k]};
        }
      }
      assert Named(r)[..7] == Named(r);
    }

    method HandleCollect(r: RevisionId, listing: seq<RevisionId>, stuck: map<RevisionId, Leftover>)
        returns (outcome: Outcome, ghost removed: set<RevisionId>, ghost at: Option<Stuck>)
      requires Listing(listing, roots) && forall id :: id in stuck ==> stuck[id].Remains?
      modifies this
      ensures Reply(View(), outcome) == Step(old(View()), Collect(r, removed, at))
      ensures removed !! ProtectedRevisions(r, old(cache)) && removed !! stuck.Keys
      ensures Trim(r) != "" ==> (outcome == Done <==> stuck.Keys * old(roots).Keys <= ProtectedRevisions(r, old(cache)))
      ensures forall id :: id in old(roots) && Trim(id) != "" && id in old(Named(r)) ==>
                id in roots && roots[id] == old(roots)[id]
      ensures Trim(r) != "" && outcome == Done ==> forall id :: id in roots ==> Trim(id) != "" && id in old(Named(r))
    {
      removed, at := {}, None;
      if Trim(r) == "" {
        return Refused(RevisionRequired), removed, None;
      }
      var kept := Protect(r);
      var left, failed;
      left, failed, removed := RemoveUnprotected(roots, kept, listing, stuck);
      roots := left;
      outcome, at := if failed.Some? then Refused(RemovalFailed) else Done, failed;
      forall id | id in old(roots) {
        CollectionLeavesExactlyTheNamed(old(View()), r, removed, at, id);
      }
    }

    function Named(r: RevisionId): (ids: seq<RevisionId>)
      reads this`cache
      ensures |ids| == 7
      ensures forall id :: id in ids <==>
                id in {r, cache.current, cache.stable, cache.previousStable, cache.pending, cache.candidate,
                       cache.draining}
    {
      [r, cache.current, cache.stable, cache.previousStable, cache.pending, cache.candidate, cache.draining]
    }
  }
}
