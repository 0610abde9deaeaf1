/** When a rollout command is refused and why, what each accepted one changes, and what a stop half way has written. */
module RolloutRefusals {
  import opened Text
  import opened Candidate
  import opened Rollout
  import opened RolloutRuns
  import opened RolloutInterrupted

  /** A refused command changes nothing, but for a failed preparation and a collection that got stuck. */
  lemma RefusedChangesNothing(s: State, c: Command)
    requires Step(s, c).outcome.Refused?
    ensures Step(s, c).state != s ==> Step(s, c).outcome.why in {PrepareFailed, RemovalFailed}
    ensures Step(s, c).state.cache == s.cache && Step(s, c).state.traffic == s.traffic
  {
  }

  /** The first reason that holds refuses a promotion; with none it is accepted. */
  lemma PromotionRefusedExactlyWhen(s: State, r: RevisionId, gatewayReady: bool, sidecarsReady: bool)
    ensures var outcome, named := Step(s, Promote(r, gatewayReady, sidecarsReady)).outcome, Trim(r) != "";
            var recorded := r in s.roots && s.roots[r].record.Some?;
            var ready := recorded && s.roots[r].record.value.state == Promotable
              && s.roots[r].record.value.gate.Some? && s.roots[r].record.value.gate.value.promotable;
            && (outcome == Refused(RevisionRequired) <==> !named)
            && (outcome == Refused(RecordMissing) <==> named && !recorded)
            && (outcome == Refused(NotPromotable) <==> named && recorded && !ready)
            && (outcome == Refused(GatewayNotReady) <==> named && ready && !gatewayReady)
            && (outcome == Refused(SidecarsNotReady) <==> named && ready && gatewayReady && !sidecarsReady)
            && (outcome == Done <==> named && ready && gatewayReady && sidecarsReady)
  {
  }

  /** An accepted promotion makes its revision live and stable, drains the one that was, and ends the candidacy. */
  lemma PromotionShiftsTraffic(s: State, r: RevisionId, live: RevisionId)
    requires Step(s, Promote(r, true, true)).outcome == Done
    requires live == if Trim(s.cache.current) != "" then Trim(s.cache.current) else Trim(s.cache.stable)
    ensures var t, previous := Step(s, Promote(r, true, true)).state, if live == r then "" else live;
            && t.roots == s.roots && t.traffic == Some(Traffic(r, previous, r, previous != ""))
            && t.cache.current == r && t.cache.stable == r
            && t.cache.previousStable == previous && t.cache.draining == previous
            && t.cache.pending == "" && t.cache.candidate == "" && t.cache.candidateState == None
  {
  }

  /**
   In any state: another revision than the live one is rolled back onto the live one, as the cache or else the traffic
   record names it; the live one is rolled back onto its predecessor, as the cache or else the traffic record names it.
   */
  lemma PlanPrefersTheCache(
    r: RevisionId, cache: RevisionCache, traffic: Traffic, live: RevisionId, previous: RevisionId)
    requires live == if Trim(cache.current) != "" then cache.current
                     else if Trim(cache.stable) != "" then cache.stable
                     else if Trim(traffic.active) != "" then traffic.active else ""
    requires previous == if Trim(cache.previousStable) != "" then cache.previousStable
                         else if Trim(traffic.previous) != "" then traffic.previous else ""
    ensures var plan := SelectRollbackPlan(r, cache, traffic);
            if Trim(r) !in {"", live, traffic.active} then plan == RollbackPlan(Trim(r), live, CandidateFailed)
            else
              && plan.scenario == PromotedUnhealthy
              && (Trim(traffic.active) != "" ==> plan.failed == traffic.active)
              && (Trim(traffic.active) == "" && Trim(cache.current) != "" ==> plan.failed == cache.current)
              && plan.restored == if previous == plan.failed then "" else previous
  {
    FirstThree(cache.current, cache.stable, traffic.active);
    FirstThree(traffic.active, cache.current, Trim(r));
    FirstOrNext(cache.previousStable, [traffic.previous]);
    FirstOrNext(traffic.previous, []);
    assert [traffic.previous] + [] == [traffic.previous];
    assert [cache.previousStable] + [traffic.previous] == [cache.previousStable, traffic.previous];
  }

  lemma FirstThree(a: string, b: string, c: string)
    ensures FirstNonEmpty([a, b, c])
         == if Trim(a) != "" then a else if Trim(b) != "" then b else if Trim(c) != "" then c else ""
  {
    FirstOrNext(a, [b, c]);
    FirstOrNext(b, [c]);
    FirstOrNext(c, []);
    assert [c] + [] == [c] && [b] + [c] == [b, c] && [a] + [b, c] == [a, b, c];
  }

  /** An accepted rollback makes the restored revision live, drains the failed one, and ends the candidacy. */
  lemma RollbackShiftsTraffic(s: State, r: RevisionId)
    requires Agreement(s) && Trimmed(r) && Step(s, Rollback(r, true, true)).outcome == Done
    ensures var t := Step(s, Rollback(r, true, true)).state;
            var restored := if r != s.cache.current then s.cache.current else s.cache.draining;
            var failed := if r != s.cache.current then r else s.cache.current;
            && t.traffic == Some(Traffic(restored, failed, restored, false))
            && t.cache.current == restored && t.cache.stable == restored
            && t.cache.previousStable == "" && t.cache.draining == failed
            && t.cache.pending == "" && t.cache.candidate == "" && t.cache.candidateState == None
            && t.roots - {r} == s.roots - {r}
  {
    PlanUnderAgreement(s, r);
  }

  /** The first reason that holds refuses a rollback in an agreeing state. */
  lemma RollbackRefusedExactlyWhen(s: State, r: RevisionId, gatewayReady: bool, sidecarsReady: bool)
    requires Agreement(s) && Trimmed(r)
    ensures var outcome, open := Step(s, Rollback(r, gatewayReady, sidecarsReady)).outcome, r != "" && s.traffic.Some?;
            var restored := if r != s.cache.current then s.cache.current else s.cache.draining;
            var checked := open && gatewayReady && sidecarsReady;
            && (outcome == Refused(RevisionRequired) <==> r == "")
            && (outcome == Refused(TrafficMissing) <==> r != "" && s.traffic.None?)
            && (outcome == Refused(GatewayNotReady) <==> open && !gatewayReady)
            && (outcome == Refused(SidecarsNotReady) <==> open && gatewayReady && !sidecarsReady)
            && (outcome == Refused(PreviousStableMissing) <==> checked && restored == "")
            && (outcome == Refused(StableWorkspaceMissing) <==> checked && restored != "" && restored !in s.roots)
            && (outcome == Refused(StableManifestMissing) <==>
                  checked && restored != "" && restored in s.roots && !s.roots[restored].manifest)
            && (outcome == Done <==>
                  checked && restored != "" && restored in s.roots && s.roots[restored].manifest)
  {
    if r != "" && s.traffic.Some? {
      PlanUnderAgreement(s, r);
    }
  }

  /** Starting needs the manifest and then the runtime; a found record goes on where it was, unless only prepared. */
  lemma StartExactly(s: State, r: RevisionId, runtimeUp: bool)
    requires Trim(r) != ""
    ensures var reply, prepared := Step(s, Start(r, runtimeUp)), r in s.roots && s.roots[r].manifest;
            && (reply.outcome == Refused(ManifestMissing) <==> !prepared)
            && (reply.outcome == Refused(RuntimeDown) <==> prepared && !runtimeUp)
            && (reply.outcome == Done <==> prepared && runtimeUp)
            && (reply.outcome == Done ==>
                  && HasRecord(reply.state, r) && reply.state.roots[r].manifest
                  && reply.state.roots - {r} == s.roots - {r}
                  && var found, record := s.roots[r].record, reply.state.roots[r].record.value;
                     if found.Some? && found.value.state != Prepared then record == found.value
                     else
                       && record.state == Starting && |record.history| >= 1
                       && record.history[|record.history| - 1] == Transition(Some(Prepared), Starting)
                       && (found.None? ==>
                             record.history[..|record.history| - 1] == [Transition(None, Prepared)]
                             && record.gate == None)
                       && (found.Some? ==>
                             record.history[..|record.history| - 1] == found.value.history
                             && record.gate == found.value.gate))
  {
  }

  /** A gate passes if every verdict does, and then the record is promotable with that on it; else it is failed. */
  lemma GateExactly(s: State, r: RevisionId, verdicts: seq<bool>, cancelled: bool)
    requires Trim(r) != ""
    ensures var reply, passed := Step(s, RunGate(r, verdicts, cancelled)), false !in verdicts;
            var recorded := r in s.roots && s.roots[r].record.Some?;
            && (reply.outcome == Refused(RecordMissing) <==> !recorded)
            && (reply.outcome == Refused(GateCancelled) <==> recorded && cancelled)
            && (recorded && !cancelled ==>
                  var state := s.roots[r].record.value.state;
                  && (reply.outcome == Refused(GateNotApplicable) <==> state == Prepared || (passed && state == Failed))
                  && (reply.outcome == Done <==> state != Prepared && (passed ==> state != Failed))
                  && (reply.outcome == Done ==>
                        && HasRecord(reply.state, r) && reply.state.roots[r].manifest == s.roots[r].manifest
                        && reply.state.roots - {r} == s.roots - {r}
                        && reply.state.roots[r].record.value.state == (if passed then Promotable else Failed)
                        && reply.state.roots[r].record.value.gate
                             == Some(GateSnapshot(if passed then Promotable else Failed, passed))))
  {
    assert AllPassed(verdicts) <==> false !in verdicts;
    if r in s.roots && s.roots[r].record.Some? && !cancelled {
      var record := s.roots[r].record.value;
      if GatePath(record.state, AllPassed(verdicts)).Some? {
        WalkEndsAt(record, GatePath(record.state, AllPassed(verdicts)).value);
      }
    }
  }

  /** A preparation leaves its root with a manifest and the record it found, or what its removal leaves, or nothing. */
  lemma PrepareExactly(s: State, r: RevisionId, fate: PrepareFate)
    requires Trim(r) != ""
    ensures var reply := Step(s, Prepare(r, fate));
            var found := if r in s.roots then s.roots[r].record else None;
            && (reply.outcome == Done <==> fate.Finished?)
            && reply.outcome in {Done, Refused(PrepareFailed)}
            && reply.state.roots - {r} == s.roots - {r}
            && (fate.RejectedEarly? ==> reply.state == s)
            && (fate.Finished? ==> r in reply.state.roots && reply.state.roots[r] == Workspace(true, found))
            && (fate.FailedLate? && fate.left.Nothing? ==> r !in reply.state.roots)
            && (fate.FailedLate? && fate.left.Remains? ==>
                  r in reply.state.roots
                  && reply.state.roots[r] == Workspace(fate.left.manifest, if fate.left.record then found else None))
  {
  }

  // ---------------------------------------------------------------- stopped half way

  /** A promotion writes its traffic record and then the cache; each is there exactly if it stopped behind it. */
  lemma PromotionWritesInOrder(s: State, r: RevisionId, stop: Stop)
    requires Step(s, Promote(r, true, true)).outcome == Done
    ensures var done, reply := Step(s, Promote(r, true, true)).state, Attempt(s, Promote(r, true, true), stop);
            && reply.outcome == (if stop == Never then Done else Refused(PersistFailed))
            && reply.state.roots == s.roots
            && reply.state.traffic == (if stop in {AtOnce, BeforeTraffic} then s.traffic else done.traffic)
            && reply.state.cache == (if stop == Never then done.cache else s.cache)
  {
  }

  /**
   A rollback makes the commanded root if it is not there, writes the traffic record, notes the failure and writes
   the cache, in this order; a lost note alone does not stop it.
   */
  lemma RollbackWritesInOrder(s: State, r: RevisionId, stop: Stop)
    requires Step(s, Rollback(r, true, true)).outcome == Done
    ensures var done, reply := Step(s, Rollback(r, true, true)).state, Attempt(s, Rollback(r, true, true), stop);
            && reply.outcome == (if stop in {Never, Unnoted} then Done else Refused(PersistFailed))
            && reply.state.roots - {r} == s.roots - {r}
            && (r in reply.state.roots <==> r in s.roots || stop != AtOnce)
            && (r in reply.state.roots ==> reply.state.roots[r].manifest == (r in s.roots && s.roots[r].manifest))
            && RecordOf(reply.state, r) == (if stop in {Never, AfterRecord} then RecordOf(done, r) else RecordOf(s, r))
            && reply.state.traffic == (if stop in {AtOnce, BeforeTraffic} then s.traffic else done.traffic)
            && reply.state.cache == (if stop in {Never, Unnoted} then done.cache else s.cache)
  {
  }

  /** The note: a record that is promotable, healthy or unhealthy has failed after an accepted rollback of it. */
  lemma RollbackNotesTheFailure(s: State, r: RevisionId)
    requires Step(s, Rollback(r, true, true)).outcome == Done
    ensures var t := Step(s, Rollback(r, true, true)).state;
            && r in t.roots && (HasRecord(t, r) <==> HasRecord(s, r))
            && (HasRecord(s, r) ==>
                  var was, now := s.roots[r].record.value, t.roots[r].record.value;
                  && now.gate == was.gate && was.history <= now.history
                  && now.state == if was.state in {Promotable, Healthy, Unhealthy} then Failed else was.state)
  {
    if HasRecord(s, r) {
      var record := s.roots[r].record.value;
      WalkEndsAt(record, RollbackPath(record.state));
      WalkExtends(record, RollbackPath(record.state));
    }
  }

  lemma {:induction false} WalkExtends(record: Record, path: seq<CandidateState>)
    ensures record.history <= Walk(record, path).history && Walk(record, path).gate == record.gate
    decreases |path|
  {
    if path != [] {
      WalkExtends(Moved(record, path[0]), path[1..]);
    }
  }
}
