/**
 Promotions and rollbacks that stop half way: the traffic record is written before the revision cache, and a write
 in between, or that of the cache, can fail. What such a stop leaves, and what the next attempt makes of it.
 */
module RolloutInterrupted {
  import opened Text
  import opened Candidate
  import opened Rollout

  /**
   Where a handler that passed its checks stops with an error, if it does. A candidate record that cannot be saved
   stops a promotion; a rollback only logs that it could not note the failure there, and goes on.
   */
  datatype Stop = Never | AtOnce | BeforeTraffic | AfterTraffic | Unnoted | AfterRecord

  function WithRoot(roots: map<RevisionId, Workspace>, r: RevisionId): map<RevisionId, Workspace> {
    if r in roots then roots else roots[r := Workspace(false, None)]
  }

  /** What a promotion has written by then: its traffic record or nothing. */
  function PromotedUpTo(s: State, done: State, stop: Stop): State {
    match stop
    case Never => done
    case AtOnce | BeforeTraffic => s
    case AfterTraffic | Unnoted | AfterRecord => s.(traffic := done.traffic)
  }

  /** What a rollback has written by then: the commanded root, the traffic record, the note on the candidate. */
  function RolledBackUpTo(s: State, r: RevisionId, done: State, stop: Stop): State {
    match stop
    case Never => done
    case AtOnce => s
    case BeforeTraffic => s.(roots := WithRoot(s.roots, r))
    case AfterTraffic => State(s.cache, done.traffic, WithRoot(s.roots, r))
    case Unnoted => done.(roots := WithRoot(s.roots, r))
    case AfterRecord => State(s.cache, done.traffic, done.roots)
  }

  /** A promotion or rollback that may stop half way; a refused one has nothing to stop. */
  function Attempt(s: State, c: Command, stop: Stop): Reply
    requires c.Promote? || c.Rollback?
  {
    var full := Step(s, c);
    if full.outcome != Done || stop == Never then full
    else
      Reply(
        if c.Promote? then PromotedUpTo(s, full.state, stop) else RolledBackUpTo(s, c.revision, full.state, stop),
        if c.Rollback? && stop == Unnoted then Done else Refused(PersistFailed))
  }

  // ---------------------------------------------------------------- promotions

  /** A promotion reads nothing that an interrupted one has written, so a retry ends where it would have ended. */
  lemma RetriedPromotionCompletes(s: State, r: RevisionId, stop: Stop)
    requires Step(s, Promote(r, true, true)).outcome == Done
    ensures Step(Attempt(s, Promote(r, true, true), stop).state, Promote(r, true, true)).outcome == Done
    ensures stop != Never ==>
              Step(Attempt(s, Promote(r, true, true), stop).state, Promote(r, true, true))
                == Step(s, Promote(r, true, true))
  {
  }

  /** Cache and traffic still agree exactly when the live revision, with nothing to return to, was promoted again. */
  lemma InterruptedPromotionAgreesExactlyWhen(s: State, r: RevisionId)
    requires Agreement(s) && Trimmed(r) && Step(s, Promote(r, true, true)).outcome == Done
    ensures Agreement(Attempt(s, Promote(r, true, true), AfterTraffic).state)
       <==> r == s.cache.current && s.cache.draining == ""
  {
    PreviousUnderAgreement(s, r);
  }

  /**
   After an interrupted promotion of r over a live S, rolling r back returns to S only if the cache still names no
   predecessor of S; else it skips S and returns to that predecessor.
   */
  lemma RollbackAfterInterruptedPromotion(s: State, r: RevisionId)
    requires Agreement(s) && Trimmed(r) && s.cache.current !in {"", r}
    requires Step(s, Promote(r, true, true)).outcome == Done
    ensures var torn := Attempt(s, Promote(r, true, true), AfterTraffic).state;
            SelectRollbackPlan(r, torn.cache, torn.traffic.value)
              == RollbackPlan(
                   r,
                   if s.cache.previousStable == "" then s.cache.current
                   else if s.cache.previousStable == r then "" else s.cache.previousStable,
                   PromotedUnhealthy)
  {
    PreviousUnderAgreement(s, r);
    FirstOfTrimmed([s.cache.current, s.cache.stable, r]);
    FirstOfTrimmed([s.cache.previousStable, s.cache.current]);
    FirstOfTrimmed([r, s.cache.current, r]);
  }

  /** So it returns to the revision that was live before exactly when the cache names no predecessor. */
  lemma InterruptedPromotionIsUndoneExactlyWhen(s: State, r: RevisionId)
    requires Inv(s) && Trimmed(r) && s.cache.current !in {"", r} && Step(s, Promote(r, true, true)).outcome == Done
    ensures var torn := Attempt(s, Promote(r, true, true), AfterTraffic).state;
            var back := Step(torn, Rollback(r, true, true));
            back.outcome == Done && back.state.cache.current == s.cache.current <==> s.cache.previousStable == ""
  {
    RollbackAfterInterruptedPromotion(s, r);
  }

  // ---------------------------------------------------------------- rollbacks

  predicate WroteTraffic(stop: Stop) {
    stop == AfterTraffic || stop == AfterRecord
  }

  lemma RolledBackTwice(w: Workspace)
    ensures RolledBack(RolledBack(w)) == RolledBack(w)
  {
    if w.record.Some? {
      WalkEndsAt(w.record.value, RollbackPath(w.record.value.state));
    }
  }

  /** After an interrupted rollback of a stray, the plan for the stray is what it was. */
  lemma StrayPlanStays(s: State, r: RevisionId, stop: Stop)
    requires Agreement(s) && s.traffic.Some? && Trimmed(r) && r !in {"", s.cache.current}
    requires Step(s, Rollback(r, true, true)).outcome == Done && WroteTraffic(stop)
    ensures var torn := Attempt(s, Rollback(r, true, true), stop).state;
            && torn.traffic == Step(s, Rollback(r, true, true)).state.traffic
            && SelectRollbackPlan(r, torn.cache, torn.traffic.value)
                 == SelectRollbackPlan(r, s.cache, s.traffic.value) == RollbackPlan(r, s.cache.current, CandidateFailed)
  {
    PlanUnderAgreement(s, r);
    FirstOfTrimmed([s.cache.current, s.cache.stable, s.cache.current]);
  }

  lemma RetriedRoots(s: State, r: RevisionId, stop: Stop)
    requires Step(s, Rollback(r, true, true)).outcome == Done && WroteTraffic(stop)
    ensures var done := Step(s, Rollback(r, true, true)).state.roots;
            var torn := Attempt(s, Rollback(r, true, true), stop).state.roots;
            && r in torn && torn[r := RolledBack(torn[r])] == done
            && (forall id :: id in s.roots ==> id in torn && torn[id].manifest == s.roots[id].manifest)
  {
    RolledBackTwice(if r in s.roots then s.roots[r] else Workspace(false, None));
  }

  /** Retrying an interrupted rollback of a stray ends where the rollback would have ended. */
  lemma RetriedStrayRollbackCompletes(s: State, r: RevisionId, stop: Stop)
    requires Agreement(s) && s.traffic.Some? && Trimmed(r) && r !in {"", s.cache.current}
    requires Step(s, Rollback(r, true, true)).outcome == Done && WroteTraffic(stop)
    ensures Step(Attempt(s, Rollback(r, true, true), stop).state, Rollback(r, true, true))
         == Step(s, Rollback(r, true, true))
  {
    StrayPlanStays(s, r, stop);
    RetriedRoots(s, r, stop);
  }

  /** After an interrupted rollback of the live revision, the plan points the other way, or nowhere. */
  lemma LivePlanTurns(s: State, stop: Stop)
    requires Agreement(s) && s.traffic.Some? && WroteTraffic(stop)
    requires Step(s, Rollback(s.cache.current, true, true)).outcome == Done
    ensures s.cache.draining != ""
    ensures var torn := Attempt(s, Rollback(s.cache.current, true, true), stop).state;
            && torn.traffic.Some?
            && SelectRollbackPlan(s.cache.current, torn.cache, torn.traffic.value)
                 == RollbackPlan(
                      s.cache.draining, if s.cache.previousStable == "" then s.cache.current else "", PromotedUnhealthy)
  {
    PlanUnderAgreement(s, s.cache.current);
    FirstOfTrimmed([s.cache.current, s.cache.stable, s.cache.draining]);
    FirstOfTrimmed([s.cache.previousStable, s.cache.current]);
    FirstOfTrimmed([s.cache.draining, s.cache.current, s.cache.current]);
  }

  /**
   Retrying an interrupted rollback of the live revision never completes it: with a predecessor in the cache it is
   refused, and without one it sends traffic back to the revision that was to be rolled back.
   */
  lemma RetriedLiveRollbackGoesWrong(s: State, stop: Stop)
    requires Inv(s) && s.traffic.Some? && WroteTraffic(stop)
    requires Step(s, Rollback(s.cache.current, true, true)).outcome == Done
    ensures var live := s.cache.current;
            var again := Step(Attempt(s, Rollback(live, true, true), stop).state, Rollback(live, true, true));
            if s.cache.previousStable != "" then again.outcome == Refused(PreviousStableMissing)
            else again.outcome == Done && again.state.cache.current == live && again.state.traffic.value.active == live
  {
    LivePlanTurns(s, stop);
    RetriedRoots(s, s.cache.current, stop);
  }

  // ---------------------------------------------------------------- rollbacks without a note

  /** Such a rollback is as safe as one with the note. */
  lemma UnnotedRollbackIsSafeExactlyWhen(s: State, r: RevisionId)
    requires Inv(s) && Trimmed(r) && r != ""
    ensures Inv(Attempt(s, Rollback(r, true, true), Unnoted).state) <==> s.cache.current == "" || HasManifest(s, r)
  {
    if s.traffic.Some? {
      RollbackKeepsAgreement(s, r, true, true);
      PlanUnderAgreement(s, r);
    }
  }

  lemma NoteBarsPromotion(s: State, r: RevisionId)
    requires Step(s, Rollback(r, true, true)).outcome == Done
    ensures Step(Step(s, Rollback(r, true, true)).state, Promote(r, true, true)).outcome != Done
  {
    if HasRecord(s, r) {
      WalkEndsAt(s.roots[r].record.value, RollbackPath(s.roots[r].record.value.state));
    }
  }

  lemma UnnotedKeepsRecord(s: State, r: RevisionId)
    requires Step(s, Rollback(r, true, true)).outcome == Done
    ensures var unnoted := Attempt(s, Rollback(r, true, true), Unnoted);
            && unnoted.outcome == Done && Trim(r) != ""
            && RecordOf(unnoted.state, r) == RecordOf(s, r)
  {
  }

  lemma RecordDecidesPromotion(s: State, t: State, r: RevisionId)
    requires RecordOf(s, r) == RecordOf(t, r)
    ensures Step(s, Promote(r, true, true)).outcome == Step(t, Promote(r, true, true)).outcome
  {
  }

  /**
   The note is what bars the way: with it the revision cannot be promoted again, and without it a promotion does
   what it would have done before the rollback.
   */
  lemma OnlyTheNoteBarsPromotion(s: State, r: RevisionId)
    requires Step(s, Rollback(r, true, true)).outcome == Done
    ensures Step(Step(s, Rollback(r, true, true)).state, Promote(r, true, true)).outcome != Done
    ensures var unnoted := Attempt(s, Rollback(r, true, true), Unnoted);
            && unnoted.outcome == Done
            && Step(unnoted.state, Promote(r, true, true)).outcome == Step(s, Promote(r, true, true)).outcome
  {
    NoteBarsPromotion(s, r);
    UnnotedKeepsRecord(s, r);
    RecordDecidesPromotion(Attempt(s, Rollback(r, true, true), Unnoted).state, s, r);
  }

  /** So a promoted revision that is rolled back without the note can be promoted once more. */
  lemma PromotedAgainAfterUnnotedRollback(s: State, r: RevisionId)
    requires Inv(s) && Trimmed(r) && s.cache.current !in {"", r} && HasManifest(s, r)
    requires Step(s, Promote(r, true, true)).outcome == Done
    ensures var back := Attempt(Step(s, Promote(r, true, true)).state, Rollback(r, true, true), Unnoted);
            && back.outcome == Done && back.state.cache.current == s.cache.current
            && Step(back.state, Promote(r, true, true)).outcome == Done
  {
    var promoted := Step(s, Promote(r, true, true)).state;
    InvariantIsInductive(s, Promote(r, true, true));
    PreviousUnderAgreement(s, r);
    PlanUnderAgreement(promoted, r);
    OnlyTheNoteBarsPromotion(promoted, r);
  }
}
