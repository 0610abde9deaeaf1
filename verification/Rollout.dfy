/**
 The rollout protocol of one deployment binding on the filesystem driver, as a state machine:
 the agent's revision cache, the live traffic record and the workspace roots with their candidate records.
 */
module Rollout {
  import opened Text
  import opened Candidate

  type RevisionId = string

  datatype RevisionCache = RevisionCache(
    current: RevisionId,
    stable: RevisionId,
    previousStable: RevisionId,
    pending: RevisionId,
    candidate: RevisionId,
    candidateState: Option<CandidateState>,
    draining: RevisionId)

  datatype Traffic = Traffic(active: RevisionId, previous: RevisionId, stable: RevisionId, rollbackReady: bool)

  /** A workspace root on disk; a root without a manifest is only a directory. */
  datatype Workspace = Workspace(manifest: bool, record: Option<Record>)

  datatype State = State(cache: RevisionCache, traffic: Option<Traffic>, roots: map<RevisionId, Workspace>)

  const EMPTY_CACHE := RevisionCache("", "", "", "", "", None, "")
  const INITIAL := State(EMPTY_CACHE, None, map[])

  /** What a removal leaves of a root: nothing, or a directory that may have lost its manifest or its record. */
  datatype Leftover = Nothing | Remains(manifest: bool, record: bool)

  /** How far a prepare came: rejected before its root was made, failed and tried to remove its root, or done. */
  datatype PrepareFate = RejectedEarly | FailedLate(left: Leftover) | Finished

  /** A root that could not be removed, and what is left of it. */
  datatype Stuck = Stuck(id: RevisionId, manifest: bool, record: bool)

  /** A command together with what the environment answers while it is handled. */
  datatype Command =
    | Prepare(revision: RevisionId, fate: PrepareFate)
    | RenderConfig(revision: RevisionId)
    | Start(revision: RevisionId, runtimeUp: bool)
    | RunGate(revision: RevisionId, verdicts: seq<bool>, cancelled: bool)
    | Promote(revision: RevisionId, gatewayReady: bool, sidecarsReady: bool)
    | Rollback(revision: RevisionId, gatewayReady: bool, sidecarsReady: bool)
    | Collect(revision: RevisionId, removed: set<RevisionId>, stuck: Option<Stuck>)

  datatype Refusal =
    | RevisionRequired
    | PrepareFailed
    | ManifestMissing
    | RuntimeDown
    | RecordMissing
    | GateCancelled
    | GateNotApplicable
    | NotPromotable
    | GatewayNotReady
    | SidecarsNotReady
    | TrafficMissing
    | PreviousStableMissing
    | StableWorkspaceMissing
    | StableManifestMissing
    | RemovalFailed
    | PersistFailed

  datatype Outcome = Done | Refused(why: Refusal)

  datatype Reply = Reply(state: State, outcome: Outcome)

  datatype Scenario = CandidateFailed | PromotedUnhealthy

  datatype RollbackPlan = RollbackPlan(failed: RevisionId, restored: RevisionId, scenario: Scenario)

  function SelectRollbackPlan(revision: RevisionId, cache: RevisionCache, traffic: Traffic): RollbackPlan {
    var candidate := Trim(revision);
    var currentStable := FirstNonEmpty([cache.current, cache.stable, traffic.active]);
    var previousStable := FirstNonEmpty([cache.previousStable, traffic.previous]);
    if candidate != "" && candidate != currentStable && candidate != traffic.active then
      RollbackPlan(candidate, if currentStable == candidate then "" else currentStable, CandidateFailed)
    else
      var failed := FirstNonEmpty([traffic.active, cache.current, candidate]);
      RollbackPlan(failed, if previousStable == failed then "" else previousStable, PromotedUnhealthy)
  }

  /** The revision that a promotion records as its predecessor. */
  function PreviousStable(revision: RevisionId, cache: RevisionCache): RevisionId {
    var previous := if Trim(cache.current) != "" then Trim(cache.current) else Trim(cache.stable);
    if previous == revision then "" else previous
  }

  /** What garbage collection keeps: the named revision and everything that the cache names. */
  function ProtectedRevisions(revision: RevisionId, cache: RevisionCache): set<RevisionId> {
    set id |
      id in {revision, cache.current, cache.stable, cache.previousStable, cache.pending, cache.candidate,
             cache.draining}
      && Trim(id) != ""
  }

  function Keep<V>(m: map<RevisionId, V>, ids: set<RevisionId>): map<RevisionId, V> {
    map id | id in m && id in ids :: m[id]
  }

  predicate HasManifest(s: State, id: RevisionId) {
    id in s.roots && s.roots[id].manifest
  }

  predicate HasRecord(s: State, id: RevisionId) {
    id in s.roots && s.roots[id].record.Some?
  }

  function RecordOf(s: State, id: RevisionId): Option<Record> {
    if id in s.roots then s.roots[id].record else None
  }

  predicate AllPassed(verdicts: seq<bool>) {
    forall k :: 0 <= k < |verdicts| ==> verdicts[k]
  }

  predicate ReadyToPromote(record: Record) {
    record.state == Promotable && record.gate.Some? && record.gate.value.promotable
  }

  function Step(s: State, c: Command): Reply {
    if Trim(c.revision) == "" then Reply(s, Refused(RevisionRequired))
    else
      match c
      case Prepare(r, fate) => StepPrepare(s, r, fate)
      case RenderConfig(r) => Reply(s.(cache := s.cache.(pending := r)), Done)
      case Start(r, runtimeUp) => StepStart(s, r, runtimeUp)
      case RunGate(r, verdicts, cancelled) => StepGate(s, r, AllPassed(verdicts), cancelled)
      case Promote(r, gatewayReady, sidecarsReady) => StepPromote(s, r, gatewayReady, sidecarsReady)
      case Rollback(r, gatewayReady, sidecarsReady) => StepRollback(s, r, gatewayReady, sidecarsReady)
      case Collect(r, removed, stuck) => StepCollect(s, r, removed, stuck)
  }

  function StepPrepare(s: State, r: RevisionId, fate: PrepareFate): Reply {
    match fate
    case RejectedEarly => Reply(s, Refused(PrepareFailed))
    case FailedLate(Nothing) => Reply(s.(roots := s.roots - {r}), Refused(PrepareFailed))
    case FailedLate(Remains(manifest, keeps)) =>
      var left := Workspace(manifest, if keeps then RecordOf(s, r) else None);
      Reply(s.(roots := s.roots[r := left]), Refused(PrepareFailed))
    case Finished =>
      Reply(s.(cache := s.cache.(pending := r), roots := s.roots[r := Workspace(true, RecordOf(s, r))]), Done)
  }

  function StepStart(s: State, r: RevisionId, runtimeUp: bool): Reply {
    if !HasManifest(s, r) then Reply(s, Refused(ManifestMissing))
    else if !runtimeUp then Reply(s, Refused(RuntimeDown))
    else
      var stored := s.roots[r].record;
      var record :=
        if stored.None? || stored.value.state == Prepared
        then Walk(if stored.None? then FRESH else stored.value, [Starting])
        else stored.value;
      Reply(
        s.(cache := s.cache.(pending := r, candidate := r, candidateState := Some(record.state)),
           roots := s.roots[r := Workspace(true, Some(record))]),
        Done)
  }

  function StepGate(s: State, r: RevisionId, passed: bool, cancelled: bool): Reply {
    if !HasRecord(s, r) then Reply(s, Refused(RecordMissing))
    else if cancelled then Reply(s, Refused(GateCancelled))
    else
      var stored := s.roots[r].record.value;
      match GatePath(stored.state, passed)
      case None => Reply(s, Refused(GateNotApplicable))
      case Some(path) =>
        var moved := Walk(stored, path);
        var record := moved.(gate := Some(GateSnapshot(moved.state, passed)));
        Reply(
          s.(cache := s.cache.(pending := r, candidate := r, candidateState := Some(record.state)),
             roots := s.roots[r := s.roots[r].(record := Some(record))]),
          Done)
  }

  function StepPromote(s: State, r: RevisionId, gatewayReady: bool, sidecarsReady: bool): Reply {
    if !HasRecord(s, r) then Reply(s, Refused(RecordMissing))
    else if !ReadyToPromote(s.roots[r].record.value) then Reply(s, Refused(NotPromotable))
    else if !gatewayReady then Reply(s, Refused(GatewayNotReady))
    else if !sidecarsReady then Reply(s, Refused(SidecarsNotReady))
    else
      var previous := PreviousStable(r, s.cache);
      Reply(
        s.(cache := RevisionCache(r, r, previous, "", "", None, previous),
           traffic := Some(Traffic(r, previous, r, previous != ""))),
        Done)
  }

  function AfterRollback(s: State, r: RevisionId, plan: RollbackPlan): State {
    State(
      RevisionCache(plan.restored, plan.restored, "", "", "", None, plan.failed),
      Some(Traffic(plan.restored, plan.failed, plan.restored, false)),
      s.roots[r := RolledBack(if r in s.roots then s.roots[r] else Workspace(false, None))])
  }

  function StepRollback(s: State, r: RevisionId, gatewayReady: bool, sidecarsReady: bool): Reply {
    if s.traffic.None? then Reply(s, Refused(TrafficMissing))
    else if !gatewayReady then Reply(s, Refused(GatewayNotReady))
    else if !sidecarsReady then Reply(s, Refused(SidecarsNotReady))
    else
      var plan := SelectRollbackPlan(r, s.cache, s.traffic.value);
      if plan.restored == "" then Reply(s, Refused(PreviousStableMissing))
      else if plan.restored !in s.roots then Reply(s, Refused(StableWorkspaceMissing))
      else if !s.roots[plan.restored].manifest then Reply(s, Refused(StableManifestMissing))
      else Reply(AfterRollback(s, r, plan), Done)
  }

  /** The commanded revision's root after a rollback: its record, if any, carries the failure. */
  function RolledBack(w: Workspace): Workspace {
    match w.record
    case None => w
    case Some(record) => w.(record := Some(Walk(record, RollbackPath(record.state))))
  }

  function Stripped(w: Workspace, stuck: Stuck): Workspace {
    Workspace(w.manifest && stuck.manifest, if stuck.record then w.record else None)
  }

  /** Only a root that was to be removed, and still is there, can be the one that got stuck. */
  predicate GotStuck(s: State, r: RevisionId, removed: set<RevisionId>, stuck: Option<Stuck>) {
    stuck.Some? && stuck.value.id in s.roots.Keys - ProtectedRevisions(r, s.cache) - removed
  }

  function StepCollect(s: State, r: RevisionId, removed: set<RevisionId>, stuck: Option<Stuck>): Reply {
    var kept := ProtectedRevisions(r, s.cache);
    var left := Keep(s.roots, s.roots.Keys - removed + kept);
    Reply(
      s.(roots := if GotStuck(s, r, removed, stuck)
                  then left[stuck.value.id := Stripped(s.roots[stuck.value.id], stuck.value)] else left),
      if s.roots.Keys - kept <= removed then Done else Refused(RemovalFailed))
  }

  // ---------------------------------------------------------------- invariants

  /** Cache and traffic tell the same story. */
  predicate Agreement(s: State) {
    && s.cache.current == s.cache.stable
    && (s.traffic.Some? <==> s.cache.current != "")
    && (s.traffic.Some? ==>
          && s.traffic.value.active == s.cache.current
          && s.traffic.value.stable == s.cache.current
          && s.traffic.value.previous == s.cache.draining
          && s.traffic.value.previous != s.traffic.value.active
          && (s.traffic.value.rollbackReady <==> s.cache.previousStable != ""))
    && (s.traffic.None? ==> s.cache.draining == "" && s.cache.previousStable == "")
    && s.cache.previousStable in {"", s.cache.draining}
    && Trimmed(s.cache.current) && Trimmed(s.cache.draining)
  }

  /** The live revision and the revision that a rollback can return to have complete workspaces. */
  predicate Restorable(s: State) {
    && (s.cache.current != "" ==> HasManifest(s, s.cache.current))
    && (s.cache.draining != "" ==> HasManifest(s, s.cache.draining))
  }

  predicate RecordsAtRest(s: State) {
    forall r :: r in s.roots && s.roots[r].record.Some? ==> AtRest(s.roots[r].record.value)
  }

  predicate Inv(s: State) {
    Agreement(s) && Restorable(s) && RecordsAtRest(s)
  }

  /** A failed prepare does no harm to live and draining revision: it names neither, or leaves the manifest. */
  predicate Harmless(s: State, r: RevisionId, left: Leftover) {
    r in {s.cache.current, s.cache.draining} ==> left.Remains? && left.manifest
  }

  /**
   The stated assumptions on the control plane: identifiers have no surrounding white space, promotions and
   rollbacks name revisions whose workspace is complete, and a prepare that fails after making its root does no
   harm to the live and the restorable revision.
   */
  predicate Admissible(s: State, c: Command) {
    && Trimmed(c.revision)
    && (c.Prepare? && c.fate.FailedLate? ==> Harmless(s, c.revision, c.fate.left))
    && (c.Promote? || c.Rollback? ==> HasManifest(s, c.revision))
  }

  lemma FirstOfTrimmed(values: seq<string>)
    requires forall k :: 0 <= k < |values| ==> Trimmed(values[k])
    ensures values != [] && values[0] != "" ==> FirstNonEmpty(values) == values[0]
    ensures |values| > 1 && values[0] == "" && values[1] != "" ==> FirstNonEmpty(values) == values[1]
    ensures |values| > 2 && values[0] == "" && values[1] == "" && values[2] != "" ==>
              FirstNonEmpty(values) == values[2]
    ensures (forall k :: 0 <= k < |values| ==> values[k] == "") ==> FirstNonEmpty(values) == ""
  {
    if values != [] {
      assert forall k :: 0 <= k < |values| - 1 ==> values[1..][k] == values[k + 1];
      FirstOfTrimmed(values[1..]);
    }
  }

  /** The plan in an agreeing state: roll a stray candidate back onto the live revision, else swap live and previous. */
  lemma PlanUnderAgreement(s: State, r: RevisionId)
    requires Agreement(s) && s.traffic.Some? && Trimmed(r) && r != ""
    ensures SelectRollbackPlan(r, s.cache, s.traffic.value) ==
            if r != s.cache.current then RollbackPlan(r, s.cache.current, CandidateFailed)
            else RollbackPlan(s.cache.current, s.cache.draining, PromotedUnhealthy)
  {
    var t := s.traffic.value;
    FirstOfTrimmed([s.cache.current, s.cache.stable, t.active]);
    FirstOfTrimmed([s.cache.previousStable, t.previous]);
    FirstOfTrimmed([t.active, s.cache.current, r]);
    assert forall k :: 0 <= k < 2 ==> [s.cache.previousStable, t.previous][k] in {"", s.cache.draining};
  }

  lemma PreviousUnderAgreement(s: State, r: RevisionId)
    requires Agreement(s)
    ensures PreviousStable(r, s.cache) == if r == s.cache.current then "" else s.cache.current
  {
    assert Trim("") == "";
  }

  // ---------------------------------------------------------------- records at rest, whatever is commanded

  lemma StartKeepsRest(s: State, r: RevisionId, runtimeUp: bool)
    requires RecordsAtRest(s)
    ensures RecordsAtRest(StepStart(s, r, runtimeUp).state)
  {
    if HasRecord(s, r) {
      AtRestHistory(s.roots[r].record.value);
    }
  }

  lemma GateKeepsRest(s: State, r: RevisionId, passed: bool, cancelled: bool)
    requires RecordsAtRest(s)
    ensures RecordsAtRest(StepGate(s, r, passed, cancelled).state)
  {
    if HasRecord(s, r) && GatePath(s.roots[r].record.value.state, passed).Some? {
      GatedRests(s.roots[r].record.value, passed);
    }
  }

  lemma RollbackKeepsRest(s: State, r: RevisionId, gatewayReady: bool, sidecarsReady: bool)
    requires RecordsAtRest(s)
    ensures RecordsAtRest(StepRollback(s, r, gatewayReady, sidecarsReady).state)
  {
    if HasRecord(s, r) {
      RolledBackRests(s.roots[r].record.value);
    }
  }

  lemma PrepareKeepsRest(s: State, r: RevisionId, fate: PrepareFate)
    requires RecordsAtRest(s)
    ensures RecordsAtRest(StepPrepare(s, r, fate).state)
  {
  }

  lemma CollectKeepsRest(s: State, r: RevisionId, removed: set<RevisionId>, stuck: Option<Stuck>)
    requires RecordsAtRest(s)
    ensures RecordsAtRest(StepCollect(s, r, removed, stuck).state)
  {
  }

  /** Every command keeps the records at rest, with no assumption on it. */
  lemma RestIsInductive(s: State, c: Command)
    requires RecordsAtRest(s)
    ensures RecordsAtRest(Step(s, c).state)
  {
    if Trim(c.revision) != "" {
      match c
      case Start(r, runtimeUp) => StartKeepsRest(s, r, runtimeUp);
      case RunGate(r, verdicts, cancelled) => GateKeepsRest(s, r, AllPassed(verdicts), cancelled);
      case Rollback(r, gatewayReady, sidecarsReady) => RollbackKeepsRest(s, r, gatewayReady, sidecarsReady);
      case Prepare(r, fate) => PrepareKeepsRest(s, r, fate);
      case Collect(r, removed, stuck) => CollectKeepsRest(s, r, removed, stuck);
      case RenderConfig(_) =>
      case Promote(_, _, _) =>
    }
  }

  // ---------------------------------------------------------------- agreement, for trimmed identifiers

  lemma PromoteKeepsAgreement(s: State, r: RevisionId, gatewayReady: bool, sidecarsReady: bool)
    requires Agreement(s) && Trimmed(r) && r != ""
    ensures Agreement(StepPromote(s, r, gatewayReady, sidecarsReady).state)
  {
    PreviousUnderAgreement(s, r);
  }

  lemma RollbackKeepsAgreement(s: State, r: RevisionId, gatewayReady: bool, sidecarsReady: bool)
    requires Agreement(s) && Trimmed(r) && r != ""
    ensures Agreement(StepRollback(s, r, gatewayReady, sidecarsReady).state)
  {
    if s.traffic.Some? {
      PlanUnderAgreement(s, r);
    }
  }

  /** No command on a trimmed identifier sets cache and traffic apart. */
  lemma AgreementIsInductive(s: State, c: Command)
    requires Agreement(s) && Trimmed(c.revision)
    ensures Agreement(Step(s, c).state)
  {
    if Trim(c.revision) != "" {
      match c
      case Promote(r, gatewayReady, sidecarsReady) => PromoteKeepsAgreement(s, r, gatewayReady, sidecarsReady);
      case Rollback(r, gatewayReady, sidecarsReady) => RollbackKeepsAgreement(s, r, gatewayReady, sidecarsReady);
      case Prepare(_, _) =>
      case RenderConfig(_) =>
      case Start(_, _) =>
      case RunGate(_, _, _) =>
      case Collect(_, _, _) =>
    }
  }

  // ---------------------------------------------------------------- the whole invariant

  lemma StartKeepsInv(s: State, r: RevisionId, runtimeUp: bool)
    requires Inv(s) && Trimmed(r)
    ensures Inv(StepStart(s, r, runtimeUp).state)
  {
    StartKeepsRest(s, r, runtimeUp);
  }

  lemma GateKeepsInv(s: State, r: RevisionId, passed: bool, cancelled: bool)
    requires Inv(s) && Trimmed(r)
    ensures Inv(StepGate(s, r, passed, cancelled).state)
  {
    GateKeepsRest(s, r, passed, cancelled);
  }

  lemma PromoteKeepsInv(s: State, r: RevisionId, gatewayReady: bool, sidecarsReady: bool)
    requires Inv(s) && Trimmed(r) && r != "" && HasManifest(s, r)
    ensures Inv(StepPromote(s, r, gatewayReady, sidecarsReady).state)
  {
    PreviousUnderAgreement(s, r);
  }

  lemma RollbackKeepsInv(s: State, r: RevisionId, gatewayReady: bool, sidecarsReady: bool)
    requires Inv(s) && Trimmed(r) && r != "" && HasManifest(s, r)
    ensures Inv(StepRollback(s, r, gatewayReady, sidecarsReady).state)
  {
    RollbackKeepsAgreement(s, r, gatewayReady, sidecarsReady);
    RollbackKeepsRest(s, r, gatewayReady, sidecarsReady);
    if s.traffic.Some? {
      PlanUnderAgreement(s, r);
    }
  }

  lemma ProtectedStays(s: State, r: RevisionId, removed: set<RevisionId>, stuck: Option<Stuck>, id: RevisionId)
    requires id in s.roots && id in ProtectedRevisions(r, s.cache)
    ensures var after := StepCollect(s, r, removed, stuck).state; id in after.roots && after.roots[id] == s.roots[id]
  {
  }

  lemma CollectKeepsInv(s: State, r: RevisionId, removed: set<RevisionId>, stuck: Option<Stuck>)
    requires Inv(s) && Trimmed(r) && r != ""
    ensures Inv(StepCollect(s, r, removed, stuck).state)
  {
    if s.cache.current != "" {
      ProtectedStays(s, r, removed, stuck, s.cache.current);
    }
    if s.cache.draining != "" {
      ProtectedStays(s, r, removed, stuck, s.cache.draining);
    }
  }

  lemma RestorableIsKept(s: State, c: Command)
    requires Inv(s) && Admissible(s, c)
    ensures Restorable(Step(s, c).state)
  {
    if Trim(c.revision) != "" {
      match c
      case Prepare(r, fate) =>
      case RenderConfig(r) =>
      case Start(r, runtimeUp) =>
      case RunGate(r, verdicts, cancelled) =>
      case Promote(r, gatewayReady, sidecarsReady) => PromoteKeepsInv(s, r, gatewayReady, sidecarsReady);
      case Rollback(r, gatewayReady, sidecarsReady) => RollbackKeepsInv(s, r, gatewayReady, sidecarsReady);
      case Collect(r, removed, stuck) => CollectKeepsInv(s, r, removed, stuck);
    }
  }

  /** Every command that respects the assumptions keeps cache, traffic, workspaces and records in step. */
  lemma InvariantIsInductive(s: State, c: Command)
    requires Inv(s) && Admissible(s, c)
    ensures Inv(Step(s, c).state)
  {
    AgreementIsInductive(s, c);
    RestorableIsKept(s, c);
    RestIsInductive(s, c);
  }
}
