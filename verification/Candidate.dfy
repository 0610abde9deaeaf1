/** The candidate record of one revision: its state machine, its history and the last gate snapshot. */
module Candidate {
  import opened Text

  datatype CandidateState = Prepared | Starting | Healthy | Unhealthy | Promotable | Failed

  datatype Transition = Transition(from: Option<CandidateState>, to: CandidateState)

  /** What the health gate leaves on the record. */
  datatype GateSnapshot = GateSnapshot(state: CandidateState, promotable: bool)

  datatype Record = Record(state: CandidateState, history: seq<Transition>, gate: Option<GateSnapshot>)

  predicate Allowed(from: Option<CandidateState>, to: CandidateState) {
    match from
    case None => to == Prepared
    case Some(Prepared) => to == Starting
    case Some(Starting) => to == Healthy || to == Unhealthy || to == Failed
    case Some(Healthy) => to == Promotable || to == Unhealthy
    case Some(Unhealthy) => to == Healthy || to == Failed
    case Some(Promotable) => to == Unhealthy || to == Failed
    case Some(Failed) => false
  }

  /** The same edges by where they lead: what comes before each state. */
  lemma ComesBefore(from: Option<CandidateState>, to: CandidateState)
    ensures to == Prepared ==> (Allowed(from, to) <==> from == None)
    ensures to == Starting ==> (Allowed(from, to) <==> from == Some(Prepared))
    ensures to == Healthy ==> (Allowed(from, to) <==> from in {Some(Starting), Some(Unhealthy)})
    ensures to == Unhealthy ==> (Allowed(from, to) <==> from in {Some(Starting), Some(Healthy), Some(Promotable)})
    ensures to == Promotable ==> (Allowed(from, to) <==> from == Some(Healthy))
    ensures to == Failed ==> (Allowed(from, to) <==> from in {Some(Starting), Some(Unhealthy), Some(Promotable)})
  {
  }

  function Moved(record: Record, next: CandidateState): Record {
    record.(state := next, history := record.history + [Transition(Some(record.state), next)])
  }

  /** The record after moving along path, one history entry per move. */
  function Walk(record: Record, path: seq<CandidateState>): Record
    decreases |path|
  {
    if path == [] then record else Walk(Moved(record, path[0]), path[1..])
  }

  /** The moves a health gate makes from a state; None where it refuses. */
  function GatePath(state: CandidateState, passed: bool): Option<seq<CandidateState>> {
    if passed then
      match state
      case Starting | Unhealthy => Some([Healthy, Promotable])
      case Healthy => Some([Promotable])
      case Promotable => Some([])
      case Failed | Prepared => None
    else
      match state
      case Starting | Healthy | Promotable => Some([Unhealthy, Failed])
      case Unhealthy => Some([Failed])
      case Failed => Some([])
      case Prepared => None
  }

  /** The moves that a rollback makes on the record of the revision it was asked to roll back. */
  function RollbackPath(state: CandidateState): seq<CandidateState> {
    match state
    case Promotable | Healthy => [Unhealthy, Failed]
    case Unhealthy => [Failed]
    case Failed | Prepared | Starting => []
  }

  const FRESH := Record(Prepared, [Transition(None, Prepared)], None)

  /** Each entry starts where the one before ended, by an allowed edge, and the last ends at the state. */
  predicate ConnectedHistory(record: Record) {
    && |record.history| > 0
    && record.history[0] == Transition(None, Prepared)
    && record.history[|record.history| - 1].to == record.state
    && (forall k :: 0 <= k < |record.history| ==> Allowed(record.history[k].from, record.history[k].to))
    && (forall k :: 0 < k < |record.history| ==> record.history[k].from == Some(record.history[k - 1].to))
  }

  /** The only four histories a saved record can have. */
  predicate AtRest(record: Record) {
    && (|| record == Walk(FRESH, [Starting]).(gate := record.gate)
        || record == Walk(FRESH, [Starting, Healthy, Promotable]).(gate := record.gate)
        || record == Walk(FRESH, [Starting, Unhealthy, Failed]).(gate := record.gate)
        || record == Walk(FRESH, [Starting, Healthy, Promotable, Unhealthy, Failed]).(gate := record.gate))
    && (record.state == Promotable ==> record.gate == Some(GateSnapshot(Promotable, true)))
  }

  /** A record at rest has a connected history of at most six entries and rests in one of three states. */
  lemma AtRestHistory(record: Record)
    requires AtRest(record)
    ensures ConnectedHistory(record) && |record.history| <= 6
    ensures record.state in {Starting, Promotable, Failed}
  {
    if record == Walk(FRESH, [Starting]).(gate := record.gate) {
      RestHistory(record, [Starting]);
    } else if record == Walk(FRESH, [Starting, Healthy, Promotable]).(gate := record.gate) {
      RestHistory(record, [Starting, Healthy, Promotable]);
    } else if record == Walk(FRESH, [Starting, Unhealthy, Failed]).(gate := record.gate) {
      RestHistory(record, [Starting, Unhealthy, Failed]);
    } else {
      RestHistory(record, [Starting, Healthy, Promotable, Unhealthy, Failed]);
    }
  }

  lemma RestHistory(record: Record, path: seq<CandidateState>)
    requires LegalPath(Prepared, path) && record == Walk(FRESH, path).(gate := record.gate)
    ensures ConnectedHistory(record) && |record.history| == 1 + |path| && record.state == LastOf(Prepared, path)
  {
    WalkHistory(path);
  }

  lemma WalkSplits()
    ensures Walk(FRESH, [Starting, Healthy, Promotable]) == Walk(Walk(FRESH, [Starting]), [Healthy, Promotable])
    ensures Walk(FRESH, [Starting, Unhealthy, Failed]) == Walk(Walk(FRESH, [Starting]), [Unhealthy, Failed])
    ensures Walk(FRESH, [Starting, Healthy, Promotable, Unhealthy, Failed])
         == Walk(Walk(FRESH, [Starting, Healthy, Promotable]), [Unhealthy, Failed])
  {
  }

  /** The record of a resting candidate after an accepted gate rests again. */
  lemma GatedRests(record: Record, passed: bool)
    requires AtRest(record) && GatePath(record.state, passed).Some?
    ensures var moved := Walk(record, GatePath(record.state, passed).value);
            AtRest(moved.(gate := Some(GateSnapshot(moved.state, passed))))
  {
    AtRestHistory(record);
    WalkSplits();
  }

  lemma RolledBackRests(record: Record)
    requires AtRest(record)
    ensures AtRest(Walk(record, RollbackPath(record.state)))
  {
    AtRestHistory(record);
    WalkSplits();
  }

  /** A walk ends in the last state of its path. */
  lemma {:induction false} WalkEndsAt(record: Record, path: seq<CandidateState>)
    ensures Walk(record, path).state == LastOf(record.state, path)
    decreases |path|
  {
    if path != [] {
      WalkEndsAt(Moved(record, path[0]), path[1..]);
    }
  }

  function LastOf(from: CandidateState, path: seq<CandidateState>): CandidateState {
    if path == [] then from else path[|path| - 1]
  }

  /** Every move of the path is an allowed edge. */
  predicate LegalPath(from: CandidateState, path: seq<CandidateState>)
    decreases |path|
  {
    path == [] || (Allowed(Some(from), path[0]) && LegalPath(path[0], path[1..]))
  }

  /** No state twice on the way. */
  predicate Direct(from: CandidateState, path: seq<CandidateState>) {
    && from !in path
    && forall i, j :: 0 <= i < j < |path| ==> path[i] != path[j]
  }

  /**
   The moves of gate and rollback are allowed edges and go straight: to promotable through healthy, to failed through
   unhealthy. A rollback leaves a record that is only prepared or starting.
   */
  lemma PathsGoStraight(state: CandidateState, passed: bool)
    ensures var path := GatePath(state, passed);
            path.Some? ==>
              && LegalPath(state, path.value) && Direct(state, path.value)
              && LastOf(state, path.value) == (if passed then Promotable else Failed)
              && (path.value != [] && LastOf(state, path.value) == Failed ==>
                    LastOf(state, path.value[..|path.value| - 1]) == Unhealthy)
    ensures var path := RollbackPath(state);
            && LegalPath(state, path) && Direct(state, path)
            && (path == [] <==> state in {Prepared, Starting, Failed})
            && (path != [] ==> path[|path| - 1] == Failed && LastOf(state, path[..|path| - 1]) == Unhealthy)
  {
  }

  lemma WalkHistory(path: seq<CandidateState>)
    requires LegalPath(Prepared, path)
    ensures ConnectedHistory(Walk(FRESH, path)) && |Walk(FRESH, path).history| == 1 + |path|
    ensures Walk(FRESH, path).state == LastOf(Prepared, path)
  {
    WalkConnected(FRESH, path);
  }

  lemma {:induction false} WalkConnected(record: Record, path: seq<CandidateState>)
    requires ConnectedHistory(record) && LegalPath(record.state, path)
    ensures ConnectedHistory(Walk(record, path))
    ensures |Walk(record, path).history| == |record.history| + |path|
    ensures Walk(record, path).state == LastOf(record.state, path)
    decreases |path|
  {
    if path != [] {
      WalkConnected(Moved(record, path[0]), path[1..]);
    }
  }

  /** A record loaded from its file, changed in memory and then saved. */
  class CandidateRecord {
    var state: CandidateState
    var history: seq<Transition>
    var gate: Option<GateSnapshot>

    ghost function View(): Record
      reads this
    {
      Record(state, history, gate)
    }

    constructor Load(stored: Record)
      ensures View() == stored
    {
      state, history, gate := stored.state, stored.history, stored.gate;
    }

    method Save() returns (stored: Record)
      ensures stored == View()
    {
      stored := Record(state, history, gate);
    }

    method MoveTo(next: CandidateState) returns (ok: bool)
      modifies this
      ensures ok <==> next == old(state) || Allowed(Some(old(state)), next)
      ensures View() == if ok && next != old(state) then Walk(old(View()), [next]) else old(View())
    {
      if state == next {
        return true;
      }
      if !Allowed(Some(state), next) {
        return false;
      }
      history := history + [Transition(Some(state), next)];
      state := next;
      return true;
    }

    method MoveToPromotable() returns (ok: bool)
      modifies this
      ensures ok <==> GatePath(old(state), true).Some?
      ensures View() == if ok then Walk(old(View()), GatePath(old(state), true).value) else old(View())
    {
      match state
      case Starting | Unhealthy =>
        ok := MoveTo(Healthy);
        ok := MoveTo(Promotable);
      case Healthy =>
        ok := MoveTo(Promotable);
      case Promotable =>
        ok := true;
      case Failed | Prepared =>
        ok := false;
    }

    method MoveToFailed() returns (ok: bool)
      modifies this
      ensures ok <==> GatePath(old(state), false).Some?
      ensures View() == if ok then Walk(old(View()), GatePath(old(state), false).value) else old(View())
    {
      match state
      case Starting | Healthy | Promotable =>
        ok := MoveTo(Unhealthy);
        ok := MoveTo(Failed);
      case Unhealthy =>
        ok := MoveTo(Failed);
      case Failed =>
        ok := true;
      case Prepared =>
        ok := false;
    }

    method AnnotateRolledBack()
      modifies this
      ensures View() == Walk(old(View()), RollbackPath(old(state)))
    {
      match state
      case Promotable | Healthy =>
        var _ := MoveTo(Unhealthy);
        var _ := MoveTo(Failed);
      case Unhealthy =>
        var _ := MoveTo(Failed);
      case Failed | Prepared | Starting =>
    }

    method RecordGate(promotable: bool)
      modifies this
      ensures View() == old(View()).(gate := Some(GateSnapshot(state, promotable)))
    {
      gate := Some(GateSnapshot(state, promotable));
    }
  }
}
