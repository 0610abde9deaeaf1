/** The capability delta protocol: full, diff or unchanged updates, and a receiver that applies them. */
module Capability {
  import opened Text

  datatype Field =
    | AgentKind
    | RuntimeMode
    | ControlChannel
    | Network
    | Gateway
    | Sidecar
    | Mesh
    | Telemetry
    | Node
    | PerformanceTargets
    | AdditionalCapabilities

  const FIELD_ORDER := [AgentKind, RuntimeMode, ControlChannel, Network, Gateway, Sidecar, Mesh, Telemetry, Node,
                        PerformanceTargets, AdditionalCapabilities]

  /** The JSON text of each section. */
  datatype Payload = Payload(sections: map<Field, string>)
  {
    predicate Valid() {
      forall f :: f in sections
    }
  }

  const NULL := "null"
  const EMPTY_OBJECT := "{}"

  /**
   The payload as it survives being marshalled whole: an empty additional_capabilities map is dropped and reads
   back as no map, although the section on its own is written as an empty object.
   */
  function Canonical(p: Payload): (c: Payload)
    requires p.Valid()
    ensures c.Valid()
  {
    if p.sections[AdditionalCapabilities] == EMPTY_OBJECT
    then Payload(p.sections[AdditionalCapabilities := NULL])
    else p
  }

  /** A digest of the marshalled payload, treated as injective. */
  datatype Fingerprint = Blank | Digest(of: Payload)

  function FingerprintOf(p: Payload): Fingerprint
    requires p.Valid()
  {
    Digest(Canonical(p))
  }

  datatype Snapshot = Snapshot(
    fingerprint: Fingerprint,
    version: nat,
    payload: Payload,
    reportedFingerprint: Fingerprint,
    reportedVersion: nat,
    reportedPayload: Payload)

  datatype Update =
    | Full(version: nat, hash: Fingerprint, full: Payload)
    | Unchanged(version: nat, baseVersion: nat, hash: Fingerprint, baseHash: Fingerprint)
    | Diff(
        version: nat, baseVersion: nat, hash: Fingerprint, baseHash: Fingerprint, changed: map<Field, string>,
        removed: set<Field>)

  predicate FieldChanged(previous: Payload, current: Payload, f: Field)
    requires previous.Valid() && current.Valid()
  {
    previous.sections[f] != current.sections[f]
  }

  function ChangedFields(previous: Payload, current: Payload): map<Field, string>
    requires previous.Valid() && current.Valid()
  {
    map f | f in FIELD_ORDER && FieldChanged(previous, current, f) && current.sections[f] != NULL :: current.sections[f]
  }

  function RemovedFields(previous: Payload, current: Payload): set<Field>
    requires previous.Valid() && current.Valid()
  {
    set f | f in FIELD_ORDER && FieldChanged(previous, current, f) && current.sections[f] == NULL
  }

  function BuiltUpdate(s: Snapshot): Option<Update>
    requires s.payload.Valid() && s.reportedPayload.Valid()
  {
    if s.fingerprint == Blank || s.version == 0 then None
    else if s.reportedFingerprint == Blank || s.reportedVersion == 0 then
      Some(Full(s.version, s.fingerprint, s.payload))
    else if s.reportedFingerprint == s.fingerprint then
      Some(Unchanged(s.version, s.reportedVersion, s.fingerprint, s.reportedFingerprint))
    else
      Some(DiffUpdate(s))
  }

  function DiffUpdate(s: Snapshot): Update
    requires s.payload.Valid() && s.reportedPayload.Valid()
  {
    Diff(
      s.version, s.reportedVersion, s.fingerprint, s.reportedFingerprint,
      ChangedFields(s.reportedPayload, s.payload), RemovedFields(s.reportedPayload, s.payload))
  }

  function Reconciled(s: Snapshot, p: Payload): Snapshot
    requires p.Valid()
  {
    var version := if s.version == 0 then 1 else s.version;
    var moved := s.fingerprint != FingerprintOf(p);
    s.(payload := p, fingerprint := FingerprintOf(p),
       version := if moved && s.fingerprint != Blank then version + 1 else version)
  }

  function Marked(s: Snapshot): Snapshot {
    s.(reportedFingerprint := s.fingerprint, reportedVersion := s.version, reportedPayload := s.payload)
  }

  /** What the control plane holds after an update arrives. */
  function Receive(held: Option<Payload>, u: Update): Option<Payload>
    requires held.Some? ==> held.value.Valid()
    requires u.Full? ==> u.full.Valid()
  {
    match u
    case Full(_, _, p) => Some(Canonical(p))
    case Unchanged(_, _, _, _) => held
    case Diff(_, _, _, _, changed, removed) =>
      if held.None? then None
      else
        Some(Payload(map f | f in held.value.sections ::
          if f in changed then changed[f] else if f in removed then NULL else held.value.sections[f]))
  }

  // ---------------------------------------------------------------- the sender, in place

  method DiffCapabilities(previous: Payload, current: Payload)
      returns (changed: map<Field, string>, removed: set<Field>)
    requires previous.Valid() && current.Valid()
    ensures changed == ChangedFields(previous, current) && removed == RemovedFields(previous, current)
  {
    changed, removed := DiffOver(FIELD_ORDER, previous, current);
  }

  method DiffOver(order: seq<Field>, previous: Payload, current: Payload)
      returns (changed: map<Field, string>, removed: set<Field>)
    requires previous.Valid() && current.Valid()
    ensures changed
         == map f |
              f in order && FieldChanged(previous, current, f) && current.sections[f] != NULL :: current.sections[f]
    ensures removed == set f | f in order && FieldChanged(previous, current, f) && current.sections[f] == NULL
  {
    changed, removed := map[], {};
    for k := 0 to |order|
      invariant changed == map f | f in order[..k] && FieldChanged(previous, current, f) && current.sections[f] != NULL
                             :: current.sections[f]
      invariant removed == set f | f in order[..k] && FieldChanged(previous, current, f) && current.sections[f] == NULL
    {
      var field := order[k];
      assert order[..k + 1] == order[..k] + [field];
      if previous.sections[field] == current.sections[field] {
        continue;
      }
      if current.sections[field] == NULL {
        removed := removed + {field};
        continue;
      }
      changed := changed[field := current.sections[field]];
    }
    assert order[..|order|] == order;
  }

  class SnapshotState {
    var fingerprint: Fingerprint
    var version: nat
    var payload: Payload
    var reportedFingerprint: Fingerprint
    var reportedVersion: nat
    var reportedPayload: Payload

    ghost function View(): Snapshot
      reads this
    {
      Snapshot(fingerprint, version, payload, reportedFingerprint, reportedVersion, reportedPayload)
    }

    constructor (zero: Payload)
      ensures View() == Snapshot(Blank, 0, zero, Blank, 0, zero)
    {
      fingerprint, version, payload := Blank, 0, zero;
      reportedFingerprint, reportedVersion, reportedPayload := Blank, 0, zero;
    }

    method Reconcile(p: Payload)
      requires p.Valid()
      modifies this
      ensures View() == Reconciled(old(View()), p)
    {
      payload := p;
      if version == 0 {
        version := 1;
      }
      if fingerprint == FingerprintOf(p) {
        return;
      }
      if fingerprint != Blank {
        version := version + 1;
      }
      fingerprint := FingerprintOf(p);
    }

    method MarkReported()
      modifies this
      ensures View() == Marked(old(View()))
    {
      reportedFingerprint := fingerprint;
      reportedVersion := version;
      reportedPayload := payload;
    }

    method BuildUpdate() returns (update: Option<Update>)
      requires payload.Valid() && reportedPayload.Valid()
      ensures update == BuiltUpdate(View())
    {
      if fingerprint == Blank || version == 0 {
        return None;
      }
      if reportedFingerprint == Blank || reportedVersion == 0 {
        return Some(Full(version, fingerprint, payload));
      }
      if reportedFingerprint == fingerprint {
        return Some(Unchanged(version, reportedVersion, fingerprint, reportedFingerprint));
      }
      var changed, removed := DiffCapabilities(reportedPayload, payload);
      return Some(Diff(version, reportedVersion, fingerprint, reportedFingerprint, changed, removed));
    }
  }

  // ---------------------------------------------------------------- sender and receiver together

  /** The receiver holds a payload, and the version it was told with it; a handshake names none. */
  datatype System = System(sender: Snapshot, held: Option<Payload>, told: Option<nat>)

  /** A message is lost, or arrives and is then marked as reported, or arrives and the agent stops before marking it. */
  datatype Fate = Lost | Marked' | Unmarked

  datatype Event =
    | Refresh(payload: Payload)
    | Handshake(fate: Fate)
    | Heartbeat(fate: Fate)

  predicate ValidEvent(e: Event) {
    e.Refresh? ==> e.payload.Valid()
  }

  predicate WellFormed(y: System) {
    y.sender.payload.Valid() && y.sender.reportedPayload.Valid() && (y.held.Some? ==> y.held.value.Valid())
  }

  function Next(y: System, e: Event): (y': System)
    requires WellFormed(y) && ValidEvent(e)
    ensures WellFormed(y')
  {
    match e
    case Refresh(p) => y.(sender := Reconciled(y.sender, p))
    case Handshake(fate) =>
      if fate == Lost then y
      else System(if fate == Marked' then Marked(y.sender) else y.sender, Some(Canonical(y.sender.payload)), None)
    case Heartbeat(fate) =>
      var update := BuiltUpdate(y.sender);
      if update.None? || fate == Lost then y
      else
        System(
          if fate == Marked' then Marked(y.sender) else y.sender, Receive(y.held, update.value),
          Some(update.value.version))
  }

  /** The snapshot's fingerprints are those of its payloads, and versions are present when fingerprints are. */
  predicate SnapshotInv(s: Snapshot)
    requires s.payload.Valid() && s.reportedPayload.Valid()
  {
    && (s.fingerprint != Blank ==> s.fingerprint == FingerprintOf(s.payload) && s.version >= 1)
    && (s.reportedFingerprint != Blank ==>
        s.reportedFingerprint == FingerprintOf(s.reportedPayload) && s.reportedVersion >= 1)
  }

  /** The receiver holds what was last marked as reported. */
  predicate InSync(y: System)
    requires WellFormed(y)
  {
    y.sender.reportedFingerprint != Blank ==>
      y.held.Some? && Canonical(y.held.value) == Canonical(y.sender.reportedPayload)
  }

  /** The receiver holds what the sender last computed. */
  predicate UpToDate(y: System)
    requires WellFormed(y)
  {
    y.held.Some? && Canonical(y.held.value) == Canonical(y.sender.payload)
  }

  /** One section after a diff: the current text if it changed, else what the receiver held. */
  lemma DiffAtField(held: Payload, s: Snapshot, f: Field)
    requires held.Valid() && s.payload.Valid() && s.reportedPayload.Valid()
    ensures Receive(Some(held), DiffUpdate(s)).Some? && AppliedAt(Receive(Some(held), DiffUpdate(s)).value, held, s, f)
  {
  }

  predicate AppliedAt(after: Payload, held: Payload, s: Snapshot, f: Field)
    requires held.Valid() && s.payload.Valid() && s.reportedPayload.Valid()
  {
    && f in after.sections
    && after.sections[f]
         == if FieldChanged(s.reportedPayload, s.payload, f) then s.payload.sections[f] else held.sections[f]
  }

  lemma CanonicalAgrees(p: Payload, q: Payload)
    requires p.Valid() && q.Valid()
    requires forall f :: f != AdditionalCapabilities ==> p.sections[f] == q.sections[f]
    requires p.sections[AdditionalCapabilities] == q.sections[AdditionalCapabilities]
          || (p.sections[AdditionalCapabilities] in {NULL, EMPTY_OBJECT}
              && q.sections[AdditionalCapabilities] in {NULL, EMPTY_OBJECT})
    ensures Canonical(p) == Canonical(q)
  {
  }

  lemma CanonicalMeans(p: Payload, q: Payload)
    requires p.Valid() && q.Valid() && Canonical(p) == Canonical(q)
    ensures forall f :: f != AdditionalCapabilities ==> p.sections[f] == q.sections[f]
    ensures p.sections[AdditionalCapabilities] == q.sections[AdditionalCapabilities]
          || (p.sections[AdditionalCapabilities] in {NULL, EMPTY_OBJECT}
              && q.sections[AdditionalCapabilities] in {NULL, EMPTY_OBJECT})
  {
    assert forall f :: f != AdditionalCapabilities ==>
        p.sections[f] == Canonical(p).sections[f] && q.sections[f] == Canonical(q).sections[f];
  }

  /** A diff against a payload that the receiver holds takes it to the current payload, section by section. */
  lemma DiffReaches(held: Payload, s: Snapshot)
    requires held.Valid() && s.payload.Valid() && s.reportedPayload.Valid()
        && Canonical(held) == Canonical(s.reportedPayload)
    ensures var after := Receive(Some(held), DiffUpdate(s));
            && after.Some? && after.value.Valid() && Canonical(after.value) == Canonical(s.payload)
            && (forall f :: f != AdditionalCapabilities ==> after.value.sections[f] == s.payload.sections[f])
            && (held == s.reportedPayload ==> after.value == s.payload)
  {
    var after := Receive(Some(held), DiffUpdate(s)).value;
    forall f: Field ensures AppliedAt(after, held, s, f) {
      DiffAtField(held, s, f);
    }
    AppliedReaches(after, held, s);
  }

  lemma AppliedReaches(after: Payload, held: Payload, s: Snapshot)
    requires held.Valid() && s.payload.Valid() && s.reportedPayload.Valid()
        && Canonical(held) == Canonical(s.reportedPayload)
    requires forall f :: AppliedAt(after, held, s, f)
    ensures after.Valid() && Canonical(after) == Canonical(s.payload)
    ensures forall f :: f != AdditionalCapabilities ==> after.sections[f] == s.payload.sections[f]
    ensures held == s.reportedPayload ==> after == s.payload
  {
    CanonicalMeans(held, s.reportedPayload);
    forall f: Field
      ensures f in after.sections && (f != AdditionalCapabilities ==> after.sections[f] == s.payload.sections[f])
    {
      assert AppliedAt(after, held, s, f);
    }
    assert AppliedAt(after, held, s, AdditionalCapabilities);
    CanonicalAgrees(after, s.payload);
    if held == s.reportedPayload {
      forall f: Field ensures after.sections[f] == s.payload.sections[f] {
        assert AppliedAt(after, held, s, f);
      }
      assert after.sections == s.payload.sections;
    }
  }

  /** Lost messages and marked messages keep the receiver in step, and a marked one brings it up to date. */
  lemma SyncIsInductive(y: System, e: Event)
    requires WellFormed(y) && ValidEvent(e) && SnapshotInv(y.sender) && InSync(y)
    requires !e.Refresh? ==> e.fate != Unmarked
    ensures SnapshotInv(Next(y, e).sender) && InSync(Next(y, e))
    ensures e == Handshake(Marked') ==> UpToDate(Next(y, e))
    ensures e == Heartbeat(Marked') && y.sender.fingerprint != Blank ==> UpToDate(Next(y, e))
  {
    CanonicalTwice(y.sender.payload);
    if e == Heartbeat(Marked') && y.sender.fingerprint != Blank && y.sender.reportedFingerprint != Blank {
      DiffReaches(y.held.value, y.sender);
    }
  }

  lemma CanonicalTwice(p: Payload)
    requires p.Valid()
    ensures Canonical(Canonical(p)) == Canonical(p)
  {
  }

  /** A lost message changes nothing on either side; one that arrives unmarked changes nothing at the sender. */
  lemma OnlyMarkedMessagesMoveTheSender(y: System, e: Event)
    requires WellFormed(y) && !e.Refresh?
    ensures e.fate == Lost ==> Next(y, e) == y
    ensures e.fate == Unmarked ==> Next(y, e).sender == y.sender
    ensures e.fate == Unmarked ==> Next(y, e).held == Next(y, e.(fate := Marked')).held
  {
  }

  /** Arriving without being marked keeps the receiver in step exactly when the message was not a diff. */
  lemma UnmarkedIsSafeExactlyWhen(y: System)
    requires WellFormed(y) && SnapshotInv(y.sender) && InSync(y) && BuiltUpdate(y.sender).Some?
    ensures InSync(Next(y, Heartbeat(Unmarked))) <==> !BuiltUpdate(y.sender).value.Diff?
  {
    if BuiltUpdate(y.sender).value.Diff? {
      DiffReaches(y.held.value, y.sender);
    }
  }

  // ---------------------------------------------------------------- runs

  function Start(zero: Payload): System {
    System(Snapshot(Blank, 0, zero, Blank, 0, zero), None, None)
  }

  function Run(zero: Payload, events: seq<Event>): (y: System)
    requires zero.Valid() && forall k :: 0 <= k < |events| ==> ValidEvent(events[k])
    ensures WellFormed(y)
  {
    if events == [] then Start(zero) else Next(Run(zero, events[..|events| - 1]), events[|events| - 1])
  }

  predicate GoodRun(events: seq<Event>) {
    forall k :: 0 <= k < |events| ==> ValidEvent(events[k]) && (!events[k].Refresh? ==> events[k].fate != Unmarked)
  }

  lemma {:induction false} RunInSync(zero: Payload, events: seq<Event>)
    requires zero.Valid() && GoodRun(events)
    ensures SnapshotInv(Run(zero, events).sender) && InSync(Run(zero, events))
  {
    if events != [] {
      RunInSync(zero, events[..|events| - 1]);
      SyncIsInductive(Run(zero, events[..|events| - 1]), events[|events| - 1]);
    }
  }

  /**
   In every run of refreshes, lost messages and marked messages, a marked message leaves the receiver with the
   sender's payload.
   */
  lemma ReceiverHoldsTheReport(zero: Payload, events: seq<Event>, e: Event)
    requires zero.Valid() && GoodRun(events) && e in {Handshake(Marked'), Heartbeat(Marked')}
    requires e.Heartbeat? ==> Run(zero, events).sender.fingerprint != Blank
    ensures UpToDate(Next(Run(zero, events), e))
  {
    RunInSync(zero, events);
    SyncIsInductive(Run(zero, events), e);
  }

  predicate CanonicalRun(events: seq<Event>) {
    forall k :: 0 <= k < |events| ==>
      events[k].Refresh? && events[k].payload.Valid() ==> Canonical(events[k].payload) == events[k].payload
  }

  lemma {:induction false} CanonicalRunStays(zero: Payload, events: seq<Event>)
    requires zero.Valid() && Canonical(zero) == zero && GoodRun(events) && CanonicalRun(events)
    ensures var y := Run(zero, events);
            && Canonical(y.sender.payload) == y.sender.payload
            && Canonical(y.sender.reportedPayload) == y.sender.reportedPayload
            && (y.sender.reportedFingerprint != Blank ==> y.held == Some(y.sender.reportedPayload))
  {
    RunInSync(zero, events);
    if events != [] {
      var init, e := events[..|events| - 1], events[|events| - 1];
      assert GoodRun(init) && CanonicalRun(init);
      CanonicalRunStays(zero, init);
      RunInSync(zero, init);
      var y := Run(zero, init);
      if e == Heartbeat(Marked') && y.sender.fingerprint != Blank && y.sender.reportedFingerprint != Blank {
        DiffReaches(y.held.value, y.sender);
      }
    }
  }

  /** When no payload carries an empty map, the receiver holds the very text of every reported section. */
  lemma ReceiverHoldsTheText(zero: Payload, events: seq<Event>, e: Event)
    requires zero.Valid() && Canonical(zero) == zero && GoodRun(events) && CanonicalRun(events)
    requires e in {Handshake(Marked'), Heartbeat(Marked')}
        && (e.Heartbeat? ==> Run(zero, events).sender.fingerprint != Blank)
    ensures var y := Next(Run(zero, events), e); y.held == Some(y.sender.payload)
  {
    var longer := events + [e];
    assert longer[..|events|] == events;
    CanonicalRunStays(zero, longer);
    RunInSync(zero, events);
    if Run(zero, events).sender.fingerprint == Blank {
      CanonicalRunStays(zero, events);
    }
  }

  /**
   A full report delivers the very text exactly when the payload has no empty map; the fingerprint cannot tell the
   two apart.
   */
  lemma FullReportIsVerbatimExactlyWhen(y: System)
    requires WellFormed(y) && BuiltUpdate(y.sender).Some? && BuiltUpdate(y.sender).value.Full?
    ensures Next(y, Heartbeat(Marked')).held == Some(y.sender.payload)
       <==> y.sender.payload.sections[AdditionalCapabilities] != EMPTY_OBJECT
    ensures FingerprintOf(y.sender.payload) == FingerprintOf(Canonical(y.sender.payload))
  {
  }

  lemma RunSnoc(zero: Payload, events: seq<Event>, e: Event)
    requires zero.Valid() && (forall k :: 0 <= k < |events| ==> ValidEvent(events[k])) && ValidEvent(e)
    ensures Run(zero, events + [e]) == Next(Run(zero, events), e)
  {
  }

  lemma RunThree(zero: Payload, events: seq<Event>, a: Event, b: Event, c: Event)
    requires zero.Valid() && (forall k :: 0 <= k < |events| ==> ValidEvent(events[k]))
    requires ValidEvent(a) && ValidEvent(b) && ValidEvent(c)
    ensures Run(zero, events + [a, b, c]) == Next(Next(Next(Run(zero, events), a), b), c)
  {
    RunSnoc(zero, events, a);
    RunSnoc(zero, events + [a], b);
    RunSnoc(zero, events + [a] + [b], c);
    assert events + [a, b, c] == events + [a] + [b] + [c];
  }

  /** The next heartbeat says unchanged although the receiver is out of date; a handshake would repair it. */
  predicate Stranded(y: System)
    requires WellFormed(y)
  {
    && BuiltUpdate(y.sender).Some? && BuiltUpdate(y.sender).value.Unchanged?
    && !UpToDate(Next(y, Heartbeat(Marked'))) && UpToDate(Next(y, Handshake(Marked')))
  }

  /** A diff that arrives unmarked leaves the receiver with it and the sender's note as it was. */
  lemma UnmarkedDiffArrives(y: System)
    requires WellFormed(y) && SnapshotInv(y.sender) && InSync(y)
    requires BuiltUpdate(y.sender).Some? && BuiltUpdate(y.sender).value.Diff?
    ensures var z := Next(y, Heartbeat(Unmarked));
            && z.sender == y.sender && z.held.Some? && Canonical(z.held.value) == Canonical(y.sender.payload)
  {
    DiffReaches(y.held.value, y.sender);
  }

  lemma ChangeMakesADiff(y: System, q: Payload)
    requires WellFormed(y) && q.Valid() && SnapshotInv(y.sender) && InSync(y)
    requires y.sender.reportedFingerprint == y.sender.fingerprint != Blank && FingerprintOf(q) != y.sender.fingerprint
    ensures var z := Next(y, Refresh(q));
            && z.sender == Reconciled(y.sender, q) && z.sender.payload == q && SnapshotInv(z.sender) && InSync(z)
            && BuiltUpdate(z.sender).Some? && BuiltUpdate(z.sender).value.Diff?
  {
  }

  /** The chain of states behind the run below. */
  lemma UnmarkedChain(y1: System, p: Payload, q: Payload)
    requires WellFormed(y1) && p.Valid() && q.Valid() && Canonical(p) != Canonical(q) && y1.sender.version >= 1
    requires SnapshotInv(y1.sender) && InSync(y1)
        && y1.sender.reportedFingerprint == y1.sender.fingerprint == FingerprintOf(p)
    requires y1.sender.payload == y1.sender.reportedPayload == p
    ensures Stranded(Next(Next(Next(y1, Refresh(q)), Heartbeat(Unmarked)), Refresh(p)))
  {
    ChangeMakesADiff(y1, q);
    UnmarkedDiffArrives(Next(y1, Refresh(q)));
    CanonicalTwice(p);
  }

  /**
   Why marking matters: report p, let q arrive unmarked, return to p, and the next heartbeat says unchanged
   while the receiver still holds q. The next handshake repairs it.
   */
  lemma UnmarkedDiffStrandsTheReceiver(zero: Payload, events: seq<Event>, p: Payload, q: Payload)
    requires zero.Valid() && GoodRun(events) && p.Valid() && q.Valid() && Canonical(p) != Canonical(q)
    ensures Stranded(Run(zero, Reported(events, p) + [Refresh(q), Heartbeat(Unmarked), Refresh(p)]))
  {
    AfterTheReport(zero, events, p);
    RunThree(zero, Reported(events, p), Refresh(q), Heartbeat(Unmarked), Refresh(p));
    UnmarkedChain(Run(zero, Reported(events, p)), p, q);
  }

  function Reported(events: seq<Event>, p: Payload): (longer: seq<Event>)
    requires p.Valid() && forall k :: 0 <= k < |events| ==> ValidEvent(events[k])
    ensures forall k :: 0 <= k < |longer| ==> ValidEvent(longer[k])
  {
    events + [Refresh(p)] + [Heartbeat(Marked')]
  }

  /** Once p is computed and its heartbeat marked, p is what was last reported. */
  lemma AfterTheReport(zero: Payload, events: seq<Event>, p: Payload)
    requires zero.Valid() && GoodRun(events) && p.Valid()
    ensures var y := Run(zero, Reported(events, p));
            && SnapshotInv(y.sender) && InSync(y) && y.sender.version >= 1
            && y.sender.reportedFingerprint == y.sender.fingerprint == FingerprintOf(p)
            && y.sender.payload == y.sender.reportedPayload == p
  {
    var e1 := events + [Refresh(p)];
    RunSnoc(zero, events, Refresh(p));
    RunSnoc(zero, e1, Heartbeat(Marked'));
    RunInSync(zero, events);
    SyncIsInductive(Run(zero, events), Refresh(p));
    SyncIsInductive(Run(zero, e1), Heartbeat(Marked'));
    ReportedIsCurrent(Run(zero, e1));
  }

  lemma ReportedIsCurrent(y: System)
    requires WellFormed(y) && SnapshotInv(y.sender) && y.sender.fingerprint != Blank
    ensures Next(y, Heartbeat(Marked')).sender == Marked(y.sender)
  {
  }

  // ---------------------------------------------------------------- versions

  /** The version is at least one once computed, and rises by one exactly when a computed fingerprint changes. */
  lemma VersionRisesExactlyOnChange(s: Snapshot, p: Payload)
    requires s.payload.Valid() && s.reportedPayload.Valid() && p.Valid() && SnapshotInv(s)
    ensures var t := Reconciled(s, p);
            && t.version >= 1
            && (t.version > s.version && s.version >= 1
                <==> s.fingerprint != Blank && Canonical(p) != Canonical(s.payload))
            && t.version <= s.version + 1
  {
  }

  /** One step never lowers the version, and keeps the fingerprint when it keeps the version. */
  lemma StepKeepsVersions(y: System, e: Event)
    requires WellFormed(y) && ValidEvent(e) && (y.sender.version >= 1 <==> y.sender.fingerprint != Blank)
    ensures var s, t := y.sender, Next(y, e).sender;
            && s.version <= t.version && (t.version >= 1 <==> t.fingerprint != Blank)
            && (s.version == t.version ==> s.fingerprint == t.fingerprint)
  {
  }

  /** Along any run a version number never stands for two different payloads. */
  lemma {:induction false} VersionNamesOnePayload(zero: Payload, events: seq<Event>, n: nat)
    requires zero.Valid() && n <= |events| && forall k :: 0 <= k < |events| ==> ValidEvent(events[k])
    ensures var before, after := Run(zero, events[..n]).sender, Run(zero, events).sender;
            && before.version <= after.version && (after.version >= 1 <==> after.fingerprint != Blank)
            && (before.version == after.version ==> before.fingerprint == after.fingerprint)
    decreases |events|
  {
    if events == [] {
      assert events[..n] == events;
      return;
    }
    var init := events[..|events| - 1];
    VersionNamesOnePayload(zero, init, if n < |events| then n else |init|);
    StepKeepsVersions(Run(zero, init), events[|events| - 1]);
    if n < |events| {
      assert init[..n] == events[..n];
    } else {
      assert events[..n] == events;
    }
  }

  // ---------------------------------------------------------------- what an update announces

  /** The sender stood at this version with this fingerprint after some part of the run. */
  ghost predicate StoodAt(zero: Payload, events: seq<Event>, version: nat, fingerprint: Fingerprint)
    requires zero.Valid() && forall k :: 0 <= k < |events| ==> ValidEvent(events[k])
  {
    exists n :: 0 <= n <= |events| && SenderAt(zero, events, n, version, fingerprint)
  }

  predicate SenderAt(zero: Payload, events: seq<Event>, n: nat, version: nat, fingerprint: Fingerprint)
    requires zero.Valid() && (forall k :: 0 <= k < |events| ==> ValidEvent(events[k])) && n <= |events|
  {
    Run(zero, events[..n]).sender.version == version && Run(zero, events[..n]).sender.fingerprint == fingerprint
  }

  lemma StoodAtBefore(zero: Payload, events: seq<Event>, m: nat, version: nat, fingerprint: Fingerprint)
    requires zero.Valid() && (forall k :: 0 <= k < |events| ==> ValidEvent(events[k])) && m <= |events|
    requires StoodAt(zero, events[..m], version, fingerprint)
    ensures StoodAt(zero, events, version, fingerprint)
  {
    var n :| 0 <= n <= m && SenderAt(zero, events[..m], n, version, fingerprint);
    assert events[..m][..n] == events[..n];
    assert SenderAt(zero, events, n, version, fingerprint);
  }

  lemma StandsNow(zero: Payload, events: seq<Event>)
    requires zero.Valid() && forall k :: 0 <= k < |events| ==> ValidEvent(events[k])
    ensures StoodAt(zero, events, Run(zero, events).sender.version, Run(zero, events).sender.fingerprint)
  {
    assert events[..|events|] == events;
    assert SenderAt(zero, events, |events|, Run(zero, events).sender.version, Run(zero, events).sender.fingerprint);
  }

  /** What is noted as reported is either what it was before, or where the sender stood. */
  lemma ReportedMoves(y: System, e: Event)
    requires WellFormed(y) && ValidEvent(e)
    ensures var s, t := y.sender, Next(y, e).sender;
            || (t.reportedVersion == s.reportedVersion && t.reportedFingerprint == s.reportedFingerprint)
            || (t.reportedVersion == s.version && t.reportedFingerprint == s.fingerprint)
  {
  }

  /** Whatever the run, the sender once stood at the version and fingerprint that it notes as reported. */
  lemma {:induction false} ReportedStood(zero: Payload, events: seq<Event>)
    requires zero.Valid() && forall k :: 0 <= k < |events| ==> ValidEvent(events[k])
    ensures var s := Run(zero, events).sender; StoodAt(zero, events, s.reportedVersion, s.reportedFingerprint)
  {
    if events == [] {
      StandsNow(zero, events);
    } else {
      var m := |events| - 1;
      ReportedStood(zero, events[..m]);
      StandsNow(zero, events[..m]);
      ReportedMoves(Run(zero, events[..m]), events[m]);
      var s := Run(zero, events).sender;
      StoodAtBefore(zero, events, m, s.reportedVersion, s.reportedFingerprint);
    }
  }

  lemma OneFingerprintEach(zero: Payload, events: seq<Event>, m: nat, n: nat)
    requires zero.Valid() && (forall k :: 0 <= k < |events| ==> ValidEvent(events[k])) && m <= n <= |events|
    ensures var s, t := Run(zero, events[..m]).sender, Run(zero, events[..n]).sender;
            s.version == t.version ==> s.fingerprint == t.fingerprint
  {
    assert events[..n][..m] == events[..m];
    VersionNamesOnePayload(zero, events[..n], m);
  }

  /** A version at which the sender once stood named one fingerprint only. */
  lemma StoodAtOnce(zero: Payload, events: seq<Event>, n: nat, version: nat, fingerprint: Fingerprint)
    requires zero.Valid() && (forall k :: 0 <= k < |events| ==> ValidEvent(events[k])) && n <= |events|
    requires StoodAt(zero, events, version, fingerprint) && Run(zero, events[..n]).sender.version == version
    ensures Run(zero, events[..n]).sender.fingerprint == fingerprint
  {
    var m :| 0 <= m <= |events| && SenderAt(zero, events, m, version, fingerprint);
    if m <= n {
      OneFingerprintEach(zero, events, m, n);
    } else {
      OneFingerprintEach(zero, events, n, m);
    }
  }

  lemma StoodNotAbove(zero: Payload, events: seq<Event>, version: nat, fingerprint: Fingerprint)
    requires zero.Valid() && forall k :: 0 <= k < |events| ==> ValidEvent(events[k])
    requires StoodAt(zero, events, version, fingerprint)
    ensures var s := Run(zero, events).sender;
            version <= s.version && (version == s.version ==> fingerprint == s.fingerprint)
  {
    var m :| 0 <= m <= |events| && SenderAt(zero, events, m, version, fingerprint);
    VersionNamesOnePayload(zero, events, m);
  }

  /** What the receiver was told with what it holds is what the sender notes as reported, unless it was told nothing. */
  predicate ToldInStep(y: System) {
    y.sender.reportedFingerprint != Blank ==> y.told in {None, Some(y.sender.reportedVersion)}
  }

  lemma ToldStaysInStep(y: System, e: Event)
    requires WellFormed(y) && ValidEvent(e) && ToldInStep(y) && SnapshotInv(y.sender)
    requires !e.Refresh? ==> e.fate != Unmarked
    ensures ToldInStep(Next(y, e))
  {
  }

  lemma {:induction false} RunToldInStep(zero: Payload, events: seq<Event>)
    requires zero.Valid() && GoodRun(events)
    ensures ToldInStep(Run(zero, events))
  {
    if events != [] {
      RunToldInStep(zero, events[..|events| - 1]);
      RunInSync(zero, events[..|events| - 1]);
      ToldStaysInStep(Run(zero, events[..|events| - 1]), events[|events| - 1]);
    }
  }

  /** The version names the fingerprint: the sender stood there, and never at that version with another one. */
  ghost predicate Names(zero: Payload, events: seq<Event>, version: nat, fingerprint: Fingerprint)
    requires zero.Valid() && forall k :: 0 <= k < |events| ==> ValidEvent(events[k])
  {
    && StoodAt(zero, events, version, fingerprint)
    && forall n :: 0 <= n <= |events| && Run(zero, events[..n]).sender.version == version ==>
         Run(zero, events[..n]).sender.fingerprint == fingerprint
  }

  lemma StoodMeansNames(zero: Payload, events: seq<Event>, version: nat, fingerprint: Fingerprint)
    requires zero.Valid() && forall k :: 0 <= k < |events| ==> ValidEvent(events[k])
    requires StoodAt(zero, events, version, fingerprint)
    ensures Names(zero, events, version, fingerprint)
  {
    forall n | 0 <= n <= |events| && Run(zero, events[..n]).sender.version == version
      ensures Run(zero, events[..n]).sender.fingerprint == fingerprint
    {
      StoodAtOnce(zero, events, n, version, fingerprint);
    }
  }

  /**
   Over every run of lost and marked messages, an unchanged or diff message announces as base version and hash those
   of what the receiver holds, and as its own those of the sender; the base version is the one the receiver was told,
   if it was told one, and a diff's version is above its base.
   */
  lemma BaseIsWhatTheReceiverHolds(zero: Payload, events: seq<Event>)
    requires zero.Valid() && GoodRun(events) && BuiltUpdate(Run(zero, events).sender).Some?
    requires !BuiltUpdate(Run(zero, events).sender).value.Full?
    ensures var y, u := Run(zero, events), BuiltUpdate(Run(zero, events).sender).value;
            && y.held.Some? && u.baseHash == FingerprintOf(y.held.value)
            && Names(zero, events, u.baseVersion, u.baseHash)
            && y.told in {None, Some(u.baseVersion)}
            && u.baseVersion <= u.version && (u.Diff? ==> u.baseVersion < u.version)
  {
    var s := Run(zero, events).sender;
    RunInSync(zero, events);
    RunToldInStep(zero, events);
    ReportedStood(zero, events);
    StoodMeansNames(zero, events, s.reportedVersion, s.reportedFingerprint);
    StoodNotAbove(zero, events, s.reportedVersion, s.reportedFingerprint);
  }

  /** Every message that arrives leaves the receiver with the payload and the version that it announces. */
  lemma UpdateNamesWhatItLeaves(zero: Payload, events: seq<Event>, fate: Fate)
    requires zero.Valid() && GoodRun(events) && BuiltUpdate(Run(zero, events).sender).Some? && fate != Lost
    ensures var y, u := Run(zero, events), BuiltUpdate(Run(zero, events).sender).value;
            var after := Next(y, Heartbeat(fate));
            && after.held.Some? && u.hash == FingerprintOf(after.held.value)
            && Names(zero, events, u.version, u.hash)
            && after.told == Some(u.version) && u.version == after.sender.version
  {
    var s := Run(zero, events).sender;
    RunInSync(zero, events);
    StandsNow(zero, events);
    StoodMeansNames(zero, events, s.version, s.fingerprint);
    CanonicalTwice(s.payload);
    if s.reportedFingerprint != Blank {
      DiffReaches(Run(zero, events).held.value, s);
    }
  }

  /** A handshake carries the payload but no version: the next base version is one that the receiver was not told. */
  lemma HandshakeTellsNoVersion(zero: Payload, events: seq<Event>, p: Payload)
    requires zero.Valid() && GoodRun(events) && p.Valid() && Run(zero, events).sender.fingerprint != Blank
    requires Canonical(p) != Canonical(Run(zero, events).sender.payload)
    ensures var y := Next(Next(Run(zero, events), Handshake(Marked')), Refresh(p));
            && BuiltUpdate(y.sender).Some? && BuiltUpdate(y.sender).value.Diff? && y.told == None
            && BuiltUpdate(y.sender).value.baseVersion == Run(zero, events).sender.version
  {
    RunInSync(zero, events);
  }
}
