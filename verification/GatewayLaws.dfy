/** What a gateway render promises: all or nothing for the live files, over single renders and over runs. */
module GatewayLaws {
  import opened Gateway
  import opened Text

  // ---------------------------------------------------------------- running steps

  predicate SameAt(f: Files, g: Files, p: Path) {
    (p in f <==> p in g) && (p in f ==> f[p] == g[p])
  }

  predicate Holds(f: Files, p: Path, c: Content) {
    p in f && f[p] == c
  }

  /** No step writes, copies to, or removes this file. */
  predicate Spares(ops: seq<Op>, p: Path) {
    forall k :: 0 <= k < |ops| ==>
      match ops[k] {
        case Write(path, _) => path != p
        case Copy(_, to) => to != p
        case Remove(path) => path != p
        case Require(_) => true
      }
  }

  lemma {:induction false} SparedStays(io: Io, disk: Disk, ops: seq<Op>, p: Path)
    requires Spares(ops, p)
    ensures SameAt(io.files, Exec(io, disk, ops).files, p)
    decreases |ops|
  {
    if ops != [] && !io.failed {
      var next := Do(io, disk, ops[0]);
      assert SameAt(io.files, next.files, p);
      SparedStays(next, disk, ops[1..], p);
    }
  }

  /** Steps that all succeed: the first ones succeed, and the rest succeed from there. */
  lemma {:induction false} ExecAppend(io: Io, disk: Disk, a: seq<Op>, b: seq<Op>)
    ensures Exec(io, disk, a + b) == Exec(Exec(io, disk, a), disk, b)
    decreases |a|
  {
    if a == [] {
      assert a + b == b;
    } else if !io.failed {
      assert (a + b)[1..] == a[1..] + b;
      ExecAppend(Do(io, disk, a[0]), disk, a[1..], b);
    }
  }

  lemma ExecOne(io: Io, disk: Disk, op: Op, rest: seq<Op>)
    requires !io.failed
    ensures Exec(io, disk, [op] + rest) == Exec(Do(io, disk, op), disk, rest)
  {
  }

  lemma {:induction false} FailureStays(io: Io, disk: Disk, ops: seq<Op>)
    requires io.failed
    ensures Exec(io, disk, ops) == io
  {
  }

  /** What a file holds once all steps have succeeded, if this step was the last to touch it. */
  lemma LastWriteHolds(io: Io, disk: Disk, before: seq<Op>, op: Op, after: seq<Op>, p: Path)
    requires !Exec(io, disk, before + [op] + after).failed && Spares(after, p)
    ensures var at, end := Exec(io, disk, before), Exec(io, disk, before + [op] + after);
            && !at.failed
            && (op.Write? && op.path == p ==> Holds(end.files, p, op.content))
            && (op.Copy? && op.to == p ==> op.from in at.files && Holds(end.files, p, at.files[op.from]))
            && (op.Remove? && op.path == p ==> p !in end.files)
            && (op.Require? ==> op.holds)
  {
    var at := Exec(io, disk, before);
    ExecAppend(io, disk, before, [op] + after);
    assert before + [op] + after == before + ([op] + after);
    if at.failed {
      FailureStays(at, disk, [op] + after);
    }
    ExecOne(at, disk, op, after);
    var next := Do(at, disk, op);
    if next.failed {
      FailureStays(next, disk, after);
    }
    SparedStays(next, disk, after, p);
  }

  /** Steps that write no record but this one. */
  predicate RecordsOnly(ops: seq<Op>, record: Option<Activation>) {
    forall k :: 0 <= k < |ops| ==>
      match ops[k] {
        case Write(path, content) => path == LiveActive ==> content.ActiveRecord? && Some(content.activation) == record
        case Copy(_, to) => to != LiveActive
        case _ => true
      }
  }

  /** The record after some steps, failed or not: as before, gone, or the one written. */
  lemma {:induction false} RecordAfter(io: Io, disk: Disk, ops: seq<Op>, record: Option<Activation>)
    requires RecordsOnly(ops, record)
    ensures ActiveOf(Exec(io, disk, ops).files) in {ActiveOf(io.files), None, record}
    decreases |ops|
  {
    if ops != [] && !io.failed {
      var next := Do(io, disk, ops[0]);
      assert ActiveOf(next.files) in {ActiveOf(io.files), None, record};
      RecordAfter(next, disk, ops[1..], record);
    }
  }

  // ---------------------------------------------------------------- the parts of a render

  /** Every activation on record names a version's own files. */
  predicate Versioned(previous: Option<Activation>) {
    previous.Some? ==>
      && previous.value.configPath.VersionConfig?
      && previous.value.planPath == VersionPlan(previous.value.configPath.revision, previous.value.configPath.version)
  }

  /** The live files are those of an activation: config, plan and record; or all absent, if there is none. */
  predicate RestoredTo(before: Files, after: Files, previous: Option<Activation>) {
    if previous.None? then LiveConfig !in after && LivePlan !in after && LiveActive !in after
    else
      && previous.value.configPath in before && Holds(after, LiveConfig, before[previous.value.configPath])
      && previous.value.planPath in before && Holds(after, LivePlan, before[previous.value.planPath])
      && Holds(after, LiveActive, ActiveRecord(previous.value))
  }

  lemma PutBackRestores(io: Io, disk: Disk, previous: Activation)
    requires Versioned(Some(previous)) && !Exec(io, disk, RollbackOps(Some(previous))).failed
    ensures RestoredTo(io.files, Exec(io, disk, RollbackOps(Some(previous))).files, Some(previous))
  {
    var config, plan := Copy(previous.configPath, LiveConfig), Copy(previous.planPath, LivePlan);
    var record, note := Write(LiveActive, ActiveRecord(previous)), Write(RollbackResult, HookResult("rollback"));
    assert RollbackOps(Some(previous)) == [] + [config] + [plan, record, note]
        == [config] + [plan] + [record, note] == [config, plan] + [record] + [note];
    LastWriteHolds(io, disk, [], config, [plan, record, note], LiveConfig);
    LastWriteHolds(io, disk, [config], plan, [record, note], LivePlan);
    LastWriteHolds(io, disk, [config, plan], record, [note], LiveActive);
    SparedStays(io, disk, [config], previous.planPath);
  }

  lemma TakeAwayRestores(io: Io, disk: Disk)
    requires !Exec(io, disk, RollbackOps(None)).failed
    ensures RestoredTo(io.files, Exec(io, disk, RollbackOps(None)).files, None)
  {
  }

  /** A rollback that succeeds restores; the plans written after it do not touch the live files. */
  lemma UndoRestores(io: Io, disk: Disk, r: Request, previous: Option<Activation>, plan: Plan)
    requires Versioned(previous) && Undo(io, disk, r, previous, plan).1
    ensures RestoredTo(io.files, Undo(io, disk, r, previous, plan).0, previous)
  {
    var back := Exec(io.(failed := false), disk, RollbackOps(previous));
    if previous.Some? {
      PutBackRestores(io.(failed := false), disk, previous.value);
    } else {
      TakeAwayRestores(io.(failed := false), disk);
    }
    PlansSpare(back, disk, r, plan.(rolledBack := true));
  }

  lemma PlansSpare(io: Io, disk: Disk, r: Request, plan: Plan)
    ensures var after := Exec(io, disk, PlanOps(r, plan)).files;
            && SameAt(io.files, after, LiveConfig) && SameAt(io.files, after, LivePlan)
            && SameAt(io.files, after, LiveActive)
            && SameAt(io.files, after, r.ConfigPath())
  {
    var ops := PlanOps(r, plan);
    SparedStays(io, disk, ops, LiveConfig);
    SparedStays(io, disk, ops, LivePlan);
    SparedStays(io, disk, ops, LiveActive);
    SparedStays(io, disk, ops, r.ConfigPath());
  }

  lemma PlansHold(io: Io, disk: Disk, before: seq<Op>, r: Request, plan: Plan)
    requires !Exec(io, disk, before + PlanOps(r, plan)).failed
    ensures Holds(Exec(io, disk, before + PlanOps(r, plan)).files, r.PlanPath(), PlanDocument(plan))
  {
    var first, second := Write(r.PlanPath(), PlanDocument(plan)), Write(WorkspacePlan(r.revision), PlanDocument(plan));
    assert before + PlanOps(r, plan) == before + [first] + [second];
    LastWriteHolds(io, disk, before, first, [second], r.PlanPath());
  }

  /** The files as far as applying hold the new config and the validated plan. */
  lemma PreparedHolds(files: Files, disk: Disk, r: Request)
    requires !Prepare(files, disk, r).0.failed
    ensures Holds(Prepare(files, disk, r).0.files, r.ConfigPath(), ConfigText(r.config))
    ensures Holds(Prepare(files, disk, r).0.files, r.PlanPath(), PlanDocument(r.ValidatedPlan()))
    ensures r.planValid && r.configValid
  {
    var start := Io(files, 0, false);
    var written := Exec(start, disk, VersionOps(r));
    var config := Write(r.ConfigPath(), ConfigText(r.config));
    var rest := [Write(WorkspaceConfig(r.revision), ConfigText(r.config))] + PlanOps(r, r.FirstPlan());
    assert VersionOps(r) == [] + [config] + rest;
    LastWriteHolds(start, disk, [], config, rest, r.ConfigPath());
    var again := written.(asked := written.asked + 1);
    ValidatedHolds(again, disk, r);
    SparedStays(again, disk, ValidateOps(r), r.ConfigPath());
  }

  lemma ValidatedHolds(io: Io, disk: Disk, r: Request)
    requires !Exec(io, disk, ValidateOps(r)).failed
    ensures Holds(Exec(io, disk, ValidateOps(r)).files, r.PlanPath(), PlanDocument(r.ValidatedPlan()))
    ensures r.planValid && r.configValid
  {
    var a, c := Require(r.planValid), Require(r.configValid);
    var b := Write(ValidateResult(r.revision, r.version), HookResult("validate"));
    var plans := PlanOps(r, r.ValidatedPlan());
    assert ValidateOps(r) == [a, b, c] + plans;
    PlansHold(io, disk, [a, b, c], r, r.ValidatedPlan());
    assert ValidateOps(r) == [] + [a] + ([b, c] + plans) == [a, b] + [c] + plans;
    LastWriteHolds(io, disk, [], a, [b, c] + plans, RollbackResult);
    LastWriteHolds(io, disk, [a, b], c, plans, RollbackResult);
  }

  /** The version's own files and the workspace copies. */
  predicate Own(r: Request, p: Path) {
    p in {r.ConfigPath(), r.PlanPath(), ValidateResult(r.revision, r.version), WorkspaceConfig(r.revision),
          WorkspacePlan(r.revision)}
  }

  lemma PreparedSpares(files: Files, disk: Disk, r: Request, p: Path)
    requires !Own(r, p)
    ensures SameAt(files, Prepare(files, disk, r).0.files, p)
  {
    var written := Exec(Io(files, 0, false), disk, VersionOps(r));
    SparedStays(Io(files, 0, false), disk, VersionOps(r), p);
    SparedStays(written.(asked := written.asked + 1), disk, ValidateOps(r), p);
  }

  // ---------------------------------------------------------------- all or nothing

  predicate RolledBack(o: Outcome) {
    o == ApplyFailed(true) || o == ReloadFailed(true)
  }

  /** The files at the moment of rolling back. */
  function AtRollback(ready: Io, disk: Disk, r: Request): Io {
    var applied := Exec(ready, disk, ApplyOps(r));
    if applied.failed then applied else Exec(Exec(applied, disk, PlanOps(r, r.AppliedPlan())), disk, ReloadOps(r))
  }

  /** The plan on disk at that moment: only validated, or applied already. */
  function PlanAtRollback(r: Request, o: Outcome): Plan {
    if o.ReloadFailed? then r.AppliedPlan() else r.ValidatedPlan()
  }

  /** Until then the version's config is in place, and other versions' files are as they were. */
  lemma AtRollbackSpares(ready: Io, disk: Disk, r: Request, p: Path)
    requires p.VersionConfig? || (p.VersionPlan? && p != r.PlanPath())
    ensures SameAt(ready.files, AtRollback(ready, disk, r).files, p)
  {
    var applied := Exec(ready, disk, ApplyOps(r));
    SparedStays(ready, disk, ApplyOps(r), p);
    var noted := Exec(applied, disk, PlanOps(r, r.AppliedPlan()));
    SparedStays(applied, disk, PlanOps(r, r.AppliedPlan()), p);
    SparedStays(noted, disk, ReloadOps(r), p);
  }

  lemma AtRollbackHolds(ready: Io, disk: Disk, r: Request, previous: Option<Activation>)
    requires !ready.failed && RolledBack(ApplyAll(ready, disk, r, previous).1)
    requires Holds(ready.files, r.PlanPath(), PlanDocument(r.ValidatedPlan()))
    ensures var o := ApplyAll(ready, disk, r, previous).1;
            Holds(AtRollback(ready, disk, r).files, r.PlanPath(), PlanDocument(PlanAtRollback(r, o)))
  {
    var applied := Exec(ready, disk, ApplyOps(r));
    if applied.failed {
      SparedStays(ready, disk, ApplyOps(r), r.PlanPath());
    } else {
      var ops := PlanOps(r, r.AppliedPlan());
      assert [] + ops == ops;
      PlansHold(applied, disk, [], r, r.AppliedPlan());
      SparedStays(Exec(applied, disk, ops), disk, ReloadOps(r), r.PlanPath());
    }
  }

  lemma ApplyAllRestores(ready: Io, disk: Disk, r: Request, previous: Option<Activation>)
    requires Versioned(previous) && RolledBack(ApplyAll(ready, disk, r, previous).1)
    ensures RestoredTo(AtRollback(ready, disk, r).files, ApplyAll(ready, disk, r, previous).0, previous)
  {
    var at := AtRollback(ready, disk, r);
    if Exec(ready, disk, ApplyOps(r)).failed {
      UndoRestores(at, disk, r, previous, r.ValidatedPlan());
    } else {
      UndoRestores(at, disk, r, previous, r.AppliedPlan().(apply := TakenBack));
    }
  }

  /** The version to be rendered is the one on record. */
  predicate Rerenders(previous: Option<Activation>, r: Request) {
    previous.Some? && previous.value.configPath == r.ConfigPath()
  }

  /** The previous activation's files lie elsewhere, or held what the new version put there. */
  predicate FilesSurvive(files: Files, previous: Option<Activation>, r: Request, plan: Plan) {
    Rerenders(previous, r) ==>
      Holds(files, r.ConfigPath(), ConfigText(r.config)) && Holds(files, r.PlanPath(), PlanDocument(plan))
  }

  /**
   Files restored from a later moment are those from before exactly when the previous activation was seen and its
   files survived.
   */
  lemma RestoredExactlyWhen(files: Files, at: Files, after: Files, seen: Option<Activation>, r: Request, plan: Plan)
    requires Versioned(ActiveOf(files)) && seen in {None, ActiveOf(files)} && RestoredTo(at, after, seen)
    requires Holds(at, r.ConfigPath(), ConfigText(r.config)) && Holds(at, r.PlanPath(), PlanDocument(plan))
    requires var previous := ActiveOf(files);
             previous.Some? && !Rerenders(previous, r) ==>
               SameAt(files, at, previous.value.configPath) && SameAt(files, at, previous.value.planPath)
    ensures var previous := ActiveOf(files);
            RestoredTo(files, after, previous) <==>
              previous.None? || (seen == previous && FilesSurvive(files, previous, r, plan))
  {
  }

  /**
   After a render that failed and rolled back, the live config, plan and record are those of the activation before,
   exactly when there was none, or it could be read and its files were not overwritten by the new version with
   something else.
   */
  lemma RollbackRestoresExactlyWhen(files: Files, disk: Disk, r: Request)
    requires Versioned(ActiveOf(files)) && RolledBack(Render(files, disk, r).1)
    ensures var (after, o) := Render(files, disk, r);
            var previous := ActiveOf(files);
            RestoredTo(files, after, previous) <==>
              || previous.None?
              || (Prepare(files, disk, r).1 == previous && FilesSurvive(files, previous, r, PlanAtRollback(r, o)))
  {
    var (ready, seen) := Prepare(files, disk, r);
    var (after, o) := Render(files, disk, r);
    var at := AtRollback(ready, disk, r).files;
    SeenActive(files, disk, r);
    PreparedHolds(files, disk, r);
    ApplyAllRestores(ready, disk, r, seen);
    AtRollbackHolds(ready, disk, r, seen);
    AtRollbackSpares(ready, disk, r, r.ConfigPath());
    if ActiveOf(files).Some? && !Rerenders(ActiveOf(files), r) {
      OthersStay(files, ready, disk, r, ActiveOf(files).value.configPath);
      OthersStay(files, ready, disk, r, ActiveOf(files).value.planPath);
    }
    RestoredExactlyWhen(files, at, after, seen, r, PlanAtRollback(r, o));
  }

  lemma OthersStay(files: Files, ready: Io, disk: Disk, r: Request, p: Path)
    requires ready == Prepare(files, disk, r).0 && !Own(r, p) && (p.VersionConfig? || p.VersionPlan?)
    ensures SameAt(files, AtRollback(ready, disk, r).files, p)
  {
    PreparedSpares(files, disk, r, p);
    AtRollbackSpares(ready, disk, r, p);
  }

  /** What is seen as the previous activation is the one on record, or none. */
  lemma SeenActive(files: Files, disk: Disk, r: Request)
    ensures Prepare(files, disk, r).1 in {None, ActiveOf(files)}
  {
    SparedStays(Io(files, 0, false), disk, VersionOps(r), LiveActive);
  }

  /**
   A version other than the active one is all or nothing: rolled back, the live files are as the readable
   activation before says.
   */
  lemma FreshVersionIsAllOrNothing(files: Files, disk: Disk, r: Request)
    requires Versioned(ActiveOf(files)) && !Rerenders(ActiveOf(files), r) && RolledBack(Render(files, disk, r).1)
    requires Prepare(files, disk, r).1 == ActiveOf(files)
    ensures RestoredTo(files, Render(files, disk, r).0, ActiveOf(files))
  {
    RollbackRestoresExactlyWhen(files, disk, r);
  }
}
