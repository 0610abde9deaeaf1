/** The gateway manager in place: one file operation after the other, returning at the first error. */
module GatewayManager {
  import opened Gateway
  import opened GatewayLaws
  import opened Text

  /** The first step, and what is left to do after it. */
  lemma NextStep(io: Io, disk: Disk, ops: seq<Op>)
    requires !io.failed && ops != []
    ensures var next := Do(io, disk, ops[0]);
            Exec(io, disk, ops) == if next.failed then next else Exec(next, disk, ops[1..])
  {
  }

  class Manager {
    var files: Files
    var asked: nat
    var disk: Disk

    ghost function Now(ok: bool): Io
      reads this
    {
      Io(files, asked, !ok)
    }

    constructor (files: Files, disk: Disk)
      ensures Now(true) == Io(files, 0, false) && this.disk == disk
    {
      this.files, asked, this.disk := files, 0, disk;
    }

    method WriteFile(path: Path, content: Content) returns (ok: bool)
      modifies this`files, this`asked
      ensures Now(ok) == Do(old(Now(true)), disk, Write(path, content))
    {
      var effect := disk(asked);
      asked := asked + 1;
      match effect {
        case Done =>
          files := files[path := content];
          return true;
        case Refused =>
          return false;
        case TornWrite =>
          files := files[path := Torn];
          return false;
      }
    }

    method CopyFile(from: Path, to: Path) returns (ok: bool)
      modifies this`files, this`asked
      ensures Now(ok) == Do(old(Now(true)), disk, Copy(from, to))
    {
      if from !in files {
        return false;
      }
      ok := WriteFile(to, files[from]);
    }

    method RemoveFile(path: Path) returns (ok: bool)
      modifies this`files, this`asked
      ensures Now(ok) == Do(old(Now(true)), disk, Remove(path))
    {
      if path !in files {
        return true;
      }
      var effect := disk(asked);
      asked := asked + 1;
      if effect == Done {
        files := files - {path};
        return true;
      }
      return false;
    }

    method LoadActivation() returns (previous: Option<Activation>)
      modifies this`asked
      ensures previous == PreviousActive(old(Now(true)), disk) && asked == old(asked) + 1
    {
      var effect := disk(asked);
      asked := asked + 1;
      if effect != Done || LiveActive !in files || !files[LiveActive].ActiveRecord? {
        return None;
      }
      return Some(files[LiveActive].activation);
    }

    method WritePlans(r: Request, plan: Plan) returns (ok: bool)
      modifies this`files, this`asked
      ensures Now(ok) == Exec(old(Now(true)), disk, PlanOps(r, plan))
    {
      ghost var ops := PlanOps(r, plan);
      NextStep(Now(true), disk, ops);
      ok := WriteFile(r.PlanPath(), PlanDocument(plan));
      if !ok {
        return;
      }
      NextStep(Now(true), disk, ops[1..]);
      ok := WriteFile(WorkspacePlan(r.revision), PlanDocument(plan));
    }

    method WriteVersion(r: Request) returns (ok: bool)
      modifies this`files, this`asked
      ensures Now(ok) == Exec(old(Now(true)), disk, VersionOps(r))
    {
      ghost var ops := VersionOps(r);
      NextStep(Now(true), disk, ops);
      ok := WriteFile(r.ConfigPath(), ConfigText(r.config));
      if !ok {
        return;
      }
      NextStep(Now(true), disk, ops[1..]);
      ok := WriteFile(WorkspaceConfig(r.revision), ConfigText(r.config));
      if !ok {
        return;
      }
      assert ops[1..][1..] == PlanOps(r, r.FirstPlan());
      ok := WritePlans(r, r.FirstPlan());
    }

    /** The plan is checked first, then the config, whose verdict is written down either way. */
    method Validate(r: Request) returns (ok: bool)
      modifies this`files, this`asked
      ensures Now(ok) == Exec(old(Now(true)), disk, ValidateOps(r))
    {
      ghost var ops := ValidateOps(r);
      NextStep(Now(true), disk, ops);
      if !r.planValid {
        return false;
      }
      NextStep(Now(true), disk, ops[1..]);
      ok := WriteFile(ValidateResult(r.revision, r.version), HookResult("validate"));
      if !ok {
        return;
      }
      NextStep(Now(true), disk, ops[1..][1..]);
      if !r.configValid {
        return false;
      }
      assert ops[1..][1..][1..] == PlanOps(r, r.ValidatedPlan());
      ok := WritePlans(r, r.ValidatedPlan());
    }

    method Apply(r: Request) returns (ok: bool)
      modifies this`files, this`asked
      ensures Now(ok) == Exec(old(Now(true)), disk, ApplyOps(r))
    {
      ghost var ops := ApplyOps(r);
      NextStep(Now(true), disk, ops);
      ok := CopyFile(r.ConfigPath(), LiveConfig);
      if !ok {
        return;
      }
      NextStep(Now(true), disk, ops[1..]);
      ok := CopyFile(r.PlanPath(), LivePlan);
      if !ok {
        return;
      }
      NextStep(Now(true), disk, ops[2..]);
      ok := WriteFile(LiveActive, ActiveRecord(r.Record()));
      if !ok {
        return;
      }
      NextStep(Now(true), disk, ops[3..]);
      ok := WriteFile(ApplyResult, HookResult("apply"));
    }

    method Reload(r: Request) returns (ok: bool)
      modifies this`files, this`asked
      ensures Now(ok) == Exec(old(Now(true)), disk, ReloadOps(r))
    {
      ghost var ops := ReloadOps(r);
      NextStep(Now(true), disk, ops);
      if !r.reloads {
        return false;
      }
      NextStep(Now(true), disk, ops[1..]);
      ok := WriteFile(ReloadResult, HookResult("reload"));
    }

    method PutBack(previous: Activation) returns (ok: bool)
      modifies this`files, this`asked
      ensures Now(ok) == Exec(old(Now(true)), disk, PutBackOps(previous))
    {
      ghost var ops := PutBackOps(previous);
      NextStep(Now(true), disk, ops);
      ok := CopyFile(previous.configPath, LiveConfig);
      if !ok {
        return;
      }
      NextStep(Now(true), disk, ops[1..]);
      ok := CopyFile(previous.planPath, LivePlan);
      if !ok {
        return;
      }
      NextStep(Now(true), disk, ops[2..]);
      ok := WriteFile(LiveActive, ActiveRecord(previous));
    }

    method TakeAway() returns (ok: bool)
      modifies this`files, this`asked
      ensures Now(ok) == Exec(old(Now(true)), disk, TAKE_AWAY_OPS)
    {
      ghost var total := Exec(Now(true), disk, TAKE_AWAY_OPS);
      var paths := [LiveConfig, LivePlan, LiveActive];
      for k := 0 to |paths|
        invariant total == Exec(Now(true), disk, TAKE_AWAY_OPS[k..])
      {
        NextStep(Now(true), disk, TAKE_AWAY_OPS[k..]);
        assert TAKE_AWAY_OPS[k..][1..] == TAKE_AWAY_OPS[k + 1..];
        ok := RemoveFile(paths[k]);
        if !ok {
          return;
        }
      }
      return true;
    }

    method Rollback(previous: Option<Activation>) returns (ok: bool)
      modifies this`files, this`asked
      ensures Now(ok) == Exec(old(Now(true)), disk, RollbackOps(previous))
    {
      ghost var note := Write(RollbackResult, HookResult("rollback"));
      ghost var start := Now(true);
      if previous.Some? {
        ExecAppend(start, disk, PutBackOps(previous.value), [note]);
        ok := PutBack(previous.value);
      } else {
        ExecAppend(start, disk, TAKE_AWAY_OPS, [note]);
        ok := TakeAway();
      }
      if !ok {
        FailureStays(Now(false), disk, [note]);
        return;
      }
      NextStep(Now(true), disk, [note]);
      ok := WriteFile(RollbackResult, HookResult("rollback"));
    }

    method Undo(r: Request, previous: Option<Activation>, plan: Plan) returns (rolledBack: bool)
      modifies this`files, this`asked
      ensures (files, rolledBack) == Gateway.Undo(old(Now(false)), disk, r, previous, plan)
    {
      rolledBack := Rollback(previous);
      var _ := WritePlans(r, plan.(rolledBack := rolledBack));
    }

    method Finish(r: Request) returns (ok: bool)
      modifies this`files, this`asked
      ensures Now(ok) == Exec(old(Now(true)), disk, FinishOps(r))
    {
      ghost var copy := Copy(r.PlanPath(), LivePlan);
      ExecAppend(Now(true), disk, PlanOps(r, r.ReloadedPlan()), [copy]);
      ok := WritePlans(r, r.ReloadedPlan());
      if !ok {
        FailureStays(Now(false), disk, [copy]);
        return;
      }
      NextStep(Now(true), disk, [copy]);
      ok := CopyFile(r.PlanPath(), LivePlan);
    }

    /** The given answers are what the file system says during this call. */
    method RenderGatewayConfig(r: Request, answers: Disk) returns (outcome: Outcome)
      modifies this
      ensures (files, outcome) == Render(old(files), answers, r)
    {
      disk, asked := answers, 0;
      var ok := WriteVersion(r);
      if !ok {
        return NotStarted;
      }
      var previous := LoadActivation();
      ok := Validate(r);
      if !ok {
        return NotStarted;
      }
      ok := Apply(r);
      if !ok {
        var rolledBack := Undo(r, previous, r.ValidatedPlan());
        return ApplyFailed(rolledBack);
      }
      ok := WritePlans(r, r.AppliedPlan());
      if !ok {
        return LeftApplied;
      }
      ok := Reload(r);
      if !ok {
        var rolledBack := Undo(r, previous, r.AppliedPlan().(apply := TakenBack));
        return ReloadFailed(rolledBack);
      }
      ok := Finish(r);
      return if ok then Rendered else LeftApplied;
    }
  }
}
