/** Successful renders, and what stays true of the live files over whole runs of renders. */
module GatewayRuns {
  import opened Gateway
  import opened GatewayLaws
  import opened Text

  // ---------------------------------------------------------------- success

  /** The new version is on record, and the live config is its own. */
  predicate Serves(f: Files, r: Request) {
    && ActiveOf(f) == Some(r.Record())
    && Holds(f, r.ConfigPath(), ConfigText(r.config))
    && Holds(f, LiveConfig, ConfigText(r.config))
  }

  lemma ApplyServes(io: Io, disk: Disk, r: Request)
    requires !Exec(io, disk, ApplyOps(r)).failed && Holds(io.files, r.ConfigPath(), ConfigText(r.config))
    ensures Serves(Exec(io, disk, ApplyOps(r)).files, r)
  {
    var config, plan := Copy(r.ConfigPath(), LiveConfig), Copy(r.PlanPath(), LivePlan);
    var record, note := Write(LiveActive, ActiveRecord(r.Record())), Write(ApplyResult, HookResult("apply"));
    assert ApplyOps(r) == [] + [config] + [plan, record, note] == [config, plan] + [record] + [note];
    LastWriteHolds(io, disk, [], config, [plan, record, note], LiveConfig);
    LastWriteHolds(io, disk, [config, plan], record, [note], LiveActive);
    SparedStays(io, disk, ApplyOps(r), r.ConfigPath());
  }

  lemma ServingStays(io: Io, disk: Disk, ops: seq<Op>, r: Request)
    requires Serves(io.files, r) && Spares(ops, LiveActive) && Spares(ops, LiveConfig) && Spares(ops, r.ConfigPath())
    ensures Serves(Exec(io, disk, ops).files, r)
  {
    SparedStays(io, disk, ops, LiveActive);
    SparedStays(io, disk, ops, LiveConfig);
    SparedStays(io, disk, ops, r.ConfigPath());
  }

  lemma ActivateServes(applied: Io, disk: Disk, r: Request, previous: Option<Activation>)
    requires Serves(applied.files, r) && Activate(applied, disk, r, previous).1 in {Rendered, LeftApplied}
    ensures var (after, o) := Activate(applied, disk, r, previous);
            Serves(after, r) && (o.Rendered? ==> PlanServed(after, r) && r.reloads)
  {
    var noted := Exec(applied, disk, PlanOps(r, r.AppliedPlan()));
    ServingStays(applied, disk, PlanOps(r, r.AppliedPlan()), r);
    if !noted.failed {
      var reloaded := Exec(noted, disk, ReloadOps(r));
      ServingStays(noted, disk, ReloadOps(r), r);
      if !reloaded.failed {
        ServingStays(reloaded, disk, FinishOps(r), r);
        if !Exec(reloaded, disk, FinishOps(r)).failed {
          FinishServes(reloaded, disk, r);
          ReloadNeeds(noted, disk, r);
        }
      }
    }
  }

  /** The live plan is the plan on disk, with everything that happened noted in it. */
  predicate PlanServed(f: Files, r: Request) {
    Holds(f, r.PlanPath(), PlanDocument(r.ReloadedPlan())) && Holds(f, LivePlan, PlanDocument(r.ReloadedPlan()))
  }

  lemma FinishServes(io: Io, disk: Disk, r: Request)
    requires !Exec(io, disk, FinishOps(r)).failed
    ensures PlanServed(Exec(io, disk, FinishOps(r)).files, r)
  {
    var plans, copy := PlanOps(r, r.ReloadedPlan()), Copy(r.PlanPath(), LivePlan);
    ExecAppend(io, disk, plans, [copy]);
    assert FinishOps(r) == plans + [copy] + [] && [] + plans == plans;
    LastWriteHolds(io, disk, plans, copy, [], LivePlan);
    PlansHold(io, disk, [], r, r.ReloadedPlan());
    SparedStays(Exec(io, disk, plans), disk, [copy], r.PlanPath());
  }

  lemma ReloadNeeds(io: Io, disk: Disk, r: Request)
    requires !Exec(io, disk, ReloadOps(r)).failed
    ensures r.reloads
  {
  }

  /** Success means that the version passed every check, is on record, and that the live config and plan are its own. */
  lemma RenderedMeansServed(files: Files, disk: Disk, r: Request)
    requires Render(files, disk, r).1.Rendered?
    ensures Serves(Render(files, disk, r).0, r) && PlanServed(Render(files, disk, r).0, r)
    ensures r.planValid && r.configValid && r.reloads
  {
    var (ready, seen) := Prepare(files, disk, r);
    PreparedHolds(files, disk, r);
    ApplyServes(ready, disk, r);
    ActivateServes(Exec(ready, disk, ApplyOps(r)), disk, r, seen);
  }

  // ---------------------------------------------------------------- the record

  lemma UndoRecord(io: Io, disk: Disk, r: Request, previous: Option<Activation>, plan: Plan)
    ensures ActiveOf(Undo(io, disk, r, previous, plan).0) in {ActiveOf(io.files), None, previous}
  {
    var back := Exec(io.(failed := false), disk, RollbackOps(previous));
    RecordAfter(io.(failed := false), disk, RollbackOps(previous), previous);
    PlansSpare(back.(failed := false), disk, r, plan.(rolledBack := !back.failed));
  }

  lemma ActivateRecord(applied: Io, disk: Disk, r: Request, previous: Option<Activation>)
    ensures ActiveOf(Activate(applied, disk, r, previous).0) in {ActiveOf(applied.files), None, previous}
  {
    var noted := Exec(applied, disk, PlanOps(r, r.AppliedPlan()));
    SparedStays(applied, disk, PlanOps(r, r.AppliedPlan()), LiveActive);
    if !noted.failed {
      var reloaded := Exec(noted, disk, ReloadOps(r));
      SparedStays(noted, disk, ReloadOps(r), LiveActive);
      if reloaded.failed {
        UndoRecord(reloaded, disk, r, previous, r.AppliedPlan().(apply := TakenBack));
      } else {
        SparedStays(reloaded, disk, FinishOps(r), LiveActive);
      }
    }
  }

  /**
   Whatever fails, the record afterwards is the old one, the new one, or none; it always names a version's own
   files.
   */
  lemma RecordAfterRender(files: Files, disk: Disk, r: Request)
    requires Versioned(ActiveOf(files))
    ensures ActiveOf(Render(files, disk, r).0) in {ActiveOf(files), None, Some(r.Record())}
    ensures Versioned(ActiveOf(Render(files, disk, r).0))
  {
    var (ready, seen) := Prepare(files, disk, r);
    SeenActive(files, disk, r);
    PreparedSpares(files, disk, r, LiveActive);
    if !ready.failed {
      var applied := Exec(ready, disk, ApplyOps(r));
      RecordAfter(ready, disk, ApplyOps(r), Some(r.Record()));
      if applied.failed {
        UndoRecord(applied, disk, r, seen, r.ValidatedPlan());
      } else {
        ActivateRecord(applied, disk, r, seen);
      }
    }
  }

  // ---------------------------------------------------------------- the live files agree with the record

  /** The live config is the one the record points at. */
  predicate ConfigInStep(f: Files) {
    var a := ActiveOf(f);
    a.Some? ==> a.value.configPath in f && Holds(f, LiveConfig, f[a.value.configPath])
  }

  /** Live config, plan and record agree, or none of them exists. */
  predicate AllInStep(f: Files) {
    RestoredTo(f, f, ActiveOf(f))
  }

  /** After a rollback the restored version's files are still what was restored from them. */
  lemma UndoInStep(io: Io, disk: Disk, r: Request, previous: Option<Activation>, plan: Plan)
    requires Versioned(previous) && Undo(io, disk, r, previous, plan).1
    ensures ConfigInStep(Undo(io, disk, r, previous, plan).0)
    ensures !Rerenders(previous, r) ==> AllInStep(Undo(io, disk, r, previous, plan).0)
  {
    UndoRestores(io, disk, r, previous, plan);
    if previous.Some? {
      UndoSpares(io, disk, r, previous, plan, previous.value.configPath);
      if !Rerenders(previous, r) {
        UndoSpares(io, disk, r, previous, plan, previous.value.planPath);
      }
    }
  }

  lemma UndoSpares(io: Io, disk: Disk, r: Request, previous: Option<Activation>, plan: Plan, p: Path)
    requires p.VersionConfig? || (p.VersionPlan? && p != r.PlanPath())
    ensures SameAt(io.files, Undo(io, disk, r, previous, plan).0, p)
  {
    var back := Exec(io.(failed := false), disk, RollbackOps(previous));
    SparedStays(io.(failed := false), disk, RollbackOps(previous), p);
    SparedStays(back.(failed := false), disk, PlanOps(r, plan.(rolledBack := !back.failed)), p);
  }

  lemma RolledBackInStep(files: Files, disk: Disk, r: Request)
    requires Versioned(ActiveOf(files)) && RolledBack(Render(files, disk, r).1)
    ensures ConfigInStep(Render(files, disk, r).0)
    ensures !Rerenders(ActiveOf(files), r) ==> AllInStep(Render(files, disk, r).0)
  {
    var (ready, seen) := Prepare(files, disk, r);
    SeenActive(files, disk, r);
    var at := AtRollback(ready, disk, r);
    if Exec(ready, disk, ApplyOps(r)).failed {
      UndoInStep(at, disk, r, seen, r.ValidatedPlan());
    } else {
      UndoInStep(at, disk, r, seen, r.AppliedPlan().(apply := TakenBack));
    }
  }

  lemma NotStartedInStep(files: Files, disk: Disk, r: Request)
    requires Versioned(ActiveOf(files)) && Render(files, disk, r).1.NotStarted? && !Rerenders(ActiveOf(files), r)
    ensures var after := Render(files, disk, r).0;
            && SameAt(files, after, LiveConfig) && SameAt(files, after, LivePlan) && SameAt(files, after, LiveActive)
            && (ActiveOf(files).Some? ==>
                  && SameAt(files, after, ActiveOf(files).value.configPath)
                  && SameAt(files, after, ActiveOf(files).value.planPath))
  {
    PreparedSpares(files, disk, r, LiveConfig);
    PreparedSpares(files, disk, r, LivePlan);
    PreparedSpares(files, disk, r, LiveActive);
    if ActiveOf(files).Some? {
      PreparedSpares(files, disk, r, ActiveOf(files).value.configPath);
      PreparedSpares(files, disk, r, ActiveOf(files).value.planPath);
    }
  }

  lemma AppliedInStep(files: Files, disk: Disk, r: Request)
    requires Render(files, disk, r).1 in {Rendered, LeftApplied}
    ensures Serves(Render(files, disk, r).0, r)
  {
    var (ready, seen) := Prepare(files, disk, r);
    PreparedHolds(files, disk, r);
    ApplyServes(ready, disk, r);
    ActivateServes(Exec(ready, disk, ApplyOps(r)), disk, r, seen);
  }

  /**
   A render that does not leave a failed rollback behind, and does not break off while overwriting the active
   version's files.
   */
  predicate Tidy(files: Files, disk: Disk, r: Request) {
    var o := Render(files, disk, r).1;
    && o != ApplyFailed(false) && o != ReloadFailed(false)
    && (o.NotStarted? ==> !Rerenders(ActiveOf(files), r))
  }

  lemma ConfigStaysInStep(files: Files, disk: Disk, r: Request)
    requires Versioned(ActiveOf(files)) && ConfigInStep(files) && Tidy(files, disk, r)
    ensures ConfigInStep(Render(files, disk, r).0)
  {
    var o := Render(files, disk, r).1;
    if RolledBack(o) {
      RolledBackInStep(files, disk, r);
    } else if o.NotStarted? {
      NotStartedInStep(files, disk, r);
    } else {
      AppliedInStep(files, disk, r);
    }
  }

  /** Moreover no plan is left half written: either the render succeeds, or its version is not the active one. */
  predicate Clean(files: Files, disk: Disk, r: Request) {
    Tidy(files, disk, r) && !Render(files, disk, r).1.LeftApplied?
        && (Rerenders(ActiveOf(files), r) ==> Render(files, disk, r).1.Rendered?)
  }

  lemma AllStayInStep(files: Files, disk: Disk, r: Request)
    requires Versioned(ActiveOf(files)) && AllInStep(files) && Clean(files, disk, r)
    ensures AllInStep(Render(files, disk, r).0)
  {
    var o := Render(files, disk, r).1;
    if RolledBack(o) {
      RolledBackInStep(files, disk, r);
    } else if o.NotStarted? {
      NotStartedInStep(files, disk, r);
    } else {
      RenderedMeansServed(files, disk, r);
    }
  }

  // ---------------------------------------------------------------- runs

  datatype Step = Step(r: Request, disk: Disk)

  /** The files after some renders, starting from none. */
  function Run(steps: seq<Step>): Files {
    if steps == [] then map[]
    else
      var last := steps[|steps| - 1];
      Render(Run(steps[..|steps| - 1]), last.disk, last.r).0
  }

  ghost predicate TidyRun(steps: seq<Step>) {
    forall k :: 0 <= k < |steps| ==> Tidy(Run(steps[..k]), steps[k].disk, steps[k].r)
  }

  ghost predicate CleanRun(steps: seq<Step>) {
    forall k :: 0 <= k < |steps| ==> Clean(Run(steps[..k]), steps[k].disk, steps[k].r)
  }

  lemma {:induction false} RecordsStayVersioned(steps: seq<Step>)
    ensures Versioned(ActiveOf(Run(steps)))
  {
    if steps != [] {
      var init, last := steps[..|steps| - 1], steps[|steps| - 1];
      RecordsStayVersioned(init);
      RecordAfterRender(Run(init), last.disk, last.r);
    }
  }

  lemma Prefixes(steps: seq<Step>)
    requires steps != []
    ensures var init := steps[..|steps| - 1];
            && (TidyRun(steps) ==> TidyRun(init) && Tidy(Run(init), steps[|steps| - 1].disk, steps[|steps| - 1].r))
            && (CleanRun(steps) ==> CleanRun(init) && Clean(Run(init), steps[|steps| - 1].disk, steps[|steps| - 1].r))
  {
    var init := steps[..|steps| - 1];
    assert forall k :: 0 <= k < |init| ==> init[..k] == steps[..k] && init[k] == steps[k];
  }

  /** In every tidy run the live config is the config of the version on record. */
  lemma {:induction false} LiveConfigFollowsTheRecord(steps: seq<Step>)
    requires TidyRun(steps)
    ensures ConfigInStep(Run(steps))
  {
    if steps != [] {
      var init, last := steps[..|steps| - 1], steps[|steps| - 1];
      Prefixes(steps);
      LiveConfigFollowsTheRecord(init);
      RecordsStayVersioned(init);
      ConfigStaysInStep(Run(init), last.disk, last.r);
    }
  }

  /** In every clean run live config, plan and record agree, or none exists. */
  lemma {:induction false} LiveFilesAgree(steps: seq<Step>)
    requires CleanRun(steps)
    ensures AllInStep(Run(steps))
  {
    if steps != [] {
      var init, last := steps[..|steps| - 1], steps[|steps| - 1];
      Prefixes(steps);
      LiveFilesAgree(init);
      RecordsStayVersioned(init);
      AllStayInStep(Run(init), last.disk, last.r);
    }
  }

  /**
   A render of another version that does not get through, with the active record readable, leaves every live file
   as it was.
   */
  lemma FailureLeavesNoTrace(steps: seq<Step>, disk: Disk, r: Request)
    requires CleanRun(steps) && !Rerenders(ActiveOf(Run(steps)), r)
    requires var files := Run(steps);
             || Render(files, disk, r).1.NotStarted?
             || (RolledBack(Render(files, disk, r).1) && Prepare(files, disk, r).1 == ActiveOf(files))
    ensures var files, after := Run(steps), Render(Run(steps), disk, r).0;
            SameAt(files, after, LiveConfig) && SameAt(files, after, LivePlan) && SameAt(files, after, LiveActive)
  {
    var files := Run(steps);
    LiveFilesAgree(steps);
    RecordsStayVersioned(steps);
    if Render(files, disk, r).1.NotStarted? {
      NotStartedInStep(files, disk, r);
    } else {
      FreshVersionIsAllOrNothing(files, disk, r);
    }
  }

  // ---------------------------------------------------------------- rolling back in a clean run

  /** The plan of the version on record notes that the version was reloaded. */
  predicate PlanReloaded(f: Files) {
    var a := ActiveOf(f);
    a.Some? ==> a.value.planPath in f && ReloadNoted(f[a.value.planPath])
  }

  predicate ReloadNoted(c: Content) {
    c.PlanDocument? && c.plan.reloaded
  }

  lemma RolledBackKeepsPlan(files: Files, disk: Disk, r: Request)
    requires Versioned(ActiveOf(files)) && RolledBack(Render(files, disk, r).1) && !Rerenders(ActiveOf(files), r)
    requires PlanReloaded(files)
    ensures PlanReloaded(Render(files, disk, r).0)
  {
    var (ready, seen) := Prepare(files, disk, r);
    var at := AtRollback(ready, disk, r);
    SeenActive(files, disk, r);
    ApplyAllRestores(ready, disk, r, seen);
    assert ActiveOf(Render(files, disk, r).0) == seen;
    if seen.Some? {
      OthersStay(files, ready, disk, r, seen.value.planPath);
      if Exec(ready, disk, ApplyOps(r)).failed {
        UndoSpares(at, disk, r, seen, r.ValidatedPlan(), seen.value.planPath);
      } else {
        UndoSpares(at, disk, r, seen, r.AppliedPlan().(apply := TakenBack), seen.value.planPath);
      }
    }
  }

  lemma PlanStaysReloaded(files: Files, disk: Disk, r: Request)
    requires Versioned(ActiveOf(files)) && PlanReloaded(files) && Clean(files, disk, r)
    ensures PlanReloaded(Render(files, disk, r).0)
  {
    var o := Render(files, disk, r).1;
    if RolledBack(o) {
      RolledBackKeepsPlan(files, disk, r);
    } else if o.NotStarted? {
      NotStartedInStep(files, disk, r);
    } else {
      RenderedMeansServed(files, disk, r);
    }
  }

  /** In every clean run the version on record was reloaded, and its plan says so. */
  lemma {:induction false} ActiveVersionWasReloaded(steps: seq<Step>)
    requires CleanRun(steps)
    ensures PlanReloaded(Run(steps))
  {
    if steps != [] {
      var init, last := steps[..|steps| - 1], steps[|steps| - 1];
      Prefixes(steps);
      ActiveVersionWasReloaded(init);
      RecordsStayVersioned(init);
      PlanStaysReloaded(Run(init), last.disk, last.r);
    }
  }

  /**
   After a clean run, a render that fails and rolls back restores what was live before exactly when nothing was,
   or the record could be read and the version to be rendered is not the active one.
   */
  lemma RunRollsBackExactlyWhen(steps: seq<Step>, disk: Disk, r: Request)
    requires CleanRun(steps) && RolledBack(Render(Run(steps), disk, r).1)
    ensures var files := Run(steps);
            var previous := ActiveOf(files);
            RestoredTo(files, Render(files, disk, r).0, previous) <==>
              previous.None? || (Prepare(files, disk, r).1 == previous && !Rerenders(previous, r))
  {
    var files := Run(steps);
    RecordsStayVersioned(steps);
    ActiveVersionWasReloaded(steps);
    RollbackRestoresExactlyWhen(files, disk, r);
    var plan := PlanAtRollback(r, Render(files, disk, r).1);
    RerenderedFilesAreLost(files, r, plan);
  }

  lemma RerenderedFilesAreLost(files: Files, r: Request, plan: Plan)
    requires Versioned(ActiveOf(files)) && PlanReloaded(files) && !plan.reloaded
    ensures FilesSurvive(files, ActiveOf(files), r, plan) <==> !Rerenders(ActiveOf(files), r)
  {
  }

  // ---------------------------------------------------------------- on a disk that never fails

  const HEALTHY: Disk := _ => Done

  /** Steps that a healthy disk carries out: checks hold, and what is copied is there and not removed on the way. */
  predicate Feasible(f: Files, ops: seq<Op>) {
    && (forall k :: 0 <= k < |ops| ==> (ops[k].Copy? ==> ops[k].from in f) && (ops[k].Require? ==> ops[k].holds))
    && ((forall k :: 0 <= k < |ops| ==> !ops[k].Copy?) || (forall k :: 0 <= k < |ops| ==> !ops[k].Remove?))
  }

  lemma {:induction false} HealthyExec(io: Io, ops: seq<Op>)
    requires !io.failed && Feasible(io.files, ops)
    ensures !Exec(io, HEALTHY, ops).failed
    decreases |ops|
  {
    if ops != [] {
      var next := Do(io, HEALTHY, ops[0]);
      assert Feasible(next.files, ops[1..]);
      HealthyExec(next, ops[1..]);
    }
  }

  /** A version that passes its checks reaches the live files; from there the reload alone decides. */
  lemma HealthyUpToReload(files: Files, r: Request)
    requires r.planValid && r.configValid
    ensures var (ready, seen) := Prepare(files, HEALTHY, r);
            var applied := Exec(ready, HEALTHY, ApplyOps(r));
            && seen == ActiveOf(files) && !ready.failed && !applied.failed
            && !Exec(applied, HEALTHY, PlanOps(r, r.AppliedPlan())).failed
  {
    var start := Io(files, 0, false);
    HealthyExec(start, VersionOps(r));
    SparedStays(start, HEALTHY, VersionOps(r), LiveActive);
    var written := Exec(start, HEALTHY, VersionOps(r));
    HealthyExec(written.(asked := written.asked + 1), ValidateOps(r));
    PreparedHolds(files, HEALTHY, r);
    var ready := Prepare(files, HEALTHY, r).0;
    HealthyExec(ready, ApplyOps(r));
    HealthyExec(Exec(ready, HEALTHY, ApplyOps(r)), PlanOps(r, r.AppliedPlan()));
  }

  /** On a healthy disk a render succeeds exactly when plan and config are valid and the reload works. */
  lemma HealthyRendersExactlyWhen(files: Files, r: Request)
    ensures Render(files, HEALTHY, r).1.Rendered? <==> r.planValid && r.configValid && r.reloads
  {
    if Render(files, HEALTHY, r).1.Rendered? {
      RenderedMeansServed(files, HEALTHY, r);
    }
    if r.planValid && r.configValid && r.reloads {
      HealthyUpToReload(files, r);
      var applied := Exec(Prepare(files, HEALTHY, r).0, HEALTHY, ApplyOps(r));
      var noted := Exec(applied, HEALTHY, PlanOps(r, r.AppliedPlan()));
      HealthyExec(noted, ReloadOps(r));
      var reloaded := Exec(noted, HEALTHY, ReloadOps(r));
      HealthyFinish(reloaded, r);
    }
  }

  lemma HealthyFinish(io: Io, r: Request)
    requires !io.failed
    ensures !Exec(io, HEALTHY, FinishOps(r)).failed
  {
    var plans := PlanOps(r, r.ReloadedPlan());
    HealthyExec(io, plans);
    assert [] + plans == plans;
    PlansHold(io, HEALTHY, [], r, r.ReloadedPlan());
    HealthyExec(Exec(io, HEALTHY, plans), [Copy(r.PlanPath(), LivePlan)]);
    ExecAppend(io, HEALTHY, plans, [Copy(r.PlanPath(), LivePlan)]);
  }

  /**
   Rendering the active version again with another config, on a healthy disk, cannot be undone:
   when the reload fails, rolling back succeeds and puts the new config live.
   */
  lemma RerenderCannotBeUndone(files: Files, r: Request)
    requires AllInStep(files) && ActiveOf(files) == Some(r.Record()) && files[r.ConfigPath()] != ConfigText(r.config)
    requires r.planValid && r.configValid && !r.reloads
    ensures Render(files, HEALTHY, r).1 == ReloadFailed(true)
    ensures Holds(Render(files, HEALTHY, r).0, LiveConfig, ConfigText(r.config))
        && !Holds(files, LiveConfig, ConfigText(r.config))
  {
    HealthyUpToReload(files, r);
    var (ready, seen) := Prepare(files, HEALTHY, r);
    var applied := Exec(ready, HEALTHY, ApplyOps(r));
    var noted := Exec(applied, HEALTHY, PlanOps(r, r.AppliedPlan()));
    var check, note := Require(r.reloads), Write(ReloadResult, HookResult("reload"));
    assert ReloadOps(r) == [check] + [note];
    ExecOne(noted, HEALTHY, check, [note]);
    FailureStays(Do(noted, HEALTHY, check), HEALTHY, [note]);
    var at := Exec(noted, HEALTHY, ReloadOps(r));
    assert at.failed && at.files == noted.files;
    PreparedHolds(files, HEALTHY, r);
    AtRollbackSpares(ready, HEALTHY, r, r.ConfigPath());
    assert [] + PlanOps(r, r.AppliedPlan()) == PlanOps(r, r.AppliedPlan());
    PlansHold(applied, HEALTHY, [], r, r.AppliedPlan());
    HealthyExec(at.(failed := false), RollbackOps(seen));
    UndoRestores(at, HEALTHY, r, seen, r.AppliedPlan().(apply := TakenBack));
  }
}
