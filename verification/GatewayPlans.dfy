/** What a gateway render leaves on disk: the plan never claims more than happened, and success leaves every file. */
module GatewayPlans {
  import opened Gateway
  import opened GatewayLaws
  import opened GatewayRuns
  import opened Text

  /** Every step that touches this file writes this content to it. */
  predicate WritesOnly(ops: seq<Op>, p: Path, c: Content) {
    forall k :: 0 <= k < |ops| ==>
      match ops[k] {
        case Write(path, content) => path == p ==> content == c
        case Copy(_, to) => to != p
        case Remove(path) => path != p
        case Require(_) => true
      }
  }

  /** The file holds what it did, or the content that was to be written, whole or torn. */
  predicate StaysOr(f: Files, g: Files, p: Path, c: Content) {
    SameAt(f, g, p) || Holds(g, p, Torn) || Holds(g, p, c)
  }

  lemma {:induction false} ContentAfter(io: Io, disk: Disk, ops: seq<Op>, p: Path, c: Content)
    requires WritesOnly(ops, p, c)
    ensures StaysOr(io.files, Exec(io, disk, ops).files, p, c)
    decreases |ops|
  {
    if ops != [] && !io.failed {
      var next := Do(io, disk, ops[0]);
      assert StaysOr(io.files, next.files, p, c);
      ContentAfter(next, disk, ops[1..], p, c);
    }
  }

  function Document(base: string, validated: bool, apply: ApplyMark, reloaded: bool, rolledBack: bool, observed: string)
    : Content
  {
    PlanDocument(Plan(base, validated, apply, reloaded, rolledBack, observed))
  }

  /**
   What a version's plan may say after a render with this outcome: validated only if it was, applied or taken back
   only if it was, reloaded only if it was, and rolled back exactly as the rollback went. A plan may lag behind if
   writing it failed.
   */
  predicate PlanMaySay(c: Content, r: Request, o: Outcome) {
    match o
    case NotStarted =>
      c == Document(r.base, false, NotApplied, false, false, "")
      || (r.planValid && r.configValid && c == Document(r.base, true, NotApplied, false, false, ""))
    case ApplyFailed(back) =>
      c in {Document(r.base, true, NotApplied, false, false, ""), Document(r.base, true, NotApplied, false, back, "")}
    case ReloadFailed(back) =>
      c in {Document(r.base, true, Applied, false, false, ""), Document(r.base, true, TakenBack, false, back, "")}
    case LeftApplied =>
      || c == Document(r.base, true, NotApplied, false, false, "")
      || c == Document(r.base, true, Applied, false, false, "")
      || (r.reloads && c == Document(r.base, true, Applied, true, false, r.observed))
    case Rendered => c == Document(r.base, true, Applied, true, false, r.observed)
  }

  /** The file is as it was, torn, or says what this outcome allows. */
  predicate Truthful(f: Files, g: Files, r: Request, o: Outcome) {
    || (o.NotStarted? && SameAt(f, g, r.PlanPath()))
    || Holds(g, r.PlanPath(), Torn)
    || (r.PlanPath() in g && PlanMaySay(g[r.PlanPath()], r, o))
  }

  lemma FirstPlanHolds(files: Files, disk: Disk, r: Request)
    ensures var written := Exec(Io(files, 0, false), disk, VersionOps(r));
            && StaysOr(files, written.files, r.PlanPath(), PlanDocument(r.FirstPlan()))
            && (!written.failed ==> Holds(written.files, r.PlanPath(), PlanDocument(r.FirstPlan())))
  {
    var start := Io(files, 0, false);
    ContentAfter(start, disk, VersionOps(r), r.PlanPath(), PlanDocument(r.FirstPlan()));
    if !Exec(start, disk, VersionOps(r)).failed {
      PlansHold(start, disk, VersionOps(r)[..2], r, r.FirstPlan());
      assert VersionOps(r) == VersionOps(r)[..2] + PlanOps(r, r.FirstPlan());
    }
  }

  /** Only a version that passed both checks has its plan marked as validated. */
  lemma {:induction false} ValidatedNeedsChecks(io: Io, disk: Disk, r: Request)
    requires !io.failed && !(r.planValid && r.configValid)
    ensures SameAt(io.files, Exec(io, disk, ValidateOps(r)).files, r.PlanPath())
  {
    var a, c := Require(r.planValid), Require(r.configValid);
    var b := Write(ValidateResult(r.revision, r.version), HookResult("validate"));
    var plans := PlanOps(r, r.ValidatedPlan());
    assert ValidateOps(r) == [a, b, c] + plans == [a] + ([b, c] + plans);
    ExecAppend(io, disk, [a, b, c], plans);
    SparedStays(io, disk, [a, b, c], r.PlanPath());
    assert Exec(io, disk, [a, b, c]).failed by {
      ChecksFail(io, disk, a, b, c);
    }
    FailureStays(Exec(io, disk, [a, b, c]), disk, plans);
  }

  lemma ChecksFail(io: Io, disk: Disk, a: Op, b: Op, c: Op)
    requires !io.failed && a.Require? && c.Require? && !(a.holds && c.holds)
    ensures Exec(io, disk, [a, b, c]).failed
  {
    ExecOne(io, disk, a, [b, c]);
    assert [a] + [b, c] == [a, b, c] && [b] + [c] == [b, c] && [c] + [] == [c];
    var first := Do(io, disk, a);
    if first.failed {
      FailureStays(first, disk, [b, c]);
    } else {
      ExecOne(first, disk, b, [c]);
      var second := Do(first, disk, b);
      if second.failed {
        FailureStays(second, disk, [c]);
      } else {
        ExecOne(second, disk, c, []);
      }
    }
  }

  lemma PreparedTruth(files: Files, disk: Disk, r: Request)
    requires Prepare(files, disk, r).0.failed
    ensures Truthful(files, Prepare(files, disk, r).0.files, r, NotStarted)
  {
    var written := Exec(Io(files, 0, false), disk, VersionOps(r));
    FirstPlanHolds(files, disk, r);
    if !written.failed {
      var again := written.(asked := written.asked + 1);
      ContentAfter(again, disk, ValidateOps(r), r.PlanPath(), PlanDocument(r.ValidatedPlan()));
      if !(r.planValid && r.configValid) {
        ValidatedNeedsChecks(again, disk, r);
      }
    }
  }

  /** Rolling back leaves the plan alone, and notes how it went if that can be written. */
  lemma UndoTruth(io: Io, disk: Disk, r: Request, previous: Option<Activation>, was: Plan, plan: Plan)
    requires Holds(io.files, r.PlanPath(), PlanDocument(was))
    ensures var (after, back) := Undo(io, disk, r, previous, plan);
            && r.PlanPath() in after
            && after[r.PlanPath()] in {PlanDocument(was), Torn, PlanDocument(plan.(rolledBack := back))}
  {
    var p := r.PlanPath();
    var back := Exec(io.(failed := false), disk, RollbackOps(previous));
    SparedStays(io.(failed := false), disk, RollbackOps(previous), p);
    var last := PlanOps(r, plan.(rolledBack := !back.failed));
    ContentAfter(back.(failed := false), disk, last, p, PlanDocument(plan.(rolledBack := !back.failed)));
  }

  /** From a reload that worked, the plan is brought up to date. */
  lemma FinishedTruth(noted: Io, reloaded: Io, disk: Disk, r: Request)
    requires !noted.failed && reloaded == Exec(noted, disk, ReloadOps(r)) && !reloaded.failed
    requires Holds(reloaded.files, r.PlanPath(), PlanDocument(r.AppliedPlan()))
    ensures var done := Exec(reloaded, disk, FinishOps(r));
            Truthful(noted.files, done.files, r, if done.failed then LeftApplied else Rendered)
  {
    ReloadNeeds(noted, disk, r);
    ContentAfter(reloaded, disk, FinishOps(r), r.PlanPath(), PlanDocument(r.ReloadedPlan()));
    if !Exec(reloaded, disk, FinishOps(r)).failed {
      FinishServes(reloaded, disk, r);
    }
  }

  lemma NotedTruth(applied: Io, disk: Disk, r: Request)
    requires !applied.failed && Holds(applied.files, r.PlanPath(), PlanDocument(r.ValidatedPlan()))
    ensures var noted := Exec(applied, disk, PlanOps(r, r.AppliedPlan()));
            && Truthful(applied.files, noted.files, r, LeftApplied)
            && (!noted.failed ==> Holds(noted.files, r.PlanPath(), PlanDocument(r.AppliedPlan())))
  {
    var plans := PlanOps(r, r.AppliedPlan());
    ContentAfter(applied, disk, plans, r.PlanPath(), PlanDocument(r.AppliedPlan()));
    if !Exec(applied, disk, plans).failed {
      assert [] + plans == plans;
      PlansHold(applied, disk, [], r, r.AppliedPlan());
    }
  }

  lemma ActivatedTruth(applied: Io, disk: Disk, r: Request, previous: Option<Activation>)
    requires !applied.failed && Holds(applied.files, r.PlanPath(), PlanDocument(r.ValidatedPlan()))
    ensures var (after, o) := Activate(applied, disk, r, previous); Truthful(applied.files, after, r, o)
  {
    var noted := Exec(applied, disk, PlanOps(r, r.AppliedPlan()));
    NotedTruth(applied, disk, r);
    if !noted.failed {
      var reloaded := Exec(noted, disk, ReloadOps(r));
      SparedStays(noted, disk, ReloadOps(r), r.PlanPath());
      if reloaded.failed {
        UndoTruth(reloaded, disk, r, previous, r.AppliedPlan(), r.AppliedPlan().(apply := TakenBack));
      } else {
        FinishedTruth(noted, reloaded, disk, r);
      }
    }
  }

  /** Whatever fails, a version's plan never says more of what happened to it than did. */
  lemma PlanNeverLies(files: Files, disk: Disk, r: Request)
    ensures var (after, o) := Render(files, disk, r); Truthful(files, after, r, o)
  {
    var (ready, seen) := Prepare(files, disk, r);
    if ready.failed {
      PreparedTruth(files, disk, r);
    } else {
      PreparedHolds(files, disk, r);
      var applied := Exec(ready, disk, ApplyOps(r));
      SparedStays(ready, disk, ApplyOps(r), r.PlanPath());
      if applied.failed {
        UndoTruth(applied, disk, r, seen, r.ValidatedPlan(), r.ValidatedPlan());
      } else {
        ActivatedTruth(applied, disk, r, seen);
      }
    }
  }

  // ---------------------------------------------------------------- what success leaves

  /** The moments of a render that gets through. */
  datatype Course = Course(written: Io, ready: Io, applied: Io, noted: Io, reloaded: Io, done: Io)

  function CourseOf(files: Files, disk: Disk, r: Request): Course {
    var written := Exec(Io(files, 0, false), disk, VersionOps(r));
    var ready := Exec(written.(asked := written.asked + 1), disk, ValidateOps(r));
    var applied := Exec(ready, disk, ApplyOps(r));
    var noted := Exec(applied, disk, PlanOps(r, r.AppliedPlan()));
    var reloaded := Exec(noted, disk, ReloadOps(r));
    Course(written, ready, applied, noted, reloaded, Exec(reloaded, disk, FinishOps(r)))
  }

  /** The course of a render in which every step succeeded. */
  predicate GotThrough(c: Course, files: Files, disk: Disk, r: Request) {
    && c.written == Exec(Io(files, 0, false), disk, VersionOps(r)) && !c.written.failed
    && c.ready == Exec(c.written.(asked := c.written.asked + 1), disk, ValidateOps(r)) && !c.ready.failed
    && c.applied == Exec(c.ready, disk, ApplyOps(r)) && !c.applied.failed
    && c.noted == Exec(c.applied, disk, PlanOps(r, r.AppliedPlan())) && !c.noted.failed
    && c.reloaded == Exec(c.noted, disk, ReloadOps(r)) && !c.reloaded.failed
    && c.done == Exec(c.reloaded, disk, FinishOps(r)) && !c.done.failed
  }

  lemma RenderedCourse(files: Files, disk: Disk, r: Request)
    requires Render(files, disk, r).1.Rendered?
    ensures GotThrough(CourseOf(files, disk, r), files, disk, r)
    ensures Render(files, disk, r).0 == CourseOf(files, disk, r).done.files
  {
  }

  /** A file written once on the way, by the step at this place, holds that content in the end. */
  lemma WrittenBy(io: Io, disk: Disk, ops: seq<Op>, k: nat)
    requires !Exec(io, disk, ops).failed && k < |ops| && ops[k].Write? && Spares(ops[k + 1..], ops[k].path)
    ensures Holds(Exec(io, disk, ops).files, ops[k].path, ops[k].content)
  {
    assert ops == ops[..k] + [ops[k]] + ops[k + 1..];
    LastWriteHolds(io, disk, ops[..k], ops[k], ops[k + 1..], ops[k].path);
  }

  lemma KeptUpTo(io: Io, disk: Disk, a: seq<Op>, b: seq<Op>, p: Path)
    requires Spares(a, p) && Spares(b, p)
    ensures SameAt(io.files, Exec(Exec(io, disk, a), disk, b).files, p)
  {
    SparedStays(io, disk, a, p);
    SparedStays(Exec(io, disk, a), disk, b, p);
  }

  /** From applying on, a file that none of the later steps touches stays as it is. */
  lemma KeptFromReady(c: Course, files: Files, disk: Disk, r: Request, p: Path)
    requires GotThrough(c, files, disk, r)
    requires !p.VersionPlan? && !p.WorkspacePlan? && p !in {LiveConfig, LivePlan, LiveActive, ApplyResult, ReloadResult}
    ensures SameAt(c.ready.files, c.done.files, p)
  {
    KeptUpTo(c.ready, disk, ApplyOps(r), PlanOps(r, r.AppliedPlan()), p);
    KeptUpTo(c.noted, disk, ReloadOps(r), FinishOps(r), p);
  }

  lemma WorkspaceConfigHolds(c: Course, files: Files, disk: Disk, r: Request)
    requires GotThrough(c, files, disk, r)
    ensures Holds(c.done.files, WorkspaceConfig(r.revision), ConfigText(r.config))
  {
    var p := WorkspaceConfig(r.revision);
    WrittenBy(Io(files, 0, false), disk, VersionOps(r), 1);
    SparedStays(c.written.(asked := c.written.asked + 1), disk, ValidateOps(r), p);
    KeptFromReady(c, files, disk, r, p);
  }

  lemma WorkspacePlanHolds(c: Course, files: Files, disk: Disk, r: Request)
    requires GotThrough(c, files, disk, r)
    ensures Holds(c.done.files, WorkspacePlan(r.revision), Document(r.base, true, Applied, true, false, r.observed))
  {
    WrittenBy(c.reloaded, disk, FinishOps(r), 1);
  }

  lemma ValidateResultHolds(c: Course, files: Files, disk: Disk, r: Request)
    requires GotThrough(c, files, disk, r)
    ensures Holds(c.done.files, ValidateResult(r.revision, r.version), HookResult("validate"))
  {
    WrittenBy(c.written.(asked := c.written.asked + 1), disk, ValidateOps(r), 1);
    KeptFromReady(c, files, disk, r, ValidateResult(r.revision, r.version));
  }

  lemma ApplyResultHolds(c: Course, files: Files, disk: Disk, r: Request)
    requires GotThrough(c, files, disk, r)
    ensures Holds(c.done.files, ApplyResult, HookResult("apply"))
  {
    WrittenBy(c.ready, disk, ApplyOps(r), 3);
    KeptUpTo(c.applied, disk, PlanOps(r, r.AppliedPlan()), ReloadOps(r), ApplyResult);
    SparedStays(c.reloaded, disk, FinishOps(r), ApplyResult);
  }

  lemma ReloadResultHolds(c: Course, files: Files, disk: Disk, r: Request)
    requires GotThrough(c, files, disk, r)
    ensures Holds(c.done.files, ReloadResult, HookResult("reload"))
  {
    WrittenBy(c.noted, disk, ReloadOps(r), 1);
    SparedStays(c.reloaded, disk, FinishOps(r), ReloadResult);
  }

  /** The files that a successful render writes. */
  predicate Written(r: Request, p: Path) {
    Own(r, p) || p in {LiveConfig, LivePlan, LiveActive, ApplyResult, ReloadResult}
  }

  lemma OthersUntouched(c: Course, files: Files, disk: Disk, r: Request, p: Path)
    requires GotThrough(c, files, disk, r) && !Written(r, p)
    ensures SameAt(files, c.done.files, p)
  {
    SparedStays(Io(files, 0, false), disk, VersionOps(r), p);
    SparedStays(c.written.(asked := c.written.asked + 1), disk, ValidateOps(r), p);
    KeptUpTo(c.ready, disk, ApplyOps(r), PlanOps(r, r.AppliedPlan()), p);
    KeptUpTo(c.noted, disk, ReloadOps(r), FinishOps(r), p);
  }

  /**
   A successful render leaves config and plan in the version's place, in the workspace and live, the record, and the
   results of its three hooks; it touches nothing else.
   */
  lemma RenderedLeavesEverything(files: Files, disk: Disk, r: Request, p: Path)
    requires Render(files, disk, r).1.Rendered?
    ensures var after, plan := Render(files, disk, r).0, Document(r.base, true, Applied, true, false, r.observed);
            match p {
              case VersionConfig(revision, version) =>
                if revision == r.revision && version == r.version then Holds(after, p, ConfigText(r.config))
                else SameAt(files, after, p)
              case VersionPlan(revision, version) =>
                if revision == r.revision && version == r.version then Holds(after, p, plan)
                else SameAt(files, after, p)
              case ValidateResult(revision, version) =>
                if revision == r.revision && version == r.version then Holds(after, p, HookResult("validate"))
                else SameAt(files, after, p)
              case WorkspaceConfig(revision) =>
                if revision == r.revision then Holds(after, p, ConfigText(r.config)) else SameAt(files, after, p)
              case WorkspacePlan(revision) =>
                if revision == r.revision then Holds(after, p, plan) else SameAt(files, after, p)
              case LiveConfig => Holds(after, p, ConfigText(r.config))
              case LivePlan => Holds(after, p, plan)
              case LiveActive =>
                Holds(after, p, ActiveRecord(Activation(
                                  r.version, VersionConfig(r.revision, r.version), VersionPlan(r.revision, r.version))))
              case ApplyResult => Holds(after, p, HookResult("apply"))
              case ReloadResult => Holds(after, p, HookResult("reload"))
              case RollbackResult => SameAt(files, after, p)
            }
  {
    var c := CourseOf(files, disk, r);
    RenderedCourse(files, disk, r);
    if Written(r, p) {
      RenderedMeansServed(files, disk, r);
      WorkspaceConfigHolds(c, files, disk, r);
      WorkspacePlanHolds(c, files, disk, r);
      ValidateResultHolds(c, files, disk, r);
      ApplyResultHolds(c, files, disk, r);
      ReloadResultHolds(c, files, disk, r);
    } else {
      OthersUntouched(c, files, disk, r, p);
    }
  }

  // ---------------------------------------------------------------- the order of applying

  /** However applying ends, a new record is only there once live config and plan are the version's. */
  lemma RecordComesAfterConfigAndPlan(io: Io, disk: Disk, r: Request, config: Content, plan: Content)
    requires !io.failed && ActiveOf(io.files) != Some(r.Record())
    requires Holds(io.files, r.ConfigPath(), config) && Holds(io.files, r.PlanPath(), plan)
    ensures var after := Exec(io, disk, ApplyOps(r)).files;
            ActiveOf(after) == Some(r.Record()) ==> Holds(after, LiveConfig, config) && Holds(after, LivePlan, plan)
  {
    var copies := [Copy(r.ConfigPath(), LiveConfig), Copy(r.PlanPath(), LivePlan)];
    var rest := [Write(LiveActive, ActiveRecord(r.Record())), Write(ApplyResult, HookResult("apply"))];
    assert ApplyOps(r) == copies + rest;
    ExecAppend(io, disk, copies, rest);
    SparedStays(io, disk, copies, LiveActive);
    var copied := Exec(io, disk, copies);
    SparedStays(copied, disk, rest, LiveConfig);
    SparedStays(copied, disk, rest, LivePlan);
    if copied.failed {
      FailureStays(copied, disk, rest);
    } else {
      CopiesHold(io, disk, copies[0], copies[1], config, plan);
    }
  }

  lemma CopiesHold(io: Io, disk: Disk, first: Op, second: Op, config: Content, plan: Content)
    requires first.Copy? && second.Copy? && first.to == LiveConfig && second.to == LivePlan
    requires second.from != LiveConfig
    requires Holds(io.files, first.from, config) && Holds(io.files, second.from, plan)
    requires !Exec(io, disk, [first, second]).failed
    ensures Holds(Exec(io, disk, [first, second]).files, LiveConfig, config)
    ensures Holds(Exec(io, disk, [first, second]).files, LivePlan, plan)
  {
    assert [first, second] == [] + [first] + [second] == [first] + [second] + [];
    LastWriteHolds(io, disk, [], first, [second], LiveConfig);
    LastWriteHolds(io, disk, [first], second, [], LivePlan);
    SparedStays(io, disk, [first], second.from);
  }

  // ---------------------------------------------------------------- a record that cannot be read

  /** Every operation succeeds but the reading of the active record, which comes after the version's four files. */
  const UNREADABLE: Disk := n => if n == 4 then Refused else Effect.Done

  lemma FourWrites(io: Io, a: Op, b: Op, c: Op, d: Op)
    requires io.asked == 0 && !io.failed && a.Write? && b.Write? && c.Write? && d.Write?
    ensures var after := Exec(io, UNREADABLE, [a, b, c, d]);
            after == Io(io.files[a.path := a.content][b.path := b.content][c.path := c.content][d.path := d.content],
                        4, false)
  {
    ExecOne(io, UNREADABLE, a, [b, c, d]);
    var first := Do(io, UNREADABLE, a);
    ExecOne(first, UNREADABLE, b, [c, d]);
    var second := Do(first, UNREADABLE, b);
    ExecOne(second, UNREADABLE, c, [d]);
    ExecOne(Do(second, UNREADABLE, c), UNREADABLE, d, []);
    assert [a] + [b, c, d] == [a, b, c, d] && [b] + [c, d] == [b, c, d] && [c] + [d] == [c, d] && [d] + [] == [d];
  }

  /** So whatever was active is taken for nothing. */
  lemma UnreadRecordCountsAsNone(files: Files, r: Request)
    ensures Prepare(files, UNREADABLE, r).1 == None
  {
    var ops := VersionOps(r);
    assert ops == [ops[0], ops[1], ops[2], ops[3]];
    FourWrites(Io(files, 0, false), ops[0], ops[1], ops[2], ops[3]);
  }

  /** And a render that fails to reload then takes the live files away, if its rollback gets through. */
  lemma UnreadRecordIsTakenAway(files: Files, r: Request)
    requires RolledBack(Render(files, UNREADABLE, r).1)
    ensures var after := Render(files, UNREADABLE, r).0;
            LiveConfig !in after && LivePlan !in after && LiveActive !in after
  {
    UnreadRecordCountsAsNone(files, r);
    ApplyAllRestores(Prepare(files, UNREADABLE, r).0, UNREADABLE, r, None);
  }

  // ---------------------------------------------------------------- writes that are refused

  /** Every operation is refused, none torn. */
  const REFUSING: Disk := _ => Refused

  lemma {:induction false} RefusedChangesNothing(io: Io, ops: seq<Op>)
    ensures Exec(io, REFUSING, ops).files == io.files
    decreases |ops|
  {
    if ops != [] && !io.failed {
      RefusedChangesNothing(Do(io, REFUSING, ops[0]), ops[1..]);
    }
  }

  /** A disk that refuses every write keeps all its files, and the render does not start. */
  lemma RefusingDiskStaysAsItWas(files: Files, r: Request)
    ensures Render(files, REFUSING, r) == (files, NotStarted)
  {
    var start := Io(files, 0, false);
    RefusedChangesNothing(start, VersionOps(r));
    ExecOne(start, REFUSING, VersionOps(r)[0], VersionOps(r)[1..]);
    assert VersionOps(r) == [VersionOps(r)[0]] + VersionOps(r)[1..];
    FailureStays(Do(start, REFUSING, VersionOps(r)[0]), REFUSING, VersionOps(r)[1..]);
  }
}
