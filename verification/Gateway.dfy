/** Rendering a gateway version: validate, apply, reload, and roll back when applying or reloading fails. */
module Gateway {
  import opened Text

  /** The files of one binding's gateway. A version's files lie in the workspace of its revision. */
  datatype Path =
    | VersionConfig(revision: string, version: string)
    | VersionPlan(revision: string, version: string)
    | ValidateResult(revision: string, version: string)
    | WorkspaceConfig(revision: string)
    | WorkspacePlan(revision: string)
    | LiveConfig
    | LivePlan
    | LiveActive
    | ApplyResult
    | ReloadResult
    | RollbackResult

  datatype ApplyMark = NotApplied | Applied | TakenBack

  datatype Plan = Plan(
    base: string, validated: bool, apply: ApplyMark, reloaded: bool, rolledBack: bool, observed: string)

  datatype Activation = Activation(version: string, configPath: Path, planPath: Path)

  datatype Content =
    | ConfigText(text: string)
    | PlanDocument(plan: Plan)
    | ActiveRecord(activation: Activation)
    | HookResult(name: string)
    | Torn

  type Files = map<Path, Content>

  /** What a file operation comes to; a torn write destroys the old content without finishing the new one. */
  datatype Effect = Done | Refused | TornWrite

  /** The answers of the file system, in the order in which it is asked. */
  type Disk = nat -> Effect

  /**
   The files, how many operations were asked, and whether one has failed; operations after a failure are not
   reached.
   */
  datatype Io = Io(files: Files, asked: nat, failed: bool)

  /** A step of the program: a write, a copy, a removal (of a file that may be absent), or a check made elsewhere. */
  datatype Op =
    | Write(path: Path, content: Content)
    | Copy(from: Path, to: Path)
    | Remove(path: Path)
    | Require(holds: bool)

  function Put(io: Io, disk: Disk, path: Path, content: Content): Io {
    match disk(io.asked)
    case Done => Io(io.files[path := content], io.asked + 1, false)
    case Refused => Io(io.files, io.asked + 1, true)
    case TornWrite => Io(io.files[path := Torn], io.asked + 1, true)
  }

  function Do(io: Io, disk: Disk, op: Op): Io {
    match op
    case Write(path, content) => Put(io, disk, path, content)
    case Copy(from, to) => if from in io.files then Put(io, disk, to, io.files[from]) else io.(failed := true)
    case Remove(path) =>
      if path !in io.files then io
      else if disk(io.asked) == Done then Io(io.files - {path}, io.asked + 1, false)
      else Io(io.files, io.asked + 1, true)
    case Require(holds) => if holds then io else io.(failed := true)
  }

  /** One step after the other, up to the first that fails. */
  function Exec(io: Io, disk: Disk, ops: seq<Op>): Io
    decreases |ops|
  {
    if ops == [] || io.failed then io else Exec(Do(io, disk, ops[0]), disk, ops[1..])
  }

  /** The activation on record; none if the file is absent or unreadable as one. */
  function ActiveOf(f: Files): Option<Activation> {
    if LiveActive in f && f[LiveActive].ActiveRecord? then Some(f[LiveActive].activation) else None
  }

  /** One render: the version, what it would serve, and the answers of the outside world. */
  datatype Request = Request(
    revision: string,
    version: string,
    config: string,
    base: string,
    planValid: bool,
    configValid: bool,
    reloads: bool,
    observed: string)
  {
    function ConfigPath(): Path { VersionConfig(revision, version) }

    function PlanPath(): Path { VersionPlan(revision, version) }

    function Record(): Activation { Activation(version, ConfigPath(), PlanPath()) }

    function FirstPlan(): Plan { Plan(base, false, NotApplied, false, false, "") }

    function ValidatedPlan(): Plan { Plan(base, true, NotApplied, false, false, "") }

    function AppliedPlan(): Plan { Plan(base, true, Applied, false, false, "") }

    function ReloadedPlan(): Plan { Plan(base, true, Applied, true, false, observed) }
  }

  // ---------------------------------------------------------------- the parts of a render

  function PlanOps(r: Request, plan: Plan): seq<Op> {
    [Write(r.PlanPath(), PlanDocument(plan)), Write(WorkspacePlan(r.revision), PlanDocument(plan))]
  }

  function VersionOps(r: Request): seq<Op> {
    [Write(r.ConfigPath(), ConfigText(r.config)), Write(WorkspaceConfig(r.revision), ConfigText(r.config))]
        + PlanOps(r, r.FirstPlan())
  }

  function ValidateOps(r: Request): seq<Op> {
    [Require(r.planValid), Write(ValidateResult(r.revision, r.version), HookResult("validate")), Require(r.configValid)]
      + PlanOps(r, r.ValidatedPlan())
  }

  function ApplyOps(r: Request): seq<Op> {
    [Copy(r.ConfigPath(), LiveConfig), Copy(r.PlanPath(), LivePlan), Write(LiveActive, ActiveRecord(r.Record())),
     Write(ApplyResult, HookResult("apply"))]
  }

  function ReloadOps(r: Request): seq<Op> {
    [Require(r.reloads), Write(ReloadResult, HookResult("reload"))]
  }

  function FinishOps(r: Request): seq<Op> {
    PlanOps(r, r.ReloadedPlan()) + [Copy(r.PlanPath(), LivePlan)]
  }

  function PutBackOps(previous: Activation): seq<Op> {
    [Copy(previous.configPath, LiveConfig), Copy(previous.planPath, LivePlan),
     Write(LiveActive, ActiveRecord(previous))]
  }

  const TAKE_AWAY_OPS := [Remove(LiveConfig), Remove(LivePlan), Remove(LiveActive)]

  function RollbackOps(previous: Option<Activation>): seq<Op> {
    (if previous.Some? then PutBackOps(previous.value) else TAKE_AWAY_OPS)
        + [Write(RollbackResult, HookResult("rollback"))]
  }

  // ---------------------------------------------------------------- a render

  /** The activation seen before applying; a read that fails is taken for no activation. */
  function PreviousActive(io: Io, disk: Disk): Option<Activation> {
    if disk(io.asked) == Done then ActiveOf(io.files) else None
  }

  datatype Outcome =
    | Rendered
    | NotStarted          // nothing live was touched
    | LeftApplied         // applied, but a later plan could not be written
    | ApplyFailed(rolledBack: bool)
    | ReloadFailed(rolledBack: bool)

  /** Rolls back from a failure, then writes the plans once more, whatever comes of that. */
  function Undo(io: Io, disk: Disk, r: Request, previous: Option<Activation>, plan: Plan): (Files, bool) {
    var back := Exec(io.(failed := false), disk, RollbackOps(previous));
    var last := Exec(back.(failed := false), disk, PlanOps(r, plan.(rolledBack := !back.failed)));
    (last.files, !back.failed)
  }

  /** What follows a successful apply. */
  function Activate(applied: Io, disk: Disk, r: Request, previous: Option<Activation>): (Files, Outcome) {
    var noted := Exec(applied, disk, PlanOps(r, r.AppliedPlan()));
    if noted.failed then (noted.files, LeftApplied)
    else
      var reloaded := Exec(noted, disk, ReloadOps(r));
      if reloaded.failed then
        var (after, rolledBack) := Undo(reloaded, disk, r, previous, r.AppliedPlan().(apply := TakenBack));
        (after, ReloadFailed(rolledBack))
      else
        var done := Exec(reloaded, disk, FinishOps(r));
        (done.files, if done.failed then LeftApplied else Rendered)
  }

  function ApplyAll(ready: Io, disk: Disk, r: Request, previous: Option<Activation>): (Files, Outcome) {
    var applied := Exec(ready, disk, ApplyOps(r));
    if applied.failed then
      var (after, rolledBack) := Undo(applied, disk, r, previous, r.ValidatedPlan());
      (after, ApplyFailed(rolledBack))
    else Activate(applied, disk, r, previous)
  }

  /** The version's own files are written, the previous activation is read, and the plan is validated. */
  function Prepare(files: Files, disk: Disk, r: Request): (Io, Option<Activation>) {
    var written := Exec(Io(files, 0, false), disk, VersionOps(r));
    if written.failed then (written, None)
    else (Exec(written.(asked := written.asked + 1), disk, ValidateOps(r)), PreviousActive(written, disk))
  }

  function Render(files: Files, disk: Disk, r: Request): (Files, Outcome) {
    var (ready, previous) := Prepare(files, disk, r);
    if ready.failed then (ready.files, NotStarted) else ApplyAll(ready, disk, r, previous)
  }
}
