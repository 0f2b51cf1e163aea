/**
 * `splitExcel(inputPath, outputDir)`: check that the input and the output
 * directory exist, validate the parsed rows, group them by project and
 * batch code, then create one directory per project and write one table
 * file per (project, batch) group. The spreadsheet codec is outside the
 * model: the rows `sheet_to_json` returns (or the error `readFile` throws)
 * are a parameter.
 */
module SplitExcel {
  import opened Wrappers
  import opened JsObject
  import opened Table
  import opened FileSystem
  import opened Grouping

  datatype SplitError =
    | InputMissing
    | OutputDirMissing
    | EmptyInput
    | MissingColumns
      /** an error thrown by a library call (reading, mkdir, writing) and passed on unchanged */
    | Thrown(cause: string)

  /** The message of the thrown error. */
  function Message(e: SplitError): string
  {
    match e
    case InputMissing => "Input file does not exist."
    case OutputDirMissing => "Output directory does not exist."
    case EmptyInput => "Input Excel file is empty or invalid."
    case MissingColumns => "Input file must contain 'project_code' and 'batch_code' columns."
    case Thrown(cause) => cause
  }

  /** How the returned promise settles. */
  datatype Outcome = Resolved | Rejected(error: SplitError)

  /** One side effect of the fan-out. */
  datatype Action =
    | EnsureDir(dir: Path)                       // if (!fs.existsSync(dir)) fs.mkdirSync(dir, { recursive: true })
    | WriteBatch(path: Path, rows: seq<Row>)     // tabulate the rows and write them to path

  function Step(d: Disk, a: Action): Result<Disk>
  {
    match a
    case EnsureDir(dir) => if d.Exists(dir) then Success(d) else d.MakeDir(dir)
    case WriteBatch(path, rows) =>
      match Tabulate(rows)
      case Failure(e) => Failure(e)
      case Success(sheet) => d.WriteFile(path, sheet)
  }

  /** Performs the actions in order and stops at the first failure; what was done stays done. */
  function Run(d: Disk, acts: seq<Action>): (Disk, Option<string>)
  {
    if acts == [] then (d, None)
    else
      var (d', e) := Run(d, acts[..|acts| - 1]);
      if e.Some? then (d', e)
      else match Step(d', acts[|acts| - 1])
        case Failure(m) => (d', Some(m))
        case Success(d'') => (d'', None)
  }

  /** `path.join(outputDir, project)` */
  function ProjectDir(outputDir: Path, project: string): Path
  {
    outputDir + [project]
  }

  /** `path.join(dir, `${batch}.xlsx`)` */
  function BatchPath(dir: Path, batch: string): Path
  {
    dir + [batch + ".xlsx"]
  }

  /** Where the rows of group (project, batch) are written. */
  function OutPath(outputDir: Path, project: string, batch: string): (p: Path)
    ensures |p| == |outputDir| + 2 && p[..|outputDir|] == outputDir
    ensures p[|outputDir|] == project && p[|outputDir| + 1] == batch + ".xlsx"
  {
    BatchPath(ProjectDir(outputDir, project), batch)
  }

  /** The writes for the batches `bs` of one project, in order. */
  function BatchPlan(dir: Path, batches: Batches, bs: seq<string>): (plan: seq<Action>)
    ensures |plan| == |bs|
  {
    if bs == [] then []
    else
      var b := bs[|bs| - 1];
      BatchPlan(dir, batches, bs[..|bs| - 1]) + [WriteBatch(BatchPath(dir, b), Get(batches, b).GetOr([]))]
  }

  /** The directory of project `p`, then the writes of its batches. */
  function ProjectActions(outputDir: Path, p: string, batches: Batches): seq<Action>
  {
    [EnsureDir(ProjectDir(outputDir, p))] + BatchPlan(ProjectDir(outputDir, p), batches, Keys(batches))
  }

  /** The actions for the projects `ps`, in order. */
  function ProjectPlan(outputDir: Path, g: Projects, ps: seq<string>): seq<Action>
  {
    if ps == [] then []
    else
      var p := ps[|ps| - 1];
      ProjectPlan(outputDir, g, ps[..|ps| - 1]) + ProjectActions(outputDir, p, Get(g, p).GetOr(Empty()))
  }

  /** The nested `for ... of Object.entries(...)` loops as a list of side effects. */
  function Plan(outputDir: Path, g: Projects): seq<Action>
  {
    ProjectPlan(outputDir, g, Keys(g))
  }

  /** The whole call: the new disk and how the promise settles. */
  function Split(d: Disk, inputPath: Path, outputDir: Path, read: Result<seq<Row>>): (Disk, Outcome)
  {
    if !d.Exists(inputPath) then (d, Rejected(InputMissing))
    else if !d.Exists(outputDir) then (d, Rejected(OutputDirMissing))
    else match read
      case Failure(cause) => (d, Rejected(Thrown(cause)))
      case Success(data) =>
        if |data| == 0 then (d, Rejected(EmptyInput))
        else if "project_code" !in data[0].props || "batch_code" !in data[0].props then (d, Rejected(MissingColumns))
        else
          var (d', e) := Run(d, Plan(outputDir, Grouped(data)));
          (d', if e.None? then Resolved else Rejected(Thrown(e.value)))
  }

  // ---------------------------------------------------------------------
  // Plans split at any point.

  lemma {:induction false} RunAppend(d: Disk, a: seq<Action>, b: seq<Action>)
    ensures Run(d, a + b) == if Run(d, a).1.Some? then Run(d, a) else Run(Run(d, a).0, b)
  {
    if b == [] {
      assert a + b == a;
    } else {
      var n := |b| - 1;
      assert (a + b)[..|a + b| - 1] == a + b[..n];
      RunAppend(d, a, b[..n]);
    }
  }

  /** One more project appends that project's actions. */
  lemma ProjectPlanSnoc(outputDir: Path, g: Projects, ps: seq<string>, p: string)
    ensures ProjectPlan(outputDir, g, ps + [p]) ==
      ProjectPlan(outputDir, g, ps) + ProjectActions(outputDir, p, Get(g, p).GetOr(Empty()))
  {
    assert (ps + [p])[..|ps|] == ps;
  }

  /** Running one more action continues from where the run stopped, unless it already failed. */
  lemma RunSnoc(d: Disk, acts: seq<Action>, a: Action)
    ensures Run(d, acts + [a]) ==
      if Run(d, acts).1.Some? then Run(d, acts)
      else match Step(Run(d, acts).0, a)
        case Failure(m) => (Run(d, acts).0, Some(m))
        case Success(d') => (d', None)
  {
    assert (acts + [a])[..|acts + [a]| - 1] == acts;
  }

  /** The plan for `bs` writes batch j as its j-th action. */
  lemma {:induction false} BatchPlanIndex(dir: Path, batches: Batches, bs: seq<string>, j: nat)
    requires j < |bs|
    ensures BatchPlan(dir, batches, bs)[j] == WriteBatch(BatchPath(dir, bs[j]), Get(batches, bs[j]).GetOr([]))
  {
    var n := |bs| - 1;
    if j < n {
      BatchPlanIndex(dir, batches, bs[..n], j);
    } else if n > 0 {
      BatchPlanIndex(dir, batches, bs[..n], 0);
    }
  }

  /** The plan for a prefix of `ps` is a prefix of the plan for `ps`. */
  lemma {:induction false} ProjectPlanPrefix(outputDir: Path, g: Projects, ps: seq<string>, k: nat)
    requires k <= |ps|
    ensures ProjectPlan(outputDir, g, ps[..k]) <= ProjectPlan(outputDir, g, ps)
  {
    if k < |ps| {
      var n := |ps| - 1;
      assert ps[..n][..k] == ps[..k];
      ProjectPlanPrefix(outputDir, g, ps[..n], k);
    } else {
      assert ps[..k] == ps;
    }
  }

  /** Once the run of the plan for a prefix of `ps` has failed, the later projects change nothing. */
  lemma ProjectPlanStopped(d: Disk, outputDir: Path, g: Projects, ps: seq<string>, k: nat)
    requires k <= |ps| && Run(d, ProjectPlan(outputDir, g, ps[..k])).1.Some?
    ensures Run(d, ProjectPlan(outputDir, g, ps)) == Run(d, ProjectPlan(outputDir, g, ps[..k]))
  {
    var a, b := ProjectPlan(outputDir, g, ps[..k]), ProjectPlan(outputDir, g, ps);
    ProjectPlanPrefix(outputDir, g, ps, k);
    assert b == a + b[|a|..];
    RunStopped(d, a, b[|a|..]);
  }

  /** After a run of `a` that succeeded, running `a + b` is running `b` from there. */
  lemma RunThen(d: Disk, a: seq<Action>, b: seq<Action>, mid: Disk)
    requires Run(d, a) == (mid, None)
    ensures Run(d, a + b) == Run(mid, b)
  {
    RunAppend(d, a, b);
  }

  /** After a run of `a` that failed, nothing of `b` runs. */
  lemma RunStopped(d: Disk, a: seq<Action>, b: seq<Action>)
    requires Run(d, a).1.Some?
    ensures Run(d, a + b) == Run(d, a)
  {
    RunAppend(d, a, b);
  }

  /** One pass of the batch loop: the run continues with batch j's write, or ends with its failure. */
  lemma BatchStep(d0: Disk, dir: Path, batches: Batches, bs: seq<string>, j: nat, st: Disk)
    requires j < |bs|
    requires Run(d0, BatchPlan(dir, batches, bs)[..j]) == (st, None)
    ensures var plan := BatchPlan(dir, batches, bs);
      var r := Step(st, WriteBatch(BatchPath(dir, bs[j]), Get(batches, bs[j]).GetOr([])));
      (r.Success? ==> Run(d0, plan[..j + 1]) == (r.value, None)) &&
      (r.Failure? ==> Run(d0, plan) == (st, Some(r.error)))
  {
    BatchPlanIndex(dir, batches, bs, j);
    RunAt(d0, BatchPlan(dir, batches, bs), j, st);
  }

  /** Action j of a plan whose first j actions succeeded either extends the run or ends the whole plan. */
  lemma RunAt(d0: Disk, plan: seq<Action>, j: nat, st: Disk)
    requires j < |plan|
    requires Run(d0, plan[..j]) == (st, None)
    ensures var r := Step(st, plan[j]);
      (r.Success? ==> Run(d0, plan[..j + 1]) == (r.value, None)) &&
      (r.Failure? ==> Run(d0, plan) == (st, Some(r.error)))
  {
    assert plan[..j + 1] == plan[..j] + [plan[j]];
    RunSnoc(d0, plan[..j], plan[j]);
    if Step(st, plan[j]).Failure? {
      assert plan == plan[..j + 1] + plan[j + 1..];
      RunStopped(d0, plan[..j + 1], plan[j + 1..]);
    }
  }

  /** One pass of the project loop: the run continues with project i's actions, or ends with their failure. */
  lemma ProjectStep(d0: Disk, outputDir: Path, g: Projects, ps: seq<string>, i: nat, mid: Disk, after: Disk, err: Option<string>)
    requires i < |ps|
    requires Run(d0, ProjectPlan(outputDir, g, ps[..i])) == (mid, None)
    requires Run(mid, ProjectActions(outputDir, ps[i], Get(g, ps[i]).GetOr(Empty()))) == (after, err)
    ensures err.None? ==> Run(d0, ProjectPlan(outputDir, g, ps[..i + 1])) == (after, None)
    ensures err.Some? ==> Run(d0, ProjectPlan(outputDir, g, ps)) == (after, err)
  {
    assert ps[..i + 1] == ps[..i] + [ps[i]];
    ProjectPlanSnoc(outputDir, g, ps[..i], ps[i]);
    RunThen(d0, ProjectPlan(outputDir, g, ps[..i]), ProjectActions(outputDir, ps[i], Get(g, ps[i]).GetOr(Empty())), mid);
    if err.Some? {
      ProjectPlanStopped(d0, outputDir, g, ps, i + 1);
    }
  }

  // ---------------------------------------------------------------------
  // The imperative model.

  /** splitExcel.js:13-89. The disk is `fs`; the codec's result is `read`. */
  method SplitExcel(fs: FileSystem, inputPath: Path, outputDir: Path, read: Result<seq<Row>>)
    returns (outcome: Outcome)
    modifies fs
    ensures (fs.State(), outcome) == Split(old(fs.State()), inputPath, outputDir, read)
  {
    var present := fs.Exists(inputPath);
    if !present {
      return Rejected(InputMissing);
    }
    present := fs.Exists(outputDir);
    if !present {
      return Rejected(OutputDirMissing);
    }
    if read.Failure? {
      return Rejected(Thrown(read.error));
    }
    var data := read.value;
    if |data| == 0 {
      return Rejected(EmptyInput);
    }
    if "project_code" !in data[0].props || "batch_code" !in data[0].props {
      return Rejected(MissingColumns);
    }
    var projects := GroupRows(data);
    var err := WriteProjects(fs, outputDir, projects);
    outcome := if err.None? then Resolved else Rejected(Thrown(err.value));
  }

  /** splitExcel.js:46-88: for each project, in `Object.entries` order, its directory and batch files. */
  method WriteProjects(fs: FileSystem, outputDir: Path, projects: Projects) returns (err: Option<string>)
    requires WellFormed(projects)
    modifies fs
    ensures (fs.State(), err) == Run(old(fs.State()), Plan(outputDir, projects))
  {
    ghost var d0 := fs.State();
    var entries := Keys(projects);
    for i := 0 to |entries|
      invariant Run(d0, ProjectPlan(outputDir, projects, entries[..i])) == (fs.State(), None)
    {
      ghost var mid := fs.State();
      var project := entries[i];
      var batches := Get(projects, project).GetOr(Empty());
      err := WriteProject(fs, outputDir, project, batches);
      ProjectStep(d0, outputDir, projects, entries, i, mid, fs.State(), err);
      if err.Some? {
        return;
      }
    }
    assert entries[..|entries|] == entries;
    err := None;
  }

  /** splitExcel.js:47-87: create the project's directory when absent, then write its batches. */
  method WriteProject(fs: FileSystem, outputDir: Path, project: string, batches: Batches)
    returns (err: Option<string>)
    requires batches.Valid()
    modifies fs
    ensures (fs.State(), err) ==
      Run(old(fs.State()), ProjectActions(outputDir, project, batches))
  {
    ghost var d0 := fs.State();
    var projectDir := ProjectDir(outputDir, project);
    ghost var ensure := [EnsureDir(projectDir)];
    RunSnoc(d0, [], EnsureDir(projectDir));
    assert [] + ensure == ensure;
    var present := fs.Exists(projectDir);
    if !present {
      err := fs.MakeDir(projectDir);
      if err.Some? {
        RunStopped(d0, ensure, BatchPlan(projectDir, batches, Keys(batches)));
        return;
      }
    }
    ghost var mid := fs.State();
    err := WriteBatches(fs, projectDir, batches);
    RunThen(d0, ensure, BatchPlan(projectDir, batches, Keys(batches)), mid);
  }

  /** splitExcel.js:51-87: one table file per batch of a project. */
  method WriteBatches(fs: FileSystem, projectDir: Path, batches: Batches) returns (err: Option<string>)
    requires batches.Valid()
    modifies fs
    ensures (fs.State(), err) == Run(old(fs.State()), BatchPlan(projectDir, batches, Keys(batches)))
  {
    ghost var d0 := fs.State();
    var names := Keys(batches);
    ghost var plan := BatchPlan(projectDir, batches, names);
    for j := 0 to |names|
      invariant Run(d0, plan[..j]) == (fs.State(), None)
    {
      var batch := names[j];
      var rows := Get(batches, batch).GetOr([]);
      var outPath := BatchPath(projectDir, batch);
      BatchStep(d0, projectDir, batches, names, j, fs.State());
      var sheet := Tabulate(rows);
      if sheet.Failure? {
        return Some(sheet.error);
      }
      err := fs.WriteFile(outPath, sheet.value);
      if err.Some? {
        return;
      }
    }
    assert plan[..|names|] == plan;
    err := None;
  }
}
