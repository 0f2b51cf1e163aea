/**
 * What a call of `splitExcel` does to the disk: it stops at the first
 * failing call and keeps what was already written; when every directory
 * and file can be created it resolves with one file per (project, batch)
 * group holding exactly that group's rows, touching no other file; and a
 * successful call made again with the same rows changes nothing.
 */
module SplitProperties {
  import opened Wrappers
  import opened JsObject
  import opened Table
  import opened FileSystem
  import opened Grouping
  import opened SplitExcel

  // ---------------------------------------------------------------------
  // Paths.

  /** Distinct groups are written to distinct files. */
  lemma OutPathInjective(outputDir: Path, p1: string, b1: string, p2: string, b2: string)
    ensures OutPath(outputDir, p1, b1) == OutPath(outputDir, p2, b2) <==> p1 == p2 && b1 == b2
  {
    if OutPath(outputDir, p1, b1) == OutPath(outputDir, p2, b2) {
      var n := |outputDir|;
      assert OutPath(outputDir, p1, b1)[n] == p1 && OutPath(outputDir, p2, b2)[n] == p2;
      BatchPathInjective(ProjectDir(outputDir, p1), b1, b2);
    }
  }

  lemma BatchPathInjective(dir: Path, b1: string, b2: string)
    ensures BatchPath(dir, b1) == BatchPath(dir, b2) <==> b1 == b2
  {
    if BatchPath(dir, b1) == BatchPath(dir, b2) {
      var x1, x2 := b1 + ".xlsx", b2 + ".xlsx";
      assert BatchPath(dir, b1)[|dir|] == x1 && BatchPath(dir, b2)[|dir|] == x2;
      assert b1 == x1[..|b1|] && b2 == x2[..|b2|];
    }
  }

  // ---------------------------------------------------------------------
  // Runs of any list of actions.

  /** The rows each path was last written with. */
  function Written(acts: seq<Action>): map<Path, seq<Row>>
  {
    if acts == [] then map[]
    else match acts[|acts| - 1]
      case EnsureDir(_) => Written(acts[..|acts| - 1])
      case WriteBatch(q, rows) => Written(acts[..|acts| - 1])[q := rows]
  }

  lemma {:induction false} WrittenAppend(a: seq<Action>, b: seq<Action>)
    ensures Written(a + b) == Written(a) + Written(b)
  {
    if b == [] {
      assert a + b == a;
    } else {
      var n := |b| - 1;
      assert (a + b)[..|a + b| - 1] == a + b[..n];
      assert (a + b)[|a + b| - 1] == b[n];
      WrittenAppend(a, b[..n]);
    }
  }

  /**
   * A run, whether or not it fails, never removes a directory or a file,
   * never changes which paths fail, and changes or creates only files the
   * actions write.
   */
  lemma {:induction false} RunFrame(d: Disk, acts: seq<Action>)
    ensures var d' := Run(d, acts).0;
      d'.faults == d.faults && d.dirs <= d'.dirs && d.files.Keys <= d'.files.Keys &&
      (forall q :: q in d'.files ==> q in d.files || q in Written(acts)) &&
      (forall q :: q in d.files && q !in Written(acts) ==> d'.files[q] == d.files[q])
  {
    if acts != [] {
      var prefix, last := acts[..|acts| - 1], acts[|acts| - 1];
      RunFrame(d, prefix);
      RunSnoc(d, prefix, last);
      assert prefix + [last] == acts;
    }
  }

  /** After a run that succeeded, every written path holds the table of the rows last written to it. */
  lemma {:induction false} RunWrites(d: Disk, acts: seq<Action>)
    requires Run(d, acts).1 == None
    ensures forall q :: q in Written(acts) ==>
      q in Run(d, acts).0.files && Tabulate(Written(acts)[q]) == Success(Run(d, acts).0.files[q])
  {
    if acts != [] {
      var prefix, last := acts[..|acts| - 1], acts[|acts| - 1];
      RunSnoc(d, prefix, last);
      assert prefix + [last] == acts;
      RunWrites(d, prefix);
    }
  }

  /**
   * A run that fails failed at one action: everything before it succeeded
   * and is kept, and the disk is the one that action saw.
   */
  lemma {:induction false} RunStopsAtFirstFailure(d: Disk, acts: seq<Action>)
    requires Run(d, acts).1.Some?
    ensures exists k :: (0 <= k < |acts| &&
                         Run(d, acts[..k]) == (Run(d, acts).0, None) &&
                         Step(Run(d, acts).0, acts[k]) == Failure(Run(d, acts).1.value))
  {
    var n := |acts| - 1;
    var prefix := acts[..n];
    assert prefix + [acts[n]] == acts;
    RunSnoc(d, prefix, acts[n]);
    if Run(d, prefix).1.Some? {
      RunStopsAtFirstFailure(d, prefix);
      var k :| 0 <= k < |prefix| && Run(d, prefix[..k]) == (Run(d, prefix).0, None) &&
        Step(Run(d, prefix).0, prefix[k]) == Failure(Run(d, prefix).1.value);
      assert prefix[..k] == acts[..k] && prefix[k] == acts[k];
    } else {
      assert Run(d, acts[..n]) == (Run(d, acts).0, None);
    }
  }

  /** Doing the action again on `d` succeeds and changes no directory. */
  ghost predicate Redoable(d: Disk, a: Action)
  {
    match a
    case EnsureDir(x) => d.Exists(x) || (x !in d.faults && Ancestry(x) <= d.dirs)
    case WriteBatch(q, rows) => rows != [] && q !in d.faults && q != [] && q[..|q| - 1] in d.dirs
  }

  /** After a run that succeeded, every one of its actions can be done again. */
  lemma {:induction false} RunLeavesRedoable(d: Disk, acts: seq<Action>)
    requires Run(d, acts).1 == None
    ensures forall k :: 0 <= k < |acts| ==> Redoable(Run(d, acts).0, acts[k])
  {
    if acts != [] {
      var n := |acts| - 1;
      var prefix := acts[..n];
      var mid, d' := Run(d, prefix).0, Run(d, acts).0;
      assert prefix + [acts[n]] == acts;
      RunSnoc(d, prefix, acts[n]);
      RunLeavesRedoable(d, prefix);
      RunFrame(mid, [acts[n]]);
      assert Run(mid, [acts[n]]) == Run(d, acts) by {
        RunSnoc(mid, [], acts[n]);
        assert [] + [acts[n]] == [acts[n]];
      }
      forall k | 0 <= k < |acts| ensures Redoable(d', acts[k]) {
        if k < n {
          assert Redoable(mid, prefix[k]);
        }
      }
    }
  }

  /** Actions that can all be done again succeed, one after the other, and create no directory. */
  lemma {:induction false} RunRedoable(d: Disk, acts: seq<Action>)
    requires forall k :: 0 <= k < |acts| ==> Redoable(d, acts[k])
    ensures Run(d, acts).1 == None && Run(d, acts).0.dirs == d.dirs
  {
    if acts != [] {
      var n := |acts| - 1;
      var prefix := acts[..n];
      assert prefix + [acts[n]] == acts;
      RunSnoc(d, prefix, acts[n]);
      forall k | 0 <= k < n ensures Redoable(d, prefix[k]) {
        assert prefix[k] == acts[k];
      }
      RunRedoable(d, prefix);
      RunFrame(d, prefix);
      assert Redoable(d, acts[n]);
    }
  }

  // ---------------------------------------------------------------------
  // What the plan writes.

  /** The writes for a project's batches put each listed batch's rows in its own file, and write nothing else. */
  lemma {:induction false} BatchPlanWrites(dir: Path, batches: Batches, bs: seq<string>)
    ensures forall b :: b in bs ==>
      BatchPath(dir, b) in Written(BatchPlan(dir, batches, bs)) &&
      Written(BatchPlan(dir, batches, bs))[BatchPath(dir, b)] == Get(batches, b).GetOr([])
    ensures forall q :: q in Written(BatchPlan(dir, batches, bs)) ==> exists b :: b in bs && q == BatchPath(dir, b)
  {
    if bs != [] {
      var n := |bs| - 1;
      var prefix := BatchPlan(dir, batches, bs[..n]);
      var last := BatchPath(dir, bs[n]);
      var w := WriteBatch(last, Get(batches, bs[n]).GetOr([]));
      BatchPlanWrites(dir, batches, bs[..n]);
      assert bs == bs[..n] + [bs[n]];
      assert BatchPlan(dir, batches, bs) == prefix + [w];
      assert (prefix + [w])[..|prefix|] == prefix;
      var written := Written(BatchPlan(dir, batches, bs));
      assert written == Written(prefix)[last := Get(batches, bs[n]).GetOr([])];
      forall b | b in bs
        ensures BatchPath(dir, b) in written && written[BatchPath(dir, b)] == Get(batches, b).GetOr([])
      {
        if b != bs[n] {
          BatchPathInjective(dir, b, bs[n]);
          assert b in bs[..n];
        }
      }
      forall q | q in written ensures exists b :: b in bs && q == BatchPath(dir, b) {
        if q != last {
          var b :| b in bs[..n] && q == BatchPath(dir, b);
          assert b in bs;
        }
      }
    }
  }

  /** The actions of one project write each of its groups to the group's file, and nothing else. */
  lemma ProjectActionsWrite(outputDir: Path, g: Projects, p: string)
    requires WellFormed(g)
    ensures var written := Written(ProjectActions(outputDir, p, Get(g, p).GetOr(Empty())));
      (forall b :: Lookup(g, p, b).Some? ==>
        OutPath(outputDir, p, b) in written && written[OutPath(outputDir, p, b)] == Lookup(g, p, b).value) &&
      (forall q :: q in written ==> exists b :: Lookup(g, p, b).Some? && q == OutPath(outputDir, p, b))
  {
    var batches := Get(g, p).GetOr(Empty());
    var dir := ProjectDir(outputDir, p);
    var ensure := [EnsureDir(dir)];
    var writes := BatchPlan(dir, batches, Keys(batches));
    assert ensure[..0] == [];
    WrittenAppend(ensure, writes);
    var written := Written(ProjectActions(outputDir, p, batches));
    assert written == Written(writes);
    KeysOfObject(batches);
    BatchPlanWrites(dir, batches, Keys(batches));
    forall b | Lookup(g, p, b).Some?
      ensures OutPath(outputDir, p, b) in written && written[OutPath(outputDir, p, b)] == Lookup(g, p, b).value
    {
      assert b in batches.props;
      assert BatchPath(dir, b) == OutPath(outputDir, p, b);
    }
    forall q | q in written ensures exists b :: Lookup(g, p, b).Some? && q == OutPath(outputDir, p, b) {
      var b :| b in Keys(batches) && q == BatchPath(dir, b);
      assert Lookup(g, p, b).Some?;
    }
  }

  /** The plan for the projects `ps` writes each of their groups to the group's file. */
  lemma {:induction false} ProjectPlanWrites(outputDir: Path, g: Projects, ps: seq<string>)
    requires WellFormed(g)
    ensures forall p, b :: p in ps && Lookup(g, p, b).Some? ==>
      OutPath(outputDir, p, b) in Written(ProjectPlan(outputDir, g, ps)) &&
      Written(ProjectPlan(outputDir, g, ps))[OutPath(outputDir, p, b)] == Lookup(g, p, b).value
  {
    if ps != [] {
      var n := |ps| - 1;
      var last := ps[n];
      var before := ProjectPlan(outputDir, g, ps[..n]);
      var actions := ProjectActions(outputDir, last, Get(g, last).GetOr(Empty()));
      ProjectPlanWrites(outputDir, g, ps[..n]);
      ProjectActionsWrite(outputDir, g, last);
      WrittenAppend(before, actions);
      var written := Written(ProjectPlan(outputDir, g, ps));
      assert written == Written(before) + Written(actions);
      forall p, b | p in ps && Lookup(g, p, b).Some?
        ensures OutPath(outputDir, p, b) in written && written[OutPath(outputDir, p, b)] == Lookup(g, p, b).value
      {
        if p != last {
          assert p in ps[..n] by {
            var k :| 0 <= k < |ps| && ps[k] == p;
            assert ps[..n][k] == p;
          }
        }
      }
    }
  }

  /** The plan for the projects `ps` writes no file but those of their groups. */
  lemma {:induction false} ProjectPlanWritesOnly(outputDir: Path, g: Projects, ps: seq<string>)
    requires WellFormed(g)
    ensures forall q :: q in Written(ProjectPlan(outputDir, g, ps)) ==>
      exists p, b :: p in ps && Lookup(g, p, b).Some? && q == OutPath(outputDir, p, b)
  {
    if ps != [] {
      var n := |ps| - 1;
      var last := ps[n];
      var before := ProjectPlan(outputDir, g, ps[..n]);
      var actions := ProjectActions(outputDir, last, Get(g, last).GetOr(Empty()));
      ProjectPlanWritesOnly(outputDir, g, ps[..n]);
      ProjectActionsWrite(outputDir, g, last);
      WrittenAppend(before, actions);
      var written := Written(ProjectPlan(outputDir, g, ps));
      assert written == Written(before) + Written(actions);
      forall q | q in written ensures exists p, b :: p in ps && Lookup(g, p, b).Some? && q == OutPath(outputDir, p, b) {
        if q in Written(actions) {
          var b :| Lookup(g, last, b).Some? && q == OutPath(outputDir, last, b);
          assert last in ps;
        } else {
          var p, b :| p in ps[..n] && Lookup(g, p, b).Some? && q == OutPath(outputDir, p, b);
          assert p in ps;
        }
      }
    }
  }

  // ---------------------------------------------------------------------
  // When the plan succeeds.

  /** `dir` is a directory already, or nothing is in the way of creating it. */
  ghost predicate DirReady(d: Disk, dir: Path)
  {
    dir in d.dirs || (dir !in d.files && dir !in d.faults)
  }

  /**
   * The actions of one project succeed when its directory can be made and
   * none of its files is a failing path: afterwards the directory exists.
   */
  lemma ProjectActionsSucceed(d: Disk, outputDir: Path, p: string, batches: Batches)
    requires batches.Valid() && DirReady(d, ProjectDir(outputDir, p))
    requires forall b :: b in batches.props ==> OutPath(outputDir, p, b) !in d.faults && batches.props[b] != []
    ensures Run(d, ProjectActions(outputDir, p, batches)).1 == None
    ensures ProjectDir(outputDir, p) in Run(d, ProjectActions(outputDir, p, batches)).0.dirs
  {
    var dir := ProjectDir(outputDir, p);
    var ensure := [EnsureDir(dir)];
    var writes := BatchPlan(dir, batches, Keys(batches));
    RunSnoc(d, [], EnsureDir(dir));
    assert [] + ensure == ensure;
    var mid := Run(d, ensure).0;
    assert Run(d, ensure).1 == None && dir in mid.dirs && mid.faults == d.faults;
    RunThen(d, ensure, writes, mid);
    KeysOfObject(batches);
    forall k | 0 <= k < |writes| ensures Redoable(mid, writes[k]) {
      BatchPlanIndex(dir, batches, Keys(batches), k);
      assert Keys(batches)[k] in batches.props;
    }
    RunRedoable(mid, writes);
  }

  /**
   * The plan for the projects `ps` succeeds when each project directory can
   * be made and each group's file is not a failing path; afterwards every
   * project directory exists.
   */
  lemma {:induction false} ProjectPlanSucceeds(d: Disk, outputDir: Path, g: Projects, ps: seq<string>)
    requires WellFormed(g)
    requires forall p :: p in ps ==> DirReady(d, ProjectDir(outputDir, p))
    requires forall p, b :: p in ps && Lookup(g, p, b).Some? ==>
      OutPath(outputDir, p, b) !in d.faults && Lookup(g, p, b).value != []
    ensures Run(d, ProjectPlan(outputDir, g, ps)).1 == None
    ensures forall p :: p in ps ==> ProjectDir(outputDir, p) in Run(d, ProjectPlan(outputDir, g, ps)).0.dirs
  {
    if ps != [] {
      var n := |ps| - 1;
      var last := ps[n];
      assert ps == ps[..n] + [last];
      var before := ProjectPlan(outputDir, g, ps[..n]);
      var batches := Get(g, last).GetOr(Empty());
      var actions := ProjectActions(outputDir, last, batches);
      ProjectPlanSucceeds(d, outputDir, g, ps[..n]);
      var mid := Run(d, before).0;
      RunFrame(d, before);
      ProjectPlanWritesOnly(outputDir, g, ps[..n]);
      assert DirReady(mid, ProjectDir(outputDir, last));
      forall b | b in batches.props ensures OutPath(outputDir, last, b) !in mid.faults && batches.props[b] != [] {
        assert Lookup(g, last, b).Some?;
      }
      ProjectActionsSucceed(mid, outputDir, last, batches);
      RunThen(d, before, actions, mid);
      RunFrame(mid, actions);
    }
  }

  // ---------------------------------------------------------------------
  // The whole call.

  /** Every group's file and its project's directory can be created: nothing in the way, no failing path. */
  ghost predicate Writable(d: Disk, outputDir: Path, data: seq<Row>)
  {
    forall i :: 0 <= i < |data| ==>
      OutPath(outputDir, ProjectKey(data[i]), BatchKey(data[i])) !in d.faults &&
      DirReady(d, ProjectDir(outputDir, ProjectKey(data[i])))
  }

  /** The files a split of `data` writes: one per (project, batch) pair that occurs. */
  function OutPaths(outputDir: Path, data: seq<Row>): (paths: set<Path>)
    ensures forall i :: 0 <= i < |data| ==> OutPath(outputDir, ProjectKey(data[i]), BatchKey(data[i])) in paths
  {
    set i | 0 <= i < |data| :: OutPath(outputDir, ProjectKey(data[i]), BatchKey(data[i]))
  }

  /** The plan writes the file of row i's group with the rows of that group. */
  lemma PlanWritesRow(outputDir: Path, data: seq<Row>, i: nat)
    requires i < |data|
    ensures var p, b := ProjectKey(data[i]), BatchKey(data[i]);
      OutPath(outputDir, p, b) in Written(Plan(outputDir, Grouped(data))) &&
      Written(Plan(outputDir, Grouped(data)))[OutPath(outputDir, p, b)] == Members(data, p, b)
  {
    var g := Grouped(data);
    var p, b := ProjectKey(data[i]), BatchKey(data[i]);
    KeysOfObject(g);
    ProjectPlanWrites(outputDir, g, Keys(g));
    GroupedIsPartition(data);
    RowInItsGroup(data, i);
    assert Lookup(g, p, b) == Some(Members(data, p, b));
  }

  /** The plan writes only files of groups that occur in the input. */
  lemma PlanWritesOnlyGroups(outputDir: Path, data: seq<Row>, q: Path)
    requires q in Written(Plan(outputDir, Grouped(data)))
    ensures q in OutPaths(outputDir, data)
  {
    var g := Grouped(data);
    ProjectPlanWritesOnly(outputDir, g, Keys(g));
    var p, b :| p in Keys(g) && Lookup(g, p, b).Some? && q == OutPath(outputDir, p, b);
    GroupWitness(data, p, b);
  }

  /** The plan writes exactly the files of the groups, each with the rows of its group. */
  lemma PlanWritesGroups(outputDir: Path, data: seq<Row>)
    ensures forall q :: q in Written(Plan(outputDir, Grouped(data))) <==> q in OutPaths(outputDir, data)
    ensures forall i :: 0 <= i < |data| ==>
      var p, b := ProjectKey(data[i]), BatchKey(data[i]);
      OutPath(outputDir, p, b) in Written(Plan(outputDir, Grouped(data))) &&
      Written(Plan(outputDir, Grouped(data)))[OutPath(outputDir, p, b)] == Members(data, p, b)
  {
    var written := Written(Plan(outputDir, Grouped(data)));
    forall i | 0 <= i < |data|
      ensures OutPath(outputDir, ProjectKey(data[i]), BatchKey(data[i])) in written &&
        written[OutPath(outputDir, ProjectKey(data[i]), BatchKey(data[i]))] == Members(data, ProjectKey(data[i]), BatchKey(data[i]))
    {
      PlanWritesRow(outputDir, data, i);
    }
    forall q | q in written ensures q in OutPaths(outputDir, data) {
      PlanWritesOnlyGroups(outputDir, data, q);
    }
  }

  /** What `Writable` says about the rows, said about the groups. */
  lemma WritableGroups(d: Disk, outputDir: Path, data: seq<Row>)
    requires Writable(d, outputDir, data)
    ensures forall p :: p in Keys(Grouped(data)) ==> DirReady(d, ProjectDir(outputDir, p))
    ensures forall p, b :: p in Keys(Grouped(data)) && Lookup(Grouped(data), p, b).Some? ==>
      OutPath(outputDir, p, b) !in d.faults && Lookup(Grouped(data), p, b).value != []
  {
    var g := Grouped(data);
    KeysOfObject(g);
    forall p | p in Keys(g) ensures DirReady(d, ProjectDir(outputDir, p)) {
      ProjectWitness(data, p);
      var b :| Lookup(g, p, b).Some?;
      GroupWitness(data, p, b);
    }
    forall p, b | p in Keys(g) && Lookup(g, p, b).Some?
      ensures OutPath(outputDir, p, b) !in d.faults && Lookup(g, p, b).value != []
    {
      GroupWitness(data, p, b);
    }
  }

  /** Every row's project is one of the projects the plan visits. */
  lemma RowProjectListed(data: seq<Row>, i: nat)
    requires i < |data|
    ensures ProjectKey(data[i]) in Keys(Grouped(data))
  {
    KeysOfObject(Grouped(data));
    GroupedIsPartition(data);
    RowInItsGroup(data, i);
    assert Lookup(Grouped(data), ProjectKey(data[i]), BatchKey(data[i])).Some?;
  }

  /**
   * The checks come first and in order, each rejecting with its own message
   * before anything is written: a call rejected by a check leaves the disk
   * as it was.
   */
  lemma ChecksComeFirst(d: Disk, inputPath: Path, outputDir: Path, read: Result<seq<Row>>)
    ensures !d.Exists(inputPath) ==> Split(d, inputPath, outputDir, read).1 == Rejected(InputMissing)
    ensures d.Exists(inputPath) && !d.Exists(outputDir) ==>
      Split(d, inputPath, outputDir, read).1 == Rejected(OutputDirMissing)
    ensures d.Exists(inputPath) && d.Exists(outputDir) && read == Success([]) ==>
      Split(d, inputPath, outputDir, read).1 == Rejected(EmptyInput)
    ensures (d.Exists(inputPath) && d.Exists(outputDir) && read.Success? && read.value != [] &&
             ("project_code" !in read.value[0].props || "batch_code" !in read.value[0].props)) ==>
      Split(d, inputPath, outputDir, read).1 == Rejected(MissingColumns)
    ensures Split(d, inputPath, outputDir, read).1.Rejected? && !Split(d, inputPath, outputDir, read).1.error.Thrown? ==>
      Split(d, inputPath, outputDir, read).0 == d
  {
  }

  /** The texts the four checks reject with, and a thrown error's own message passed on unchanged. */
  lemma CheckMessages(d: Disk, inputPath: Path, outputDir: Path, read: Result<seq<Row>>)
    ensures !d.Exists(inputPath) ==>
      Message(Split(d, inputPath, outputDir, read).1.error) == "Input file does not exist."
    ensures d.Exists(inputPath) && !d.Exists(outputDir) ==>
      Message(Split(d, inputPath, outputDir, read).1.error) == "Output directory does not exist."
    ensures d.Exists(inputPath) && d.Exists(outputDir) && read == Success([]) ==>
      Message(Split(d, inputPath, outputDir, read).1.error) == "Input Excel file is empty or invalid."
    ensures (d.Exists(inputPath) && d.Exists(outputDir) && read.Success? && read.value != [] &&
             ("project_code" !in read.value[0].props || "batch_code" !in read.value[0].props)) ==>
      Message(Split(d, inputPath, outputDir, read).1.error) ==
        "Input file must contain 'project_code' and 'batch_code' columns."
    ensures read.Failure? && d.Exists(inputPath) && d.Exists(outputDir) ==>
      Split(d, inputPath, outputDir, read).1 == Rejected(Thrown(read.error)) &&
      Message(Split(d, inputPath, outputDir, read).1.error) == read.error
  {
    ChecksComeFirst(d, inputPath, outputDir, read);
  }

  /** Past the checks, the call is the run of the plan. */
  lemma SplitRunsPlan(d: Disk, inputPath: Path, outputDir: Path, data: seq<Row>)
    requires d.Exists(inputPath) && d.Exists(outputDir)
    requires data != [] && "project_code" in data[0].props && "batch_code" in data[0].props
    ensures var r := Run(d, Plan(outputDir, Grouped(data)));
      Split(d, inputPath, outputDir, Success(data)) == (r.0, if r.1.None? then Resolved else Rejected(Thrown(r.1.value)))
  {
  }

  /** When the input is valid and nothing is in the way, the call resolves. */
  lemma SplitResolves(d: Disk, inputPath: Path, outputDir: Path, data: seq<Row>)
    requires d.Exists(inputPath) && d.Exists(outputDir)
    requires data != [] && "project_code" in data[0].props && "batch_code" in data[0].props
    requires Writable(d, outputDir, data)
    ensures Run(d, Plan(outputDir, Grouped(data))).1 == None
    ensures Split(d, inputPath, outputDir, Success(data)) == (Run(d, Plan(outputDir, Grouped(data))).0, Resolved)
    ensures forall i :: 0 <= i < |data| ==>
      ProjectDir(outputDir, ProjectKey(data[i])) in Split(d, inputPath, outputDir, Success(data)).0.dirs
  {
    var g := Grouped(data);
    SplitRunsPlan(d, inputPath, outputDir, data);
    WritableGroups(d, outputDir, data);
    ProjectPlanSucceeds(d, outputDir, g, Keys(g));
    forall i | 0 <= i < |data| ensures ProjectDir(outputDir, ProjectKey(data[i])) in Run(d, Plan(outputDir, g)).0.dirs {
      RowProjectListed(data, i);
    }
  }

  /**
   * When the input is valid and nothing is in the way, the call resolves;
   * afterwards each group's file holds the table of exactly that group's
   * rows, in input order, inside its project's directory.
   */
  lemma SplitWritesEveryGroup(d: Disk, inputPath: Path, outputDir: Path, data: seq<Row>)
    requires d.Exists(inputPath) && d.Exists(outputDir)
    requires data != [] && "project_code" in data[0].props && "batch_code" in data[0].props
    requires Writable(d, outputDir, data)
    ensures Split(d, inputPath, outputDir, Success(data)).1 == Resolved
    ensures var d' := Split(d, inputPath, outputDir, Success(data)).0;
      forall i :: 0 <= i < |data| ==>
        var p, b := ProjectKey(data[i]), BatchKey(data[i]);
        ProjectDir(outputDir, p) in d'.dirs && OutPath(outputDir, p, b) in d'.files &&
        Tabulate(Members(data, p, b)) == Success(d'.files[OutPath(outputDir, p, b)])
  {
    SplitResolves(d, inputPath, outputDir, data);
    RunWritesGroups(d, outputDir, data);
  }

  /** After the plan ran to the end, each group's file holds the table of that group's rows. */
  lemma RunWritesGroups(d: Disk, outputDir: Path, data: seq<Row>)
    requires Run(d, Plan(outputDir, Grouped(data))).1 == None
    ensures var d' := Run(d, Plan(outputDir, Grouped(data))).0;
      forall i :: 0 <= i < |data| ==>
        var p, b := ProjectKey(data[i]), BatchKey(data[i]);
        OutPath(outputDir, p, b) in d'.files && Tabulate(Members(data, p, b)) == Success(d'.files[OutPath(outputDir, p, b)])
  {
    var plan := Plan(outputDir, Grouped(data));
    RunWrites(d, plan);
    forall i | 0 <= i < |data| {
      PlanWritesRow(outputDir, data, i);
    }
  }

  /**
   * When the input is valid and nothing is in the way, the call creates or
   * changes no file but the groups' files, removes no directory or file and
   * changes no failing path.
   */
  lemma SplitTouchesOnlyGroupFiles(d: Disk, inputPath: Path, outputDir: Path, data: seq<Row>)
    requires d.Exists(inputPath) && d.Exists(outputDir)
    requires data != [] && "project_code" in data[0].props && "batch_code" in data[0].props
    requires Writable(d, outputDir, data)
    ensures var d' := Split(d, inputPath, outputDir, Success(data)).0;
      d'.faults == d.faults && d.dirs <= d'.dirs &&
      (forall q :: q in d'.files <==> q in d.files || q in OutPaths(outputDir, data)) &&
      (forall q :: q in d.files && q !in OutPaths(outputDir, data) ==> d'.files[q] == d.files[q])
  {
    var plan := Plan(outputDir, Grouped(data));
    SplitResolves(d, inputPath, outputDir, data);
    RunFrame(d, plan);
    RunWrites(d, plan);
    PlanWritesGroups(outputDir, data);
  }

  /** A run that succeeded, made again from where it ended, succeeds and changes nothing. */
  lemma RunIsIdempotent(d: Disk, acts: seq<Action>)
    requires Run(d, acts).1 == None
    ensures Run(Run(d, acts).0, acts) == (Run(d, acts).0, None)
  {
    var d1 := Run(d, acts).0;
    RunLeavesRedoable(d, acts);
    RunRedoable(d1, acts);
    var d2 := Run(d1, acts).0;
    RunFrame(d1, acts);
    assert d2.files == d1.files by {
      RunFrame(d, acts);
      RunWrites(d, acts);
      RunWrites(d1, acts);
    }
    assert d2 == d1;
  }

  /** A call that resolved, made again with the same rows, resolves and changes nothing. */
  lemma SplitIsIdempotent(d: Disk, inputPath: Path, outputDir: Path, data: seq<Row>, d1: Disk)
    requires Split(d, inputPath, outputDir, Success(data)) == (d1, Resolved)
    ensures Split(d1, inputPath, outputDir, Success(data)) == (d1, Resolved)
  {
    var plan := Plan(outputDir, Grouped(data));
    assert Run(d, plan) == (d1, None);
    RunFrame(d, plan);
    RunIsIdempotent(d, plan);
  }
}
