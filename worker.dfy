/**
 * The batch worker: it receives a list of batch tasks, writes one table
 * file per task in list order, posts a `progress` message after each
 * written batch, and ends with one `complete` message, or with one `error`
 * message carrying the message of the first failure, after which no later
 * task is processed. The thread plumbing is outside the model: the tasks
 * are a parameter and the parent port is a log of posted messages.
 */
module Worker {
  import opened Wrappers
  import opened Table
  import opened FileSystem
  import opened SplitExcel

  /** One entry of `workerData.batchTasks`. */
  datatype BatchTask = BatchTask(rows: seq<Row>, sanitizedBatch: string, projectDir: Path)

  /** What the worker posts to its parent. */
  datatype Message =
    | Progress(batch: string)    // { type: "progress", batchComplete: true, batch }
    | Complete                   // { type: "complete", success: true }
    | Error(error: string)       // { type: "error", error: error.message, stack }

  /** The parent port, as the list of messages posted to it so far. */
  class Port {
    var log: seq<Message>

    constructor ()
      ensures log == []
    {
      log := [];
    }

    /** `parentPort.postMessage(m)` */
    method PostMessage(m: Message)
      modifies this
      ensures log == old(log) + [m]
    {
      log := log + [m];
    }
  }

  /** The file a task writes: `path.join(projectDir, `${sanitizedBatch}.xlsx`)`. */
  function TaskPath(t: BatchTask): Path
  {
    BatchPath(t.projectDir, t.sanitizedBatch)
  }

  /** The message of the error a failed write is re-raised as. */
  function WriteFailure(t: BatchTask, cause: string): string
  {
    "Failed to write output file for batch " + t.sanitizedBatch + ": " + cause
  }

  /** `processBatch(t)`: the new disk, or the message of the error it throws. */
  function Process(d: Disk, t: BatchTask): Result<Disk>
  {
    match Tabulate(t.rows)
    case Failure(e) => Failure(e)
    case Success(sheet) =>
      match d.WriteFile(TaskPath(t), sheet)
      case Failure(cause) => Failure(WriteFailure(t, cause))
      case Success(d') => Success(d')
  }

  /**
   * What processing a task does: it writes the table of its rows to its
   * path and changes nothing else; with no rows it throws the TypeError of
   * `Object.keys(undefined)`; a failed write is reported with the batch's
   * name and the cause.
   */
  lemma ProcessWritesTable(d: Disk, t: BatchTask)
    ensures Process(d, t).Success? <==>
      t.rows != [] && TaskPath(t) !in d.faults && t.projectDir in d.dirs
    ensures Process(d, t).Success? ==>
      Process(d, t).value == d.(files := d.files[TaskPath(t) := Tabulate(t.rows).value])
    ensures t.rows == [] ==> Process(d, t) == Failure(NoRowsError)
    ensures t.rows != [] && TaskPath(t) in d.faults ==>
      Process(d, t) == Failure(WriteFailure(t, d.faults[TaskPath(t)]))
    ensures t.rows != [] && TaskPath(t) !in d.faults && t.projectDir !in d.dirs ==>
      Process(d, t) == Failure(WriteFailure(t, NoParentError(TaskPath(t))))
  {
    var p := TaskPath(t);
    assert p[..|p| - 1] == t.projectDir;
  }

  /** worker.js:47-94: build the table of the task's rows and write it. */
  method ProcessBatch(fs: FileSystem, t: BatchTask) returns (err: Option<string>)
    modifies fs
    ensures Process(old(fs.State()), t) == if err.None? then Success(fs.State()) else Failure(err.value)
    ensures err.Some? ==> fs.State() == old(fs.State())
  {
    var outPath := TaskPath(t);
    var sheet := Tabulate(t.rows);
    if sheet.Failure? {
      return Some(sheet.error);
    }
    err := fs.WriteFile(outPath, sheet.value);
    if err.Some? {
      err := Some(WriteFailure(t, err.value));
    }
  }

  /** Where the loop over the tasks stands: the disk, the progress posted, and the failure that ended it. */
  datatype Loop = Loop(disk: Disk, progress: seq<Message>, failure: Option<string>)

  /** One pass of the loop; once an error has been thrown, nothing more happens. */
  function Next(s: Loop, t: BatchTask): Loop
  {
    if s.failure.Some? then s
    else match Process(s.disk, t)
      case Failure(m) => s.(failure := Some(m))
      case Success(d') => Loop(d', s.progress + [Progress(t.sanitizedBatch)], None)
  }

  /** The loop over `tasks`. */
  function Drive(d: Disk, tasks: seq<BatchTask>): Loop
  {
    if tasks == [] then Loop(d, [], None) else Next(Drive(d, tasks[..|tasks| - 1]), tasks[|tasks| - 1])
  }

  /** `processBatches()`: the final disk and everything it posts. */
  function Processed(d: Disk, tasks: seq<BatchTask>): (Disk, seq<Message>)
  {
    var s := Drive(d, tasks);
    (s.disk, s.progress + [if s.failure.None? then Complete else Error(s.failure.value)])
  }

  /** Once the loop has failed, the later tasks change nothing. */
  lemma {:induction false} DriveStopped(d: Disk, tasks: seq<BatchTask>, k: nat)
    requires k <= |tasks| && Drive(d, tasks[..k]).failure.Some?
    ensures Drive(d, tasks) == Drive(d, tasks[..k])
  {
    if k < |tasks| {
      var n := |tasks| - 1;
      assert tasks[..n][..k] == tasks[..k];
      DriveStopped(d, tasks[..n], k);
    } else {
      assert tasks[..k] == tasks;
    }
  }

  /** One pass of the loop where task i succeeds: it is reported and the loop goes on from the new disk. */
  lemma DriveStep(d: Disk, tasks: seq<BatchTask>, i: nat, disk: Disk, progress: seq<Message>, d': Disk)
    requires i < |tasks| && Drive(d, tasks[..i]) == Loop(disk, progress, None)
    requires Process(disk, tasks[i]) == Success(d')
    ensures Drive(d, tasks[..i + 1]) == Loop(d', progress + [Progress(tasks[i].sanitizedBatch)], None)
  {
    assert tasks[..i + 1][..i] == tasks[..i];
  }

  /** One pass of the loop where task i fails: the loop ends there and reports that failure. */
  lemma DriveFails(d: Disk, tasks: seq<BatchTask>, i: nat, disk: Disk, progress: seq<Message>, e: string)
    requires i < |tasks| && Drive(d, tasks[..i]) == Loop(disk, progress, None)
    requires Process(disk, tasks[i]) == Failure(e)
    ensures Drive(d, tasks) == Loop(disk, progress, Some(e))
  {
    assert tasks[..i + 1][..i] == tasks[..i];
    DriveStopped(d, tasks, i + 1);
  }

  /** worker.js:17-26: the `for` loop inside the `try`; returns the error the `catch` receives, if any. */
  method ForEachTask(fs: FileSystem, port: Port, tasks: seq<BatchTask>) returns (failure: Option<string>)
    modifies fs, port
    ensures |old(port.log)| <= |port.log| && port.log[..|old(port.log)|] == old(port.log)
    ensures Drive(old(fs.State()), tasks) == Loop(fs.State(), port.log[|old(port.log)|..], failure)
  {
    ghost var d0 := fs.State();
    ghost var log0 := port.log;
    ghost var progress := [];
    for i := 0 to |tasks|
      invariant Drive(d0, tasks[..i]) == Loop(fs.State(), progress, None)
      invariant port.log == log0 + progress
    {
      ghost var disk := fs.State();
      var err := ProcessBatch(fs, tasks[i]);
      if err.Some? {
        DriveFails(d0, tasks, i, disk, progress, err.value);
        assert port.log[|log0|..] == progress;
        return err;
      }
      DriveStep(d0, tasks, i, disk, progress, fs.State());
      port.PostMessage(Progress(tasks[i].sanitizedBatch));
      progress := progress + [Progress(tasks[i].sanitizedBatch)];
    }
    assert tasks[..|tasks|] == tasks;
    assert port.log[|log0|..] == progress;
    failure := None;
  }

  /** worker.js:15-41: process the tasks in order and report to the parent. */
  method ProcessBatches(fs: FileSystem, port: Port, tasks: seq<BatchTask>)
    modifies fs, port
    ensures fs.State() == Processed(old(fs.State()), tasks).0
    ensures port.log == old(port.log) + Processed(old(fs.State()), tasks).1
  {
    ghost var log0 := port.log;
    var failure := ForEachTask(fs, port, tasks);
    assert log0 + port.log[|log0|..] == port.log;
    if failure.None? {
      port.PostMessage(Complete);
    } else {
      port.PostMessage(Error(failure.value));
    }
  }

  // ---------------------------------------------------------------------
  // The message protocol.

  /** The loop reports exactly the tasks it completed, in order. */
  lemma {:induction false} DriveReports(d: Disk, tasks: seq<BatchTask>)
    ensures var s := Drive(d, tasks);
      |s.progress| <= |tasks| && (s.failure.None? ==> |s.progress| == |tasks|) &&
      (forall k :: 0 <= k < |s.progress| ==> s.progress[k] == Progress(tasks[k].sanitizedBatch))
  {
    if tasks != [] {
      var n := |tasks| - 1;
      DriveReports(d, tasks[..n]);
    }
  }

  /**
   * A failing loop stopped at the task after the last reported one: every
   * earlier task succeeded, that task failed with the posted message, and
   * the disk is the one that task saw.
   */
  lemma {:induction false} DriveFailsAtNext(d: Disk, tasks: seq<BatchTask>)
    requires Drive(d, tasks).failure.Some?
    ensures var s := Drive(d, tasks);
      |s.progress| < |tasks| &&
      Drive(d, tasks[..|s.progress|]) == s.(failure := None) &&
      Process(s.disk, tasks[|s.progress|]) == Failure(s.failure.value)
  {
    var n := |tasks| - 1;
    var s := Drive(d, tasks[..n]);
    DriveReports(d, tasks[..n]);
    if s.failure.Some? {
      DriveFailsAtNext(d, tasks[..n]);
      assert tasks[..n][..|s.progress|] == tasks[..|s.progress|];
    } else {
      assert |s.progress| == n;
    }
  }

  /**
   * What the worker posts: one `progress` message per processed task, in
   * task order, then exactly one final message, which is `complete` exactly
   * when every task was processed.
   */
  lemma WorkerProtocol(d: Disk, tasks: seq<BatchTask>)
    ensures var log := Processed(d, tasks).1;
      var n := |log| - 1;
      1 <= |log| <= |tasks| + 1 &&
      (forall k :: 0 <= k < n ==> log[k] == Progress(tasks[k].sanitizedBatch)) &&
      (log[n] == Complete <==> n == |tasks|)
  {
    DriveReports(d, tasks);
    if Drive(d, tasks).failure.Some? {
      DriveFailsAtNext(d, tasks);
    }
  }

  /**
   * When the final message is not `complete`, it is the error of the task
   * after the last reported one: every earlier task succeeded, that task
   * failed with the posted message on the disk it saw, and nothing was
   * processed after it.
   */
  lemma WorkerReportsFirstFailure(d: Disk, tasks: seq<BatchTask>)
    ensures var (d', log) := Processed(d, tasks);
      var n := |log| - 1;
      log[n] != Complete ==>
        n < |tasks| && log[n].Error? && Drive(d, tasks[..n]) == Loop(d', log[..n], None) &&
        Process(d', tasks[n]) == Failure(log[n].error)
  {
    var s := Drive(d, tasks);
    if s.failure.Some? {
      DriveFailsAtNext(d, tasks);
      assert (s.progress + [Error(s.failure.value)])[..|s.progress|] == s.progress;
    }
  }

  /** The worker ends with `complete` exactly when every task's write succeeded. */
  lemma {:induction false} CompleteIffAllWritten(d: Disk, tasks: seq<BatchTask>)
    ensures Processed(d, tasks).1[|Processed(d, tasks).1| - 1] == Complete <==>
      forall k :: 0 <= k < |tasks| ==> Process(Drive(d, tasks[..k]).disk, tasks[k]).Success?
  {
    DriveReports(d, tasks);
    if Drive(d, tasks).failure.Some? {
      DriveFailsAtNext(d, tasks);
      var n := |Drive(d, tasks).progress|;
      assert Process(Drive(d, tasks[..n]).disk, tasks[n]).Failure?;
    } else {
      forall k | 0 <= k < |tasks| ensures Process(Drive(d, tasks[..k]).disk, tasks[k]).Success? {
        DriveSucceededBefore(d, tasks, k);
      }
    }
  }

  /** When the loop succeeded, every task on the way succeeded. */
  lemma {:induction false} DriveSucceededBefore(d: Disk, tasks: seq<BatchTask>, k: nat)
    requires k < |tasks| && Drive(d, tasks).failure.None?
    ensures Process(Drive(d, tasks[..k]).disk, tasks[k]).Success?
  {
    var n := |tasks| - 1;
    assert tasks[..n + 1] == tasks;
    if k < n {
      assert tasks[..n][..k] == tasks[..k];
      DriveSucceededBefore(d, tasks[..n], k);
    }
  }
}
