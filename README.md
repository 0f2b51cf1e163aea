# Excel splitter: the split pipeline and the batch worker

This project models, in Dafny, the two parts of the Excel splitter that do the real work:

- `splitExcel(inputPath, outputDir)` (splitExcel.js). It checks that the input file and the output directory exist. It then checks that the parsed rows are not empty and that the first row has both a `project_code` and a `batch_code` column. Next it groups the rows into a plain JavaScript object, first by project code and then by batch code. Finally it creates one directory per project and writes one table file per (project, batch) group.
- The batch worker (worker.js). `processBatch` writes one table file for one batch task. `processBatches` processes the tasks in order, posts a `progress` message after each one, and ends with a single `complete` message. At the first failure it posts a single `error` message instead.

The model is split into these modules:

- `Wrappers`: `Option` and `Result`.
- `JsValues`: cell values and `String(v)`, the conversion that turns a code into a property name and into a path segment.
- `JsObject`: plain objects used as dictionaries. The model keeps the creation order of their properties and the order in which `Object.keys`/`Object.entries` list them: array-index keys first, ascending by value, then the other keys in creation order.
- `Table`: the table an output file holds. Its headers are `Object.keys(rows[0])`. Each row's cells are that row's values under those headers.
- `FileSystem`: the disk. `Disk` is the state as a value. `FileSystem` is a class whose fields `mkdirSync` and `writeFile` update in place.
- `Grouping`: the grouping loop (`GroupRows`) and its specification (`Grouped`).
- `SplitExcel`: the early checks, the fan-out as a list of actions (`Plan`) with its run (`Run`), and the imperative methods.
- `SplitProperties`: what a call does to the disk.
- `Worker`: the worker loop, the message log and the protocol.
- `Findings`: the grouping loop as written, for the inputs it covers. It loses rows whose project code names a method every object inherits, and a batch code naming an inherited value makes its first pass throw.

The code is followed where other descriptions of this system differ from it:

- **Header-only sheets throw.** A sheet with headers but no data rows is rejected with "Input Excel file is empty or invalid." (splitExcel.js:26-28). It is not treated as a successful split that writes nothing.
- **`splitExcel` sanitizes no names.** The project directory is `String(project)` and the file is `${batch}.xlsx`. A project "P 300" therefore gets a directory named "P 300".
- **Number and text codes share a group.** The grouping object's keys are property names, so the number 999 and the text "999" are the same group (`JsValues.NumberAndTextCollide`).
- **A missing code becomes "undefined".** A row without a code column is grouped under the key "undefined".
- **Projects are not visited in first-seen order.** They are visited in `Object.entries` order. Project keys that are array indices (the numerals of the integers 0 to 2^32 - 2, whether the cell held the number or its text) come first, in ascending numeric order. All other keys follow in creation order, including "-5", "4294967295" and "007" (`JsObject.NumericProjectComesFirst`).
- **A worker task with no rows is an error, not a precondition.** `Object.keys(rows[0])` throws a TypeError. The worker's `try`/`catch` catches it and posts it as the `error` message. The model includes that path.

Outside the model, the split's input and effects are represented as follows:

- The spreadsheet codec is a parameter. `read` is either the rows `sheet_to_json` returns or the error `readFile` throws.
- Failing file-system calls come from a `faults` map on the disk. It lists the paths where `mkdirSync` or `writeFile` fails, together with the message of the error raised there.

## Model

| member | source | states |
|---|---|---|
| JsValues.NatString | splitExcel.js:47 | the decimal numeral of a number is non-empty and all digits, starts with '0' only for 0, and has one digit exactly for numbers below 10 |
| JsValues.NatStringRoundTrip | splitExcel.js:38-40 | reading the numeral of n back as a decimal number gives n |
| JsValues.NatStringInjective | splitExcel.js:38-40 | distinct naturals have distinct numerals |
| JsValues.IntStringSign | splitExcel.js:38-40 | `String(n)` starts with '-' exactly when n is negative, followed by the numeral of -n |
| JsValues.IntStringInjective | splitExcel.js:38-40 | distinct integer codes become distinct property keys |
| JsValues.NumberAndTextCollide | splitExcel.js:38-40 | the number 999 and the text "999" become the same key, so they share one group |
| JsValues.IntString | splitExcel.js:38-40 | `String(n)` for an integer cell: a minus sign for negative n, then the decimal numeral of its magnitude (properties in IntStringSign and IntStringInjective) |
| JsValues.ToKey | splitExcel.js:38-40 | the property name a cell value becomes: the text itself, the numeral of a number, or "undefined" for a missing cell |
| JsObject.Empty | splitExcel.js:36 | `{}` is a well-formed object with no property |
| JsObject.Put | splitExcel.js:40-42 | `o[k] = v` keeps the object well-formed; afterwards `o[k]` is v and every other property reads as before |
| JsObject.Get | splitExcel.js:38-42 | `o[k]` reads an own property and gives `undefined` (None) for any other name; `Put` states how a write changes what it reads |
| JsObject.InsertMultiset | splitExcel.js:46 | placing a key in the sorted index keys adds exactly that key |
| JsObject.InsertBound | splitExcel.js:46 | placing a key keeps every lower bound shared by the key and the list |
| JsObject.InsertAscending | splitExcel.js:46 | placing a key in an ascending list of index keys keeps it ascending |
| JsObject.SortByIndexAscending | splitExcel.js:46 | the array-index keys are enumerated in ascending numeric order |
| JsObject.SortByIndexMultiset | splitExcel.js:46 | sorting the index keys is a permutation of them |
| JsObject.SplitKeysMultiset | splitExcel.js:46 | index keys and other keys together are exactly the created keys |
| JsObject.IndexKeysAreIndices | splitExcel.js:46 | the first part of the enumeration holds only array-index keys |
| JsObject.OtherKeysAreNotIndices | splitExcel.js:46 | the second part holds only keys that are not array indices |
| JsObject.DistinctByMultiset | splitExcel.js:46 | a key list has no repetition exactly when no key occurs twice in its multiset |
| JsObject.OwnKeysMultiset | splitExcel.js:57 | `Object.keys` is a permutation of the creation order |
| JsObject.OwnKeysOrder | splitExcel.js:46 | `Object.entries` lists the array-index keys first in ascending numeric order, then the other keys in creation order |
| JsObject.KeysOfObject | splitExcel.js:51 | `Object.entries` of a well-formed object lists each own property exactly once and nothing else |
| JsObject.NumeralIsArrayIndex | splitExcel.js:46 | the numeral of a number below 2^32 - 1 is an array-index key whose value is that number |
| JsObject.NumericProjectComesFirst | create_fixture.js:28-37 | the fixture's projects, created as P100, P200, 999, "P 300", are visited as 999, P100, P200, "P 300" |
| JsObject.OwnKeys | splitExcel.js:46 | the enumeration order of an object created in a given order: sorted index keys, then the other keys (properties in OwnKeysOrder and OwnKeysMultiset) |
| JsObject.Keys | splitExcel.js:57 | `Object.keys`/`Object.entries` of an object is the enumeration order of its creation order (properties in KeysOfObject) |
| Table.Headers | splitExcel.js:57 | the headers are the keys of the first row; with no rows the call fails with the TypeError of `Object.keys(undefined)` |
| Table.CellsOf | splitExcel.js:83 | a table row has one cell per header |
| Table.Project | splitExcel.js:83 | the matrix has one row per input row, each as wide as the header list |
| Table.Tabulate | splitExcel.js:57-84 | the table exists exactly when there are rows, and then has one data row per input row |
| Table.ReassembleDomain | splitExcel.js:83 | an object rebuilt from a table row has no field outside the headers |
| Table.ReassembleAt | splitExcel.js:83 | with distinct headers, header j of a rebuilt object is present exactly when cell j is not empty, and then holds cell j |
| Table.ReassembleCells | splitExcel.js:83 | rebuilding a row from its cells gives back exactly its fields that are headers |
| Table.TableKeepsFirstRowColumns | splitExcel.js:57-84 | the headers are `Object.keys(rows[0])`, and each row comes back with exactly its fields that the first row also has |
| Table.TableCells | splitExcel.js:83 | cell j of row i is `rows[i][headers[j]]`, and empty exactly when the row lacks that field |
| FileSystem.Ancestry | splitExcel.js:49 | a recursive mkdir creates the directory itself |
| FileSystem.Disk.MakeDir | splitExcel.js:49 | `mkdirSync(p, {recursive: true})` fails only at a failing path, with that path's error; otherwise it adds p and its ancestors and changes nothing else |
| FileSystem.Disk.WriteFile | splitExcel.js:86 | a write succeeds exactly when the path is not failing and its directory exists; it then stores the table at that path and changes nothing else; otherwise it reports the path's error or ENOENT |
| FileSystem.NoParentError | splitExcel.js:86 | the ENOENT message a write reports when the file's directory is missing, naming the path (the error `Disk.WriteFile` returns) |
| FileSystem.FileSystem.Exists | splitExcel.js:14 | `existsSync` is true exactly for an existing directory or file |
| FileSystem.FileSystem.MakeDir | splitExcel.js:49 | the in-place mkdir has the effect of `Disk.MakeDir`, and a failed call changes nothing |
| FileSystem.FileSystem.WriteFile | splitExcel.js:86 | the in-place write has the effect of `Disk.WriteFile`, and a failed call changes nothing |
| Grouping.AddRow | splitExcel.js:37-42 | one pass of the grouping loop keeps the two-level dictionary well-formed |
| Grouping.ProjectKey | splitExcel.js:38 | the property name `projects[row.project_code]` looks up |
| Grouping.BatchKey | splitExcel.js:39 | the property name `projects[project][row.batch_code]` looks up |
| Grouping.AddTo | splitExcel.js:40-42 | creating the project and batch entries when missing and pushing the row keeps the dictionary well-formed |
| Grouping.AddToHit | splitExcel.js:40-42 | the row is appended to its own group, which is created empty first when missing |
| Grouping.AddToMiss | splitExcel.js:40-42 | no other group changes |
| Grouping.AddToProjects | splitExcel.js:40 | the row's project is added to the projects, and no other |
| Grouping.Grouped | splitExcel.js:36-43 | the grouping after any prefix of the input is a well-formed two-level dictionary |
| Grouping.GroupRows | splitExcel.js:36-43 | the loop builds exactly the specified grouping |
| Grouping.FirstRow | splitExcel.js:37-39 | the index of the first row carrying a project code, or the number of rows when none does: that row has the code and no earlier row has it |
| Grouping.ProjectsAreFirstRows | splitExcel.js:36-43 | the dictionary holds a project exactly when some row carries its code |
| Grouping.GroupedOrderSnoc | splitExcel.js:40 | a row with a new project code creates it last; a row with a known code leaves the creation order unchanged |
| Grouping.FirstSeen | splitExcel.js:36-40 | the project codes listed once each, in the order they first appear |
| Grouping.GroupedOrderIsFirstSeen | splitExcel.js:36-43 | the loop creates the projects in the order their codes first appear |
| Grouping.FirstSeenInOrder | splitExcel.js:36-40 | every listed code occurs in some row, and a code listed earlier first occurs in an earlier row |
| Grouping.ProjectsInFirstRowOrder | splitExcel.js:36-46 | `Object.entries(projects)` starts from a creation order in which a project created earlier first occurs in an earlier row |
| Grouping.GroupedIsPartition | splitExcel.js:36-43 | group (p, b) exists exactly when some row has keys (p, b), and then holds exactly those rows, in input order, duplicates kept |
| Grouping.ProjectsAreNonEmpty | splitExcel.js:40-42 | every project dictionary created holds at least one batch |
| Grouping.MembersHaveTheirKeys | splitExcel.js:37-42 | every member of group (p, b) is an input row with keys (p, b) |
| Grouping.RowInItsGroup | splitExcel.js:37-42 | every row is in the group named by its own keys |
| Grouping.GroupWitness | splitExcel.js:40-42 | an existing group is non-empty, and some input row carries its keys |
| Grouping.ProjectWitness | splitExcel.js:40-42 | every project dictionary holds some group |
| Grouping.ProjectHasRow | splitExcel.js:40 | a project exists only for a project key some input row carries |
| Grouping.MembersKeepInputOrder | splitExcel.js:42 | later rows only extend a group: the group of an input prefix is a prefix of the group |
| Grouping.SumOverUnlisted | splitExcel.js:36-43 | changing a key outside the list leaves a size sum unchanged |
| Grouping.SumOverUpdate | splitExcel.js:36-43 | replacing a listed value changes the size sum by the change in its size |
| Grouping.PutSum | splitExcel.js:40-42 | an assignment changes an object's size sum by the change in the assigned value's size |
| Grouping.AddRowCountsOne | splitExcel.js:37-42 | one pass adds exactly one row to the groups |
| Grouping.AddToCountsOne | splitExcel.js:40-42 | pushing a row into a group adds exactly one row in total |
| Grouping.GroupingConservesRows | splitExcel.js:36-43 | no row is lost or duplicated: the group sizes add up to the number of input rows |
| SplitExcel.BatchPlan | splitExcel.js:51-87 | a project's batch loop performs one write per batch |
| SplitExcel.Step | splitExcel.js:47-86 | one side effect: an existing directory is left alone and a missing one made; a write tabulates its rows and writes the file (properties in RunFrame and RunWrites) |
| SplitExcel.Message | splitExcel.js:14-33 | the error text for each rejection; `SplitProperties.CheckMessages` states the four check texts |
| SplitExcel.ProjectDir | splitExcel.js:47 | `path.join(outputDir, String(project))` as path segments: the output directory followed by the project key |
| SplitExcel.BatchPath | splitExcel.js:52 | `path.join(projectDir, batch + ".xlsx")` as path segments: the project directory followed by the batch key with ".xlsx" |
| SplitExcel.OutPath | splitExcel.js:47-52 | a group's file is two segments below the output directory: the project key, then the batch key with ".xlsx" |
| SplitExcel.Run | splitExcel.js:46-88 | the actions in order, stopping at the first thrown error and keeping what was done (properties in RunStopsAtFirstFailure and RunFrame) |
| SplitExcel.ProjectActions | splitExcel.js:47-87 | one project's side effects: its directory, then one write per batch in `Object.entries` order |
| SplitExcel.ProjectPlan | splitExcel.js:46-88 | the side effects of the listed projects, in order |
| SplitExcel.Plan | splitExcel.js:46-88 | the side effects of the whole fan-out, projects in `Object.entries` order (properties in PlanWritesGroups) |
| SplitExcel.Split | splitExcel.js:13-89 | the whole call: the four checks in order, then the run of the plan over the grouping; the promise rejects with the first error (properties in ChecksComeFirst, SplitRunsPlan and SplitWritesEveryGroup) |
| SplitExcel.RunAppend | splitExcel.js:46-88 | running two action lists in sequence runs the second only when the first succeeded |
| SplitExcel.RunSnoc | splitExcel.js:46-88 | one more action runs from where the run stopped, unless it already failed |
| SplitExcel.RunThen | splitExcel.js:46-88 | after a successful run of a, running a + b is running b from there |
| SplitExcel.RunStopped | splitExcel.js:46-88 | after a failed run of a, nothing of b runs |
| SplitExcel.RunAt | splitExcel.js:46-88 | action j of a plan whose first j actions succeeded either extends the run or ends the whole plan with its error |
| SplitExcel.ProjectPlanSnoc | splitExcel.js:46-88 | one more project appends that project's actions |
| SplitExcel.BatchPlanIndex | splitExcel.js:51-52 | the j-th write of a project goes to the j-th batch's file with that batch's rows |
| SplitExcel.ProjectPlanPrefix | splitExcel.js:46-88 | the actions for a prefix of the projects are a prefix of all actions |
| SplitExcel.ProjectPlanStopped | splitExcel.js:46-88 | once a project has failed, the later projects change nothing |
| SplitExcel.BatchStep | splitExcel.js:51-87 | one pass of the batch loop either extends the run by that batch's write or ends it with the write's error |
| SplitExcel.ProjectStep | splitExcel.js:46-88 | one pass of the project loop either extends the run by that project's actions or ends it with their error |
| SplitExcel.SplitExcel | splitExcel.js:13-89 | the method leaves the disk and settles the promise exactly as `Split` specifies |
| SplitExcel.WriteProjects | splitExcel.js:46-88 | the project loop performs the whole plan in `Object.entries` order and stops at the first error |
| SplitExcel.WriteProject | splitExcel.js:47-87 | the project directory is made only when absent, then the project's batches are written |
| SplitExcel.WriteBatches | splitExcel.js:51-87 | the batch loop writes each batch's table in `Object.entries` order and stops at the first error |
| SplitProperties.OutPathInjective | splitExcel.js:47-52 | distinct (project, batch) groups are written to distinct files |
| SplitProperties.BatchPathInjective | splitExcel.js:52 | distinct batches of a project are written to distinct files |
| SplitProperties.WrittenAppend | splitExcel.js:86 | the files written by a + b are those of a, overridden by those of b |
| SplitProperties.RunFrame | splitExcel.js:46-88 | a run, even a failing one, removes no directory or file, changes no failing path, and changes only files it writes |
| SplitProperties.RunWrites | splitExcel.js:86 | after a successful run, each written path holds the table of the rows last written to it |
| SplitProperties.RunStopsAtFirstFailure | splitExcel.js:46-88 | a failed run failed at one action: all before it succeeded and are kept, and nothing after it ran |
| SplitProperties.RunLeavesRedoable | splitExcel.js:47-49 | after a successful run, each of its actions can be done again without error and creates no directory |
| SplitProperties.RunRedoable | splitExcel.js:47-49 | actions that can each be redone succeed in sequence and create no directory |
| SplitProperties.BatchPlanWrites | splitExcel.js:51-87 | a project's writes put each batch's rows in that batch's file, and write no other file |
| SplitProperties.ProjectActionsWrite | splitExcel.js:47-87 | a project's actions write each of its groups to the group's file, and nothing else |
| SplitProperties.ProjectPlanWrites | splitExcel.js:46-88 | the plan for the listed projects writes each of their groups to the group's file with the group's rows |
| SplitProperties.ProjectPlanWritesOnly | splitExcel.js:46-88 | that plan writes no file other than the files of those groups |
| SplitProperties.ProjectActionsSucceed | splitExcel.js:47-87 | with the directory creatable and no failing file, a project's actions succeed and leave its directory in place |
| SplitProperties.ProjectPlanSucceeds | splitExcel.js:46-88 | with every directory creatable and no failing file, the whole plan succeeds and every project directory exists |
| SplitProperties.OutPaths | splitExcel.js:52 | every row's group file is among the files a split writes |
| SplitProperties.PlanWritesRow | splitExcel.js:46-86 | the plan writes the file of row i's group with exactly that group's rows |
| SplitProperties.PlanWritesOnlyGroups | splitExcel.js:46-86 | the plan writes only files of groups that occur in the input |
| SplitProperties.PlanWritesGroups | splitExcel.js:46-86 | the plan writes exactly one file per occurring (project, batch) pair, each with that group's rows |
| SplitProperties.WritableGroups | splitExcel.js:46-52 | a disk ready for every row's directory and file is ready for every group's |
| SplitProperties.RowProjectListed | splitExcel.js:46 | every row's project is among the projects the loop visits |
| SplitProperties.ChecksComeFirst | splitExcel.js:14-33 | missing input, then missing output directory, then no rows, then missing columns each reject with their own error, in that order; such a rejection leaves the disk unchanged |
| SplitProperties.CheckMessages | splitExcel.js:14-33 | the four checks reject with "Input file does not exist.", "Output directory does not exist.", "Input Excel file is empty or invalid." and the missing-columns text; a failed read rejects with the reader's own message |
| SplitProperties.SplitRunsPlan | splitExcel.js:13-89 | past the checks, the call runs the plan; it resolves when the run succeeds, and otherwise rejects with the error thrown |
| SplitProperties.SplitResolves | splitExcel.js:13-89 | valid input and a writable disk make the call resolve, with every row's project directory in place |
| SplitProperties.SplitWritesEveryGroup | splitExcel.js:13-89 | after such a call, each group's file holds the table of exactly that group's rows, in input order |
| SplitProperties.RunWritesGroups | splitExcel.js:46-88 | after a plan that ran to the end, each group's file holds the table of that group's rows |
| SplitProperties.SplitTouchesOnlyGroupFiles | splitExcel.js:13-89 | such a call creates or changes no file except the group files, and removes nothing |
| SplitProperties.RunIsIdempotent | splitExcel.js:46-88 | a run that succeeded, made again from where it ended, succeeds and changes nothing |
| SplitProperties.SplitIsIdempotent | splitExcel.js:13-89 | a call that resolved, made again with the same rows, resolves and leaves the disk as it was |
| Worker.Port.PostMessage | worker.js:21-25 | posting appends exactly that message to the parent's log |
| Worker.ProcessWritesTable | worker.js:47-94 | a task succeeds exactly when it has rows, its path is not failing and its directory exists. On success only its file changes, and it holds the rows' table. No rows gives the `Object.keys` TypeError. A failed write is re-raised as "Failed to write output file for batch <name>: <cause>" |
| Worker.TaskPath | worker.js:51 | a task's file is `projectDir` joined with `sanitizedBatch + ".xlsx"` |
| Worker.WriteFailure | worker.js:90-92 | the message a failed write is re-raised with: the batch's name and the cause |
| Worker.Process | worker.js:47-94 | `processBatch`: the new disk, or the message of the error it throws (properties in ProcessWritesTable) |
| Worker.Next | worker.js:17-26 | one pass of the loop: nothing after a failure; otherwise the task's write and its progress message, or its error |
| Worker.Drive | worker.js:16-40 | the loop over the tasks: the disk, the progress posted and the error that ended it (properties in DriveReports and DriveFailsAtNext) |
| Worker.Processed | worker.js:15-41 | `processBatches`: the final disk and the log, progress messages followed by `complete` or the error (properties in WorkerProtocol) |
| Worker.ProcessBatch | worker.js:47-94 | the method leaves the disk and fails exactly as `Process` specifies; a failed call changes nothing |
| Worker.DriveStopped | worker.js:16-40 | once a task has failed, the later tasks change nothing |
| Worker.DriveStep | worker.js:17-26 | a task that succeeds is reported, and the loop continues from the new disk |
| Worker.DriveFails | worker.js:16-40 | a task that fails ends the loop with its error, on the disk it saw |
| Worker.ForEachTask | worker.js:17-26 | the loop inside the `try` processes the tasks in order, posts one progress message per finished task and returns the error that ended it |
| Worker.ProcessBatches | worker.js:15-41 | the worker leaves the disk and appends to the log exactly as `Processed` specifies |
| Worker.DriveReports | worker.js:17-26 | the progress messages name the finished tasks in task order, one per task when none failed |
| Worker.DriveFailsAtNext | worker.js:16-40 | a failing loop stopped at the task after the last reported one, on the disk that task saw, with its error |
| Worker.WorkerProtocol | worker.js:15-41 | the log is progress messages in task order followed by exactly one final message, which is `complete` exactly when every task was processed |
| Worker.WorkerReportsFirstFailure | worker.js:15-41 | a final message other than `complete` is the error of the first failing task; everything before it succeeded, and nothing ran after it |
| Worker.CompleteIffAllWritten | worker.js:15-41 | the worker ends with `complete` exactly when every task's write succeeded |
| Worker.DriveSucceededBefore | worker.js:17-26 | when the loop succeeded, every task on the way succeeded |
| Findings.AddRowAsWritten | splitExcel.js:40-42 | one pass as written leaves the dictionary unchanged for a new project naming an inherited method, and otherwise is the intended pass |
| Findings.GroupedAsWritten | splitExcel.js:36-43 | the grouping as written is a well-formed dictionary |
| Findings.Kept | splitExcel.js:36-43 | the rows the loop as written keeps are input rows whose project names no inherited method |
| Findings.KeptProjects | splitExcel.js:40 | no project of the kept rows' grouping names an inherited method |
| Findings.AsWrittenDropsInheritedProjects | splitExcel.js:36-43 | as written, the loop groups exactly the rows whose project code names no inherited method |
| Findings.ConstructorRowKeys | splitExcel.js:29-40 | the row `{project_code: "constructor", batch_code: "B1"}` passes the column check, and its keys are "constructor" and "B1" |
| Findings.ConstructorRowIsLost | splitExcel.js:36-46 | as written, that row is grouped nowhere and the plan writes nothing, while the intended grouping holds it |
| Findings.AddBatchAsWritten | splitExcel.js:41-42 | as written, a batch code that is not an own property but names an inherited value throws the `.push` TypeError; any other code gets the row appended to its own list |
| Findings.PushError | splitExcel.js:42 | the TypeError text that `.push` on an inherited value throws |
| Findings.ConstructorBatchThrows | splitExcel.js:29-42 | the row `{project_code: "P1", batch_code: "constructor"}` passes the column checks, yet as written its first grouping pass throws, while the intended grouping puts it in group ("P1", "constructor") |

## Left out

- The spreadsheet codec is not modelled: `xlsx.readFile`, `sheet_to_json` cell typing, workbook and worksheet creation, `worksheet.columns`, `addRow`/`addRows`, and the `addTable` styling (the name "Table1", "TableStyleMedium9", column width 20). Rows are given as parsed values, and a written file is modelled as its header list and cell matrix.
- `console.error` in worker.js and the `stack` field of the posted error are not modelled. They are diagnostics and change neither the disk nor the protocol.
- `worker_threads` and `workerData` are replaced by the task list as a parameter. `parentPort` is a log of the messages posted. Any spawning of workers or parallel dispatch is outside the model.
- renderer.js, main.js, preload.js, scripts/after-pack.js, the fixture generators and the lint and test configuration are not part of this model. They are UI, packaging and tooling.
- `path.join` normalisation is not modelled. A path is its list of segments, so a code containing "/" or ".." is one segment here.
- The model does not distinguish files from directories at the same path. A write to an existing directory (EISDIR) and a mkdir under a file (ENOTDIR/EEXIST) fail only if the path is in the `faults` map.
- The text of the ENOENT error for a missing parent directory (`FileSystem.NoParentError`) follows the shape of Node's message. The real text comes from the operating system layer and may differ.
- Races between `fs.existsSync` and the later calls are not modelled. Nothing else changes the disk during a call.
- Table.CellsOf: a row is read only through its own fields. The headers are the keys of the group's first row (splitExcel.js:57, worker.js:56). A later row that lacks one of those columns reads `row[header]` through its prototype at splitExcel.js:83 and worker.js:82. For a header such as "constructor", "toString", "valueOf" or "hasOwnProperty" the source gets the inherited function, while the model gives an empty cell.
- SplitProperties.SplitWritesEveryGroup: paths are compared segment by segment, exactly. Case folding and Unicode normalisation are not modelled. The same holds for `FileSystem.Disk`, `SplitProperties.OutPathInjective`, `SplitProperties.PlanWritesGroups` and `SplitProperties.SplitTouchesOnlyGroupFiles`. On a case-insensitive file system, such as the default macOS one, projects "P100" and "p100" share one directory. Batches "B1" and "b1" of one project then write the same file, and the later group's file replaces the earlier one. In that case one file per distinct (project, batch) key does not hold.
- SplitExcel.Split: the call and every SplitProperties lemma use the own-property grouping `Grouping.Grouped`, the corrected behaviour of both Findings rows. As written, rows whose project code names an inherited method are lost (first Findings row). A batch code naming an inherited value ("constructor", "toString", "valueOf", "__proto__", ...) makes splitExcel.js:42 throw a TypeError, so the call rejects and writes nothing (second Findings row). A "__proto__" project makes lines 41-42 write onto `Object.prototype`. The model resolves and writes the group's file in all three cases.
- SplitExcel.SplitExcel: it is proved equal to `SplitExcel.Split`, so it has the same gaps as the line above.
- JsValues.IntString: cell numbers are JavaScript doubles, and the model takes integer cells to be below 2^53 in magnitude. Beyond 2^53 the cell no longer holds the integer exactly. From 10^21 on, `String(n)` uses exponent notation ("1e+21"), so the key and the directory name differ from the digit string the model gives. Fractional cells are not modelled.
- JsValues.NatString: the same bound applies. The all-digits numeral is `String(n)` only below 10^21.
- Grouping.GroupRows: the dictionary is a value the loop reassigns on each pass, not an object whose nested objects are mutated in place. The source shares no nested object outside `projects`, so no aliasing is lost.
- Findings.AddRowAsWritten: it requires a covered row: no "__proto__" project and no batch code in `Findings.BuiltinNames`.
- Findings.GroupedAsWritten: it covers only inputs with no project code "__proto__" and no batch code among the names objects and functions already hold (`Findings.BuiltinNames`). For those inputs the source either throws from `.push` or writes onto `Object.prototype`, and the model does not follow either path.

## Findings

| source | as written | input that shows it | evidently intended | confidence | as-written member | corrected member |
|---|---|---|---|---|---|---|
| splitExcel.js:36-43 | `projects` is an object literal, so `projects[project]` also finds methods inherited from `Object.prototype`. For a project code such as "constructor", `!projects[project]` is false, no own property is created, and the rows go onto the inherited method. `Object.entries(projects)` never lists them, and the call resolves without writing them. | one row `{project_code: "constructor", batch_code: "B1"}` | every row is written to its group's file | medium, not executed | Findings.ConstructorRowIsLost | Grouping.GroupingConservesRows |
| splitExcel.js:41-42 | On a fresh project object, `projects[project][batch]` also finds values inherited from `Object.prototype`. For a batch code such as "constructor", `!projects[project][batch]` is false, so no array is created, and `.push` on the inherited function throws a TypeError. The call rejects before writing anything. | one row `{project_code: "P1", batch_code: "constructor"}` | the row is written to `P1/constructor.xlsx` | medium, not executed | Findings.ConstructorBatchThrows | Grouping.GroupedIsPartition |
