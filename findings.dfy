/**
 * The grouping dictionary of splitExcel.js:36-43 is a plain object
 * literal, so `projects[project]` also sees what every object inherits from
 * `Object.prototype`. A project code naming one of the inherited methods
 * (`"constructor"`, `"toString"`, ...) finds that method, which is truthy:
 * no own property is created, the rows are pushed onto an array stored on
 * the method itself, and since `Object.entries(projects)` lists own
 * properties only, those rows are never written while the call resolves.
 * `GroupedAsWritten` is that behaviour; `Grouping.Grouped` is the intended
 * one, which loses no row (`Grouping.GroupingConservesRows`).
 */
module Findings {
  import opened Wrappers
  import opened JsValues
  import opened JsObject
  import opened Table
  import opened FileSystem
  import opened Grouping
  import opened SplitExcel

  /** The methods every plain object inherits from `Object.prototype`. */
  const InheritedMethods: set<string> := {
    "constructor", "hasOwnProperty", "isPrototypeOf", "propertyIsEnumerable",
    "toLocaleString", "toString", "valueOf",
    "__defineGetter__", "__defineSetter__", "__lookupGetter__", "__lookupSetter__"
  }

  /**
   * Names under which `Object`, a function or a plain object already holds
   * something: a batch code among them makes `.push` fail with a TypeError,
   * and `__proto__` reaches `Object.prototype` itself. The as-written model
   * covers only batch codes outside this set.
   */
  const BuiltinNames: set<string> := InheritedMethods + {
    "__proto__", "length", "name", "prototype", "arguments", "caller", "apply", "bind", "call",
    "assign", "create", "defineProperties", "defineProperty", "entries", "freeze", "fromEntries",
    "getOwnPropertyDescriptor", "getOwnPropertyDescriptors", "getOwnPropertyNames",
    "getOwnPropertySymbols", "getPrototypeOf", "groupBy", "hasOwn", "is", "isExtensible",
    "isFrozen", "isSealed", "keys", "preventExtensions", "seal", "setPrototypeOf", "values"
  }

  /** A row the as-written model covers: not the `__proto__` project, no built-in batch name. */
  predicate CoveredRow(row: Row)
  {
    ProjectKey(row) != "__proto__" && BatchKey(row) !in BuiltinNames
  }

  /** The rows the as-written model covers. */
  predicate Covered(rows: seq<Row>)
  {
    forall i :: 0 <= i < |rows| ==> CoveredRow(rows[i])
  }

  /**
   * One pass of the grouping loop as written: when the project is not an own
   * property and names an inherited method, `projects[project]` is that
   * method, so the row goes onto the method and `projects` is unchanged.
   */
  function AddRowAsWritten(g: Projects, row: Row): (r: Projects)
    requires WellFormed(g) && CoveredRow(row)
    ensures WellFormed(r)
    ensures ProjectKey(row) !in g.props && ProjectKey(row) in InheritedMethods ==> r == g
    ensures ProjectKey(row) in g.props || ProjectKey(row) !in InheritedMethods ==> r == AddRow(g, row)
  {
    var project := ProjectKey(row);
    if project !in g.props && project in InheritedMethods then g else AddRow(g, row)
  }

  /** The grouping loop as written. */
  function GroupedAsWritten(rows: seq<Row>): (g: Projects)
    requires Covered(rows)
    ensures WellFormed(g)
  {
    if rows == [] then Empty()
    else
      assert Covered(rows[..|rows| - 1]) by {
        forall i | 0 <= i < |rows| - 1 ensures rows[..|rows| - 1][i] == rows[i] { }
      }
      AddRowAsWritten(GroupedAsWritten(rows[..|rows| - 1]), rows[|rows| - 1])
  }

  /** The rows whose project code does not name an inherited method. */
  function Kept(rows: seq<Row>): (kept: seq<Row>)
    ensures forall r :: r in kept ==> r in rows
    ensures forall i :: 0 <= i < |kept| ==> ProjectKey(kept[i]) !in InheritedMethods
  {
    if rows == [] then []
    else
      var last := rows[|rows| - 1];
      Kept(rows[..|rows| - 1]) + if ProjectKey(last) in InheritedMethods then [] else [last]
  }

  /** No project of the intended grouping of `Kept(rows)` names an inherited method. */
  lemma KeptProjects(rows: seq<Row>, p: string)
    requires p in InheritedMethods
    ensures p !in Grouped(Kept(rows)).props
  {
    ProjectHasRow(Kept(rows), p);
  }

  /** As written, the loop groups exactly the rows whose project code names no inherited method. */
  lemma {:induction false} AsWrittenDropsInheritedProjects(rows: seq<Row>)
    requires Covered(rows)
    ensures GroupedAsWritten(rows) == Grouped(Kept(rows))
  {
    if rows != [] {
      var n := |rows| - 1;
      var prefix, last := rows[..n], rows[n];
      assert Covered(prefix) by {
        forall i | 0 <= i < n ensures prefix[i] == rows[i] { }
      }
      AsWrittenDropsInheritedProjects(prefix);
      var g := GroupedAsWritten(prefix);
      assert GroupedAsWritten(rows) == AddRowAsWritten(g, last);
      if ProjectKey(last) in InheritedMethods {
        KeptProjects(prefix, ProjectKey(last));
        assert Kept(rows) == Kept(prefix);
      } else {
        var kept := Kept(prefix);
        assert Kept(rows) == kept + [last];
        assert (kept + [last])[..|kept|] == kept;
        assert Grouped(kept + [last]) == AddRow(Grouped(kept), last);
      }
    }
  }

  /** The row that shows it: project code "constructor", batch code "B1". */
  function ConstructorRow(): Row
  {
    Obj(["project_code", "batch_code"], map["project_code" := Str("constructor"), "batch_code" := Str("B1")])
  }

  /** The row passes the column check and is covered, and its keys are "constructor" and "B1". */
  lemma ConstructorRowKeys()
    ensures ProjectKey(ConstructorRow()) == "constructor" && BatchKey(ConstructorRow()) == "B1"
    ensures "project_code" in ConstructorRow().props && "batch_code" in ConstructorRow().props
    ensures Covered([ConstructorRow()])
  {
    var row := ConstructorRow();
    assert Get(row, "project_code") == Some(Str("constructor"));
    assert Get(row, "batch_code") == Some(Str("B1"));
    B1IsNoBuiltinName();
  }

  /** "B1" is not a name objects or functions already hold. */
  lemma B1IsNoBuiltinName()
    ensures "B1" !in BuiltinNames
  {
    assert "B1"[0] == 'B';
  }

  /**
   * With that one row the input passes every check, yet as written the
   * grouping is empty, so the plan writes nothing and the call resolves
   * with no file; the intended grouping keeps the row.
   */
  lemma ConstructorRowIsLost(outputDir: Path)
    ensures Covered([ConstructorRow()])
    ensures TotalRows(GroupedAsWritten([ConstructorRow()])) == 0
    ensures Plan(outputDir, GroupedAsWritten([ConstructorRow()])) == []
    ensures TotalRows(Grouped([ConstructorRow()])) == 1
  {
    var rows := [ConstructorRow()];
    ConstructorRowKeys();
    assert rows[..0] == [];
    var g := GroupedAsWritten(rows);
    assert g == Empty();
    assert Keys(g) == [];
    GroupingConservesRows(rows);
  }

  // ---------------------------------------------------------------------
  // A batch code naming something every object inherits.

  /** The names under which a fresh object literal `{}` already holds a truthy value. */
  const InheritedNames: set<string> := InheritedMethods + {"__proto__"}

  /** The TypeError splitExcel.js:42 throws when `projects[project][batch]` is not an array. */
  const PushError: string := "projects[project][batch].push is not a function"

  /**
   * splitExcel.js:41-42 as written, on one project's batch dictionary: a
   * batch code that is not an own property but names an inherited value
   * finds that value, which is truthy, so no array is created and `.push`
   * throws; any other code gets its row appended to its own list.
   */
  function AddBatchAsWritten(batches: Batches, batch: string, row: Row): (r: Result<Batches>)
    requires batches.Valid()
    ensures r.Failure? <==> batch !in batches.props && batch in InheritedNames
    ensures r.Failure? ==> r.error == PushError
    ensures r.Success? ==> r.value.Valid() && Get(r.value, batch) == Some(Get(batches, batch).GetOr([]) + [row])
  {
    if batch !in batches.props && batch in InheritedNames then Failure(PushError)
    else Success(Put(batches, batch, Get(batches, batch).GetOr([]) + [row]))
  }

  /** The row that shows it: project code "P1", batch code "constructor". */
  function ConstructorBatchRow(): Row
  {
    Obj(["project_code", "batch_code"], map["project_code" := Str("P1"), "batch_code" := Str("constructor")])
  }

  /**
   * With that one row the input passes every check, yet as written the
   * first pass of the grouping loop throws, so the call rejects before
   * anything is written; the intended grouping puts the row in group
   * ("P1", "constructor"), whose file the plan writes.
   */
  lemma ConstructorBatchThrows()
    ensures "project_code" in ConstructorBatchRow().props && "batch_code" in ConstructorBatchRow().props
    ensures ProjectKey(ConstructorBatchRow()) == "P1" && BatchKey(ConstructorBatchRow()) == "constructor"
    ensures AddBatchAsWritten(Empty(), BatchKey(ConstructorBatchRow()), ConstructorBatchRow()) == Failure(PushError)
    ensures Lookup(Grouped([ConstructorBatchRow()]), "P1", "constructor") == Some([ConstructorBatchRow()])
  {
    var row := ConstructorBatchRow();
    assert Get(row, "project_code") == Some(Str("P1"));
    assert Get(row, "batch_code") == Some(Str("constructor"));
    assert [row][..0] == [];
    assert Grouped([row]) == AddTo(Empty(), "P1", "constructor", row);
    AddToHit(Empty(), "P1", "constructor", row);
    assert Lookup(Empty<Batches>(), "P1", "constructor") == None;
    assert [] + [row] == [row];
  }
}
