/**
 * The grouping step of the split: rows are partitioned into a dictionary
 * from project key to a dictionary from batch key to the rows with those
 * keys, in input order. Keys are property names, so a code is grouped by
 * `String(code)`: the number 999 and the text "999" share a group, and a
 * row without the column is grouped under "undefined".
 */
module Grouping {
  import opened Wrappers
  import opened JsValues
  import opened JsObject
  import opened Table

  /** batch key -> rows */
  type Batches = Obj<seq<Row>>

  /** project key -> batch key -> rows */
  type Projects = Obj<Batches>

  /** The property name `projects[row.project_code]` looks up. */
  function ProjectKey(row: Row): string
  {
    ToKey(Get(row, "project_code"))
  }

  /** The property name `projects[project][row.batch_code]` looks up. */
  function BatchKey(row: Row): string
  {
    ToKey(Get(row, "batch_code"))
  }

  ghost predicate WellFormed(g: Projects)
  {
    g.Valid() && forall p :: p in g.props ==> g.props[p].Valid()
  }

  /** The rows of group (p, b), if that group exists. */
  function Lookup(g: Projects, p: string, b: string): Option<seq<Row>>
  {
    if p in g.props && b in g.props[p].props then Some(g.props[p].props[b]) else None
  }

  /**
   * One pass of the grouping loop: create the project's dictionary and the
   * batch's list when missing, then append the row to that list.
   */
  function AddRow(g: Projects, row: Row): (r: Projects)
    requires WellFormed(g)
    ensures WellFormed(r)
  {
    AddTo(g, ProjectKey(row), BatchKey(row), row)
  }

  /** Appends `row` to group (project, batch), creating the group when missing. */
  function AddTo(g: Projects, project: string, batch: string, row: Row): (r: Projects)
    requires WellFormed(g)
    ensures WellFormed(r)
  {
    var batches := if project in g.props then g.props[project] else Empty();
    var rows := if batch in batches.props then batches.props[batch] else [];
    Put(g, project, Put(batches, batch, rows + [row]))
  }

  /** One pass appends the row to the group named by its keys, creating the group when missing. */
  lemma AddToHit(g: Projects, project: string, batch: string, row: Row)
    requires WellFormed(g)
    ensures Lookup(AddTo(g, project, batch, row), project, batch) == Some(Lookup(g, project, batch).GetOr([]) + [row])
  {
  }

  /** One pass changes no other group. */
  lemma AddToMiss(g: Projects, project: string, batch: string, row: Row)
    requires WellFormed(g)
    ensures forall p, b :: (p, b) != (project, batch) ==> Lookup(AddTo(g, project, batch, row), p, b) == Lookup(g, p, b)
  {
    var batches := if project in g.props then g.props[project] else Empty();
    var rows := if batch in batches.props then batches.props[batch] else [];
    var updated := Put(batches, batch, rows + [row]);
    var r := AddTo(g, project, batch, row);
    assert r.props == g.props[project := updated];
    assert updated.props == batches.props[batch := rows + [row]];
    forall p, b | p != project ensures Lookup(r, p, b) == Lookup(g, p, b) {
      assert p in r.props <==> p in g.props;
    }
    forall b | b != batch ensures Lookup(r, project, b) == Lookup(g, project, b) {
      assert b in updated.props <==> b in batches.props;
    }
  }

  /** One pass adds the row's project to the projects, and no other. */
  lemma AddToProjects(g: Projects, project: string, batch: string, row: Row)
    requires WellFormed(g)
    ensures forall p :: p in AddTo(g, project, batch, row).props <==> p in g.props || p == project
  {
  }

  /** The grouping dictionary after the loop has seen `rows`. */
  function Grouped(rows: seq<Row>): (g: Projects)
    ensures WellFormed(g)
  {
    if rows == [] then Empty() else AddRow(Grouped(rows[..|rows| - 1]), rows[|rows| - 1])
  }

  /** The loop at splitExcel.js:36-43; the dictionary is a value reassigned on each pass. */
  method GroupRows(data: seq<Row>) returns (projects: Projects)
    ensures projects == Grouped(data)
  {
    projects := Empty();
    for i := 0 to |data|
      invariant projects == Grouped(data[..i])
    {
      assert data[..i + 1][..i] == data[..i];
      projects := AddRow(projects, data[i]);
    }
    assert data[..|data|] == data;
  }

  /** The rows of `rows` whose keys are (p, b), in input order: the reference definition of a group. */
  function Members(rows: seq<Row>, p: string, b: string): (m: seq<Row>)
  {
    if rows == [] then []
    else
      var last := rows[|rows| - 1];
      Members(rows[..|rows| - 1], p, b) + if ProjectKey(last) == p && BatchKey(last) == b then [last] else []
  }

  /** The group (p, b) should hold: the members, when there are any. */
  function Expected(rows: seq<Row>, p: string, b: string): Option<seq<Row>>
  {
    if Members(rows, p, b) == [] then None else Some(Members(rows, p, b))
  }

  /**
   * The grouping is a partition of the input: group (p, b) exists exactly
   * when some row has keys (p, b), and then it holds exactly those rows, in
   * input order and with duplicates kept.
   */
  lemma {:induction false} GroupedIsPartition(rows: seq<Row>)
    ensures forall p, b :: Lookup(Grouped(rows), p, b) == Expected(rows, p, b)
  {
    if rows != [] {
      var prefix, last := rows[..|rows| - 1], rows[|rows| - 1];
      GroupedIsPartition(prefix);
      var g := Grouped(prefix);
      assert Grouped(rows) == AddTo(g, ProjectKey(last), BatchKey(last), last);
      AddToHit(g, ProjectKey(last), BatchKey(last), last);
      AddToMiss(g, ProjectKey(last), BatchKey(last), last);
      forall p, b ensures Lookup(Grouped(rows), p, b) == Expected(rows, p, b) {
        assert Lookup(g, p, b) == Expected(prefix, p, b);
        if (p, b) == (ProjectKey(last), BatchKey(last)) {
          assert Members(rows, p, b) == Members(prefix, p, b) + [last];
        } else {
          assert Members(rows, p, b) == Members(prefix, p, b);
        }
      }
    }
  }

  /** Every project dictionary that is created holds at least one batch. */
  lemma {:induction false} ProjectsAreNonEmpty(rows: seq<Row>)
    ensures forall p :: p in Grouped(rows).props ==> Grouped(rows).props[p].order != []
  {
    if rows != [] {
      var prefix, last := rows[..|rows| - 1], rows[|rows| - 1];
      ProjectsAreNonEmpty(prefix);
      AddToHit(Grouped(prefix), ProjectKey(last), BatchKey(last), last);
      AddToMiss(Grouped(prefix), ProjectKey(last), BatchKey(last), last);
      forall p | p in Grouped(rows).props ensures Grouped(rows).props[p].order != [] {
        if p == ProjectKey(last) {
          assert Lookup(Grouped(rows), p, BatchKey(last)).Some?;
          assert BatchKey(last) in Grouped(rows).props[p].order;
        } else {
          assert Grouped(rows).props[p] == Grouped(prefix).props[p] by {
            assert p in Grouped(prefix).props;
            forall b ensures Lookup(Grouped(rows), p, b) == Lookup(Grouped(prefix), p, b) { }
          }
        }
      }
    }
  }

  /** Every member of group (p, b) is an input row with keys (p, b): a row lands in no other group. */
  lemma {:induction false} MembersHaveTheirKeys(rows: seq<Row>, p: string, b: string)
    ensures forall r :: r in Members(rows, p, b) ==> r in rows && ProjectKey(r) == p && BatchKey(r) == b
  {
    if rows != [] {
      MembersHaveTheirKeys(rows[..|rows| - 1], p, b);
    }
  }

  /** Every row is a member of the group named by its own keys. */
  lemma {:induction false} RowInItsGroup(rows: seq<Row>, i: nat)
    requires i < |rows|
    ensures rows[i] in Members(rows, ProjectKey(rows[i]), BatchKey(rows[i]))
  {
    var n := |rows| - 1;
    if i < n {
      RowInItsGroup(rows[..n], i);
    }
  }

  /** A group exists only for a pair of keys that some input row carries, and then it is not empty. */
  lemma GroupWitness(rows: seq<Row>, p: string, b: string)
    requires Lookup(Grouped(rows), p, b).Some?
    ensures Lookup(Grouped(rows), p, b).value == Members(rows, p, b) != []
    ensures exists i :: 0 <= i < |rows| && ProjectKey(rows[i]) == p && BatchKey(rows[i]) == b
  {
    GroupedIsPartition(rows);
    MembersHaveTheirKeys(rows, p, b);
    var r := Members(rows, p, b)[0];
    assert r in Members(rows, p, b);
    var i :| 0 <= i < |rows| && rows[i] == r;
  }

  /** Every project dictionary holds some group. */
  lemma ProjectWitness(rows: seq<Row>, p: string)
    requires p in Grouped(rows).props
    ensures exists b :: Lookup(Grouped(rows), p, b).Some?
  {
    ProjectsAreNonEmpty(rows);
    var b := Grouped(rows).props[p].order[0];
    assert Lookup(Grouped(rows), p, b).Some?;
  }

  /** A project dictionary exists only for a project key that some input row carries. */
  lemma ProjectHasRow(rows: seq<Row>, p: string)
    ensures p in Grouped(rows).props ==> exists i :: 0 <= i < |rows| && ProjectKey(rows[i]) == p
  {
    if p in Grouped(rows).props {
      ProjectWitness(rows, p);
      var b :| Lookup(Grouped(rows), p, b).Some?;
      GroupWitness(rows, p, b);
    }
  }

  /** Later rows only extend a group: the group of a prefix of the input is a prefix of the group. */
  lemma {:induction false} MembersKeepInputOrder(rows: seq<Row>, k: nat, p: string, b: string)
    requires k <= |rows|
    ensures Members(rows[..k], p, b) <= Members(rows, p, b)
  {
    if k < |rows| {
      var n := |rows| - 1;
      assert rows[..n][..k] == rows[..k];
      MembersKeepInputOrder(rows[..n], k, p, b);
    } else {
      assert rows[..k] == rows;
    }
  }

  /** Sum of `size(m[k])` over the keys `ks` that are in `m`. */
  function SumOver<V>(ks: seq<string>, m: map<string, V>, size: V -> nat): nat
  {
    if ks == [] then 0
    else
      var k := ks[|ks| - 1];
      SumOver(ks[..|ks| - 1], m, size) + if k in m then size(m[k]) else 0
  }

  lemma {:induction false} SumOverUnlisted<V>(ks: seq<string>, m: map<string, V>, size: V -> nat, k: string, v: V)
    requires k !in ks
    ensures SumOver(ks, m[k := v], size) == SumOver(ks, m, size)
  {
    if ks != [] {
      SumOverUnlisted(ks[..|ks| - 1], m, size, k, v);
    }
  }

  lemma {:induction false} SumOverUpdate<V>(ks: seq<string>, m: map<string, V>, size: V -> nat, k: string, v: V)
    requires Distinct(ks) && k in ks && k in m
    ensures SumOver(ks, m[k := v], size) + size(m[k]) == SumOver(ks, m, size) + size(v)
  {
    var n := |ks| - 1;
    assert Distinct(ks[..n]);
    if ks[n] == k {
      assert k !in ks[..n];
      SumOverUnlisted(ks[..n], m, size, k, v);
    } else {
      assert k in ks[..n] by {
        var j :| 0 <= j < |ks| && ks[j] == k;
        assert ks[..n][j] == k;
      }
      SumOverUpdate(ks[..n], m, size, k, v);
    }
  }

  function RowCount(s: seq<Row>): nat { |s| }

  function BatchTotal(batches: Batches): nat { SumOver(batches.order, batches.props, RowCount) }

  /** The number of rows held by all groups together. */
  function TotalRows(g: Projects): nat { SumOver(g.order, g.props, BatchTotal) }

  /** Adding a property, or replacing its value, changes the sum by the change in that value's size. */
  lemma PutSum<V>(o: Obj<V>, k: string, v: V, size: V -> nat)
    requires o.Valid()
    ensures SumOver(Put(o, k, v).order, Put(o, k, v).props, size) ==
      SumOver(o.order, o.props, size) + size(v) - if k in o.props then size(o.props[k]) else 0
  {
    if k in o.props {
      SumOverUpdate(o.order, o.props, size, k, v);
    } else {
      SumOverUnlisted(o.order, o.props, size, k, v);
      assert (o.order + [k])[..|o.order|] == o.order;
    }
  }

  /** One pass adds exactly one row to the groups. */
  lemma AddRowCountsOne(g: Projects, row: Row)
    requires WellFormed(g)
    ensures TotalRows(AddRow(g, row)) == TotalRows(g) + 1
  {
    AddToCountsOne(g, ProjectKey(row), BatchKey(row), row);
  }

  lemma AddToCountsOne(g: Projects, project: string, batch: string, row: Row)
    requires WellFormed(g)
    ensures TotalRows(AddTo(g, project, batch, row)) == TotalRows(g) + 1
  {
    var batches := if project in g.props then g.props[project] else Empty();
    var rows := if batch in batches.props then batches.props[batch] else [];
    var updated := Put(batches, batch, rows + [row]);
    assert AddTo(g, project, batch, row) == Put(g, project, updated);
    assert BatchTotal(updated) == BatchTotal(batches) + 1 by {
      PutSum(batches, batch, rows + [row], RowCount);
    }
    assert project !in g.props ==> BatchTotal(batches) == 0;
    PutSum(g, project, updated, BatchTotal);
  }

  /** No row is lost or duplicated: the group sizes add up to the number of input rows. */
  lemma {:induction false} GroupingConservesRows(rows: seq<Row>)
    ensures TotalRows(Grouped(rows)) == |rows|
  {
    if rows != [] {
      GroupingConservesRows(rows[..|rows| - 1]);
      AddRowCountsOne(Grouped(rows[..|rows| - 1]), rows[|rows| - 1]);
    }
  }

  // ---------------------------------------------------------------------
  // The order in which projects are created.

  /** The index of the first row whose project key is `p`; `|rows|` when there is none. */
  function FirstRow(rows: seq<Row>, p: string): (i: nat)
    ensures i <= |rows|
    ensures i < |rows| ==> ProjectKey(rows[i]) == p
    ensures forall j :: 0 <= j < i ==> ProjectKey(rows[j]) != p
  {
    if rows == [] then 0 else if ProjectKey(rows[0]) == p then 0 else 1 + FirstRow(rows[1..], p)
  }

  /** One more row changes the first occurrence of `p` only when `p` did not occur before. */
  lemma {:induction false} FirstRowSnoc(rows: seq<Row>, row: Row, p: string)
    ensures FirstRow(rows + [row], p) ==
      if FirstRow(rows, p) < |rows| then FirstRow(rows, p) else if ProjectKey(row) == p then |rows| else |rows| + 1
  {
    if rows != [] && ProjectKey(rows[0]) != p {
      assert (rows + [row])[1..] == rows[1..] + [row];
      FirstRowSnoc(rows[1..], row, p);
    }
  }

  /** One more row creates its project last, unless the project already exists. */
  lemma GroupedOrderSnoc(rows: seq<Row>, row: Row)
    ensures Grouped(rows + [row]).order ==
      if ProjectKey(row) in Grouped(rows).order then Grouped(rows).order else Grouped(rows).order + [ProjectKey(row)]
  {
    assert (rows + [row])[..|rows|] == rows;
  }

  /** The dictionary holds exactly the project codes some row carries. */
  lemma {:induction false} ProjectsAreFirstRows(rows: seq<Row>)
    ensures forall p :: p in Grouped(rows).props <==> FirstRow(rows, p) < |rows|
  {
    if rows != [] {
      var prefix, row := rows[..|rows| - 1], rows[|rows| - 1];
      assert rows == prefix + [row];
      ProjectsAreFirstRows(prefix);
      var g := Grouped(prefix);
      assert Grouped(rows) == AddRow(g, row);
      AddToProjects(g, ProjectKey(row), BatchKey(row), row);
      forall p ensures p in Grouped(rows).props <==> FirstRow(rows, p) < |rows| {
        FirstRowSnoc(prefix, row, p);
      }
    }
  }

  /** The project codes of `rows`, each once, in the order of their first rows. */
  function FirstSeen(rows: seq<Row>): seq<string>
  {
    if rows == [] then []
    else
      var seen, k := FirstSeen(rows[..|rows| - 1]), ProjectKey(rows[|rows| - 1]);
      if k in seen then seen else seen + [k]
  }

  /** The loop creates the projects in first-seen order. */
  lemma {:induction false} GroupedOrderIsFirstSeen(rows: seq<Row>)
    ensures Grouped(rows).order == FirstSeen(rows)
  {
    if rows != [] {
      var prefix, row := rows[..|rows| - 1], rows[|rows| - 1];
      assert rows == prefix + [row];
      GroupedOrderIsFirstSeen(prefix);
      GroupedOrderSnoc(prefix, row);
    }
  }

  /** Codes seen earlier first occur in earlier rows; every listed code occurs. */
  predicate InFirstRowOrder(rows: seq<Row>)
  {
    var seen := FirstSeen(rows);
    (forall i :: 0 <= i < |seen| ==> FirstRow(rows, seen[i]) < |rows|) &&
    forall i, j :: 0 <= i < j < |seen| ==> FirstRow(rows, seen[i]) < FirstRow(rows, seen[j])
  }

  /**
   * `Object.entries(projects)` starts from creation order, and the loop
   * creates the projects in the order their codes first occur: a project
   * created earlier first occurs in an earlier row.
   */
  lemma {:induction false} ProjectsInFirstRowOrder(rows: seq<Row>)
    ensures forall i, j :: 0 <= i < j < |Grouped(rows).order| ==>
      FirstRow(rows, Grouped(rows).order[i]) < FirstRow(rows, Grouped(rows).order[j])
  {
    FirstSeenInOrder(rows);
    GroupedOrderIsFirstSeen(rows);
  }

  /** The first-seen list is ordered by first row, and every code in it occurs. */
  lemma {:induction false} FirstSeenInOrder(rows: seq<Row>)
    ensures InFirstRowOrder(rows)
  {
    if rows != [] {
      var prefix, row := rows[..|rows| - 1], rows[|rows| - 1];
      assert rows == prefix + [row];
      FirstSeenInOrder(prefix);
      FirstSeenSnoc(prefix, row);
    }
  }

  /** One more row keeps the codes in first-row order. */
  lemma FirstSeenSnoc(prefix: seq<Row>, row: Row)
    requires InFirstRowOrder(prefix)
    ensures InFirstRowOrder(prefix + [row])
  {
    var rows := prefix + [row];
    assert rows[..|prefix|] == prefix;
    if ProjectKey(row) in FirstSeen(prefix) {
      assert FirstSeen(rows) == FirstSeen(prefix);
      SeenSnoc(prefix, row);
    } else {
      assert FirstSeen(rows) == FirstSeen(prefix) + [ProjectKey(row)];
      NewSnoc(prefix, row);
    }
  }

  /** A listed code keeps its first row when a row is added. */
  lemma SeenSnoc(prefix: seq<Row>, row: Row)
    requires InFirstRowOrder(prefix)
    ensures forall i :: 0 <= i < |FirstSeen(prefix)| ==>
      FirstRow(prefix + [row], FirstSeen(prefix)[i]) == FirstRow(prefix, FirstSeen(prefix)[i]) < |prefix|
  {
    var seen := FirstSeen(prefix);
    forall i | 0 <= i < |seen| ensures FirstRow(prefix + [row], seen[i]) == FirstRow(prefix, seen[i]) < |prefix| {
      FirstRowSnoc(prefix, row, seen[i]);
    }
  }

  /** A code seen for the first time in the added row comes after every listed code. */
  lemma NewSnoc(prefix: seq<Row>, row: Row)
    requires InFirstRowOrder(prefix) && ProjectKey(row) !in FirstSeen(prefix)
    ensures var seen := FirstSeen(prefix) + [ProjectKey(row)];
      forall i, j :: 0 <= i < j < |seen| ==> FirstRow(prefix + [row], seen[i]) < FirstRow(prefix + [row], seen[j])
    ensures FirstRow(prefix + [row], ProjectKey(row)) == |prefix|
  {
    var rows, k, seen := prefix + [row], ProjectKey(row), FirstSeen(prefix);
    SeenSnoc(prefix, row);
    FirstSeenMembers(prefix, k);
    FirstRowSnoc(prefix, row, k);
    var seen' := seen + [k];
    forall i, j | 0 <= i < j < |seen'| ensures FirstRow(rows, seen'[i]) < FirstRow(rows, seen'[j]) {
      assert seen'[i] == seen[i];
      if j < |seen| {
        assert seen'[j] == seen[j];
      } else {
        assert seen'[j] == k;
      }
    }
  }

  /** A code that is not listed occurs in no row. */
  lemma {:induction false} FirstSeenMembers(rows: seq<Row>, p: string)
    requires p !in FirstSeen(rows)
    ensures FirstRow(rows, p) == |rows|
  {
    if rows != [] {
      var prefix, row := rows[..|rows| - 1], rows[|rows| - 1];
      assert rows == prefix + [row];
      FirstSeenMembers(prefix, p);
      FirstRowSnoc(prefix, row, p);
    }
  }
}
