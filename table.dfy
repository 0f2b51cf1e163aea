/**
 * The table an output file holds: the header list taken from the key order
 * of the batch's first row, and one list of cells per row, cell j being the
 * row's value under header j (`undefined` when the row has no such field).
 * Both the pipeline and the worker derive their tables this way.
 */
module Table {
  import opened Wrappers
  import opened JsValues
  import opened JsObject

  /** A parsed input row: an object from column names to cell values; empty cells are absent. */
  type Row = Obj<Value>

  /** `row[header]`: a value, or `undefined` (None). */
  type Cell = Option<Value>

  /** What is written to an output file: the header row and the data cells. */
  datatype Sheet = Sheet(headers: seq<string>, cells: seq<seq<Cell>>)

  /** The TypeError `Object.keys(undefined)` throws. */
  const NoRowsError: string := "Cannot convert undefined or null to object"

  /** `Object.keys(rows[0])`; on an empty list `rows[0]` is undefined and `Object.keys` throws. */
  function Headers(rows: seq<Row>): (r: Result<seq<string>>)
    ensures r.Failure? <==> rows == []
    ensures r.Failure? ==> r.error == NoRowsError
    ensures r.Success? ==> forall k :: k in r.value <==> k in rows[0].order
  {
    if rows == [] then Failure(NoRowsError)
    else
      OwnKeysMultiset(rows[0].order);
      assert forall k :: k in Keys(rows[0]) <==> k in multiset(Keys(rows[0]));
      Success(Keys(rows[0]))
  }

  /** `headers.map((header) => row[header])`: one row of the table. */
  function CellsOf(headers: seq<string>, row: Row): (cs: seq<Cell>)
    ensures |cs| == |headers|
  {
    seq(|headers|, j requires 0 <= j < |headers| => Get(row, headers[j]))
  }

  /** `rows.map((row) => headers.map((header) => row[header]))`. */
  function Project(headers: seq<string>, rows: seq<Row>): (m: seq<seq<Cell>>)
    ensures |m| == |rows|
    ensures forall i :: 0 <= i < |m| ==> |m[i]| == |headers|
  {
    seq(|rows|, i requires 0 <= i < |rows| => CellsOf(headers, rows[i]))
  }

  /** The table written for a batch of rows. */
  function Tabulate(rows: seq<Row>): (r: Result<Sheet>)
    ensures r.Failure? <==> rows == []
    ensures r.Success? ==> |r.value.cells| == |rows|
  {
    match Headers(rows)
    case Failure(e) => Failure(e)
    case Success(hs) => Success(Sheet(hs, Project(hs, rows)))
  }

  /** The object a reader rebuilds from one table row: header j holds cell j when the cell is not empty. */
  function Reassemble(headers: seq<string>, cells: seq<Cell>): map<string, Value>
    requires |headers| == |cells|
  {
    if headers == [] then map[]
    else
      var m := Reassemble(headers[..|headers| - 1], cells[..|cells| - 1]);
      match cells[|cells| - 1]
      case None => m
      case Some(v) => m[headers[|headers| - 1] := v]
  }

  /** A rebuilt object has no field outside the headers. */
  lemma {:induction false} ReassembleDomain(headers: seq<string>, cells: seq<Cell>)
    requires |headers| == |cells|
    ensures forall k :: k in Reassemble(headers, cells) ==> k in headers
  {
    if headers != [] {
      var n := |headers| - 1;
      ReassembleDomain(headers[..n], cells[..n]);
    }
  }

  /** With distinct headers, header j of a rebuilt object holds cell j, and is absent when the cell is empty. */
  lemma {:induction false} ReassembleAt(headers: seq<string>, cells: seq<Cell>)
    requires |headers| == |cells| && Distinct(headers)
    ensures forall j :: 0 <= j < |headers| ==>
      (headers[j] in Reassemble(headers, cells) <==> cells[j].Some?) &&
      (cells[j].Some? ==> Reassemble(headers, cells)[headers[j]] == cells[j].value)
  {
    if headers != [] {
      var n := |headers| - 1;
      var m := Reassemble(headers[..n], cells[..n]);
      assert Distinct(headers[..n]);
      ReassembleAt(headers[..n], cells[..n]);
      ReassembleDomain(headers[..n], cells[..n]);
      assert headers[n] !in headers[..n];
      forall j | 0 <= j < n
        ensures headers[j] != headers[n]
        ensures (headers[j] in m <==> cells[j].Some?) && (cells[j].Some? ==> m[headers[j]] == cells[j].value)
      {
        assert headers[..n][j] == headers[j] && cells[..n][j] == cells[j];
      }
    }
  }

  /** Rebuilding a row from its cells gives back its fields under the headers, and no others. */
  lemma ReassembleCells(headers: seq<string>, row: Row)
    requires Distinct(headers)
    ensures Reassemble(headers, CellsOf(headers, row)) ==
      map k | k in row.props && k in headers :: row.props[k]
  {
    var cs := CellsOf(headers, row);
    ReassembleDomain(headers, cs);
    ReassembleAt(headers, cs);
    var got := Reassemble(headers, cs);
    var want := map k | k in row.props && k in headers :: row.props[k];
    forall k ensures k in got <==> k in want {
      if k in headers {
        var j :| 0 <= j < |headers| && headers[j] == k;
        assert cs[j] == Get(row, k);
      }
    }
    forall k | k in got ensures got[k] == want[k] {
      var j :| 0 <= j < |headers| && headers[j] == k;
      assert cs[j] == Get(row, k);
    }
  }

  /**
   * Every row of the table keeps exactly those of its fields whose column
   * the first row also has: a row with the first row's columns round-trips
   * unchanged, and a field the first row lacks is dropped.
   */
  lemma TableKeepsFirstRowColumns(rows: seq<Row>, i: nat)
    requires i < |rows| && rows[0].Valid()
    ensures Tabulate(rows).Success?
    ensures var t := Tabulate(rows).value;
      t.headers == Keys(rows[0]) &&
      Reassemble(t.headers, t.cells[i]) ==
        map k | k in rows[i].props && k in rows[0].props :: rows[i].props[k]
  {
    var hs := Keys(rows[0]);
    KeysOfObject(rows[0]);
    assert Tabulate(rows).value.cells[i] == CellsOf(hs, rows[i]);
    ReassembleCells(hs, rows[i]);
    var a := map k | k in rows[i].props && k in hs :: rows[i].props[k];
    var b := map k | k in rows[i].props && k in rows[0].props :: rows[i].props[k];
    assert a == b;
  }

  /** Cell j of table row i is the row's value under header j, `undefined` when it has none. */
  lemma TableCells(rows: seq<Row>, i: nat, j: nat)
    requires i < |rows|
    requires Tabulate(rows).Success? && j < |Tabulate(rows).value.headers|
    ensures var t := Tabulate(rows).value;
      |t.cells[i]| == |t.headers| &&
      (t.cells[i][j].None? <==> t.headers[j] !in rows[i].props) &&
      (t.cells[i][j].Some? ==> t.cells[i][j].value == rows[i].props[t.headers[j]])
  {
  }
}
