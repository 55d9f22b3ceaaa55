/**
 * The tabular decoder of the import modal (parseFile): from the grid of cells the
 * spreadsheet reader yields (first row the headers) to the row records the validator
 * and the mapper read. Reading the file and the workbook is foreign; the model starts
 * from the grid.
 */
module Decoder {
  import opened Values
  import opened Cells

  type Grid = seq<seq<Cell>>

  /** One decoded data row: header to cell, and the row number used in messages. */
  datatype Row = Row(fields: map<string, Cell>, originalIndex: nat)

  datatype DecodeError = TooFewRows

  /** A cell the blank-row filter treats as empty: undefined or the empty string. */
  predicate IsEmptyCell(c: Cell) {
    c == Undefined || c == Str("")
  }

  predicate HasContent(cells: seq<Cell>) {
    exists j :: 0 <= j < |cells| && !IsEmptyCell(cells[j])
  }

  /** The rows that have content, in their original order. */
  function KeepWithContent(rows: Grid): (kept: Grid)
    ensures |kept| <= |rows|
    ensures forall k :: 0 <= k < |kept| ==> HasContent(kept[k])
    decreases |rows|
  {
    if |rows| == 0 then []
    else
      var kept := KeepWithContent(rows[..|rows| - 1]);
      if HasContent(rows[|rows| - 1]) then kept + [rows[|rows| - 1]] else kept
  }

  /** The positions of the rows that have content, strictly increasing: a position is
      listed exactly when its row has content. */
  function ContentPositions(rows: Grid): (ps: seq<nat>)
    ensures forall k :: 0 <= k < |ps| ==> ps[k] < |rows| && HasContent(rows[ps[k]])
    ensures forall k, l :: 0 <= k < l < |ps| ==> ps[k] < ps[l]
    ensures forall i :: 0 <= i < |rows| && HasContent(rows[i]) ==> i in ps
    decreases |rows|
  {
    if |rows| == 0 then []
    else
      var ps := ContentPositions(rows[..|rows| - 1]);
      if HasContent(rows[|rows| - 1]) then ps + [|rows| - 1] else ps
  }

  /** The filter keeps exactly the rows with content, in order, and drops the others. */
  lemma {:induction false} KeptRowsAreContentRows(rows: Grid)
    ensures |KeepWithContent(rows)| == |ContentPositions(rows)|
    ensures forall k :: 0 <= k < |KeepWithContent(rows)| ==>
      KeepWithContent(rows)[k] == rows[ContentPositions(rows)[k]]
    decreases |rows|
  {
    if rows != [] {
      var init := rows[..|rows| - 1];
      KeptRowsAreContentRows(init);
      assert forall i :: 0 <= i < |init| ==> init[i] == rows[i];
    }
  }

  /** The key `rowData[header]` writes: a missing header cell is skipped by forEach. */
  function HeaderKey(host: Host, c: Cell): (k: Option<string>)
    ensures k.None? <==> c == Undefined
    ensures c.Str? ==> k == Some(c.s)
  {
    match c
    case Undefined => None
    case Str(s) => Some(s)
    case Num(x) => Some(host.numberText(x))
  }

  /** `row[colIndex] || ''`: a falsy or absent cell reads as the empty string. */
  function CellAt(cells: seq<Cell>, j: nat): (c: Cell)
    ensures Truthy(c) || c == Str("")
    ensures j < |cells| && Truthy(cells[j]) ==> c == cells[j]
    ensures !(j < |cells| && Truthy(cells[j])) ==> c == Str("")
  {
    if j < |cells| && Truthy(cells[j]) then cells[j] else Str("")
  }

  /** The record the first n headers build from one data row; a later header with the
      same key overwrites an earlier one. */
  function FieldsOf(host: Host, headers: seq<Cell>, cells: seq<Cell>, n: nat): (m: map<string, Cell>)
    requires n <= |headers|
    ensures forall key :: key in m ==> Truthy(m[key]) || m[key] == Str("")
    decreases n
  {
    if n == 0 then map[]
    else
      var m := FieldsOf(host, headers, cells, n - 1);
      match HeaderKey(host, headers[n - 1])
      case None => m
      case Some(k) => m[k := CellAt(cells, n - 1)]
  }

  /** The keys of a row are the keys of its headers. */
  lemma {:induction false} FieldKeys(host: Host, headers: seq<Cell>, cells: seq<Cell>, n: nat, key: string)
    requires n <= |headers|
    ensures key in FieldsOf(host, headers, cells, n) <==>
      exists j :: 0 <= j < n && HeaderKey(host, headers[j]) == Some(key)
    decreases n
  {
    if n > 0 {
      FieldKeys(host, headers, cells, n - 1, key);
      if HeaderKey(host, headers[n - 1]) == Some(key) {
        assert key in FieldsOf(host, headers, cells, n);
      } else if key in FieldsOf(host, headers, cells, n) {
        assert key in FieldsOf(host, headers, cells, n - 1);
      }
    }
  }

  /** Each key holds the cell in the column of the last header with that key. */
  lemma {:induction false} FieldAtColumn(host: Host, headers: seq<Cell>, cells: seq<Cell>, n: nat, j: nat)
    requires j < n <= |headers|
    requires HeaderKey(host, headers[j]).Some?
    requires forall l :: j < l < n ==> HeaderKey(host, headers[l]) != HeaderKey(host, headers[j])
    ensures HeaderKey(host, headers[j]).value in FieldsOf(host, headers, cells, n)
    ensures FieldsOf(host, headers, cells, n)[HeaderKey(host, headers[j]).value] == CellAt(cells, j)
    decreases n
  {
    if j < n - 1 {
      FieldAtColumn(host, headers, cells, n - 1, j);
    }
  }

  /** Builds one row record the way `headers.forEach` does, header by header. */
  method BuildRow(host: Host, headers: seq<Cell>, cells: seq<Cell>) returns (fields: map<string, Cell>)
    ensures fields == FieldsOf(host, headers, cells, |headers|)
  {
    fields := map[];
    var col := 0;
    while col < |headers|
      invariant col <= |headers|
      invariant fields == FieldsOf(host, headers, cells, col)
    {
      match HeaderKey(host, headers[col]) {
        case None =>
        case Some(k) => fields := fields[k := CellAt(cells, col)];
      }
      col := col + 1;
    }
  }

  /** The decoded rows of a grid that has a header row and at least one more row. */
  function NumberRows(host: Host, headers: seq<Cell>, kept: Grid): (rows: seq<Row>)
    ensures |rows| == |kept|
    ensures forall k :: 0 <= k < |kept| ==>
      rows[k].originalIndex == k + 2 && rows[k].fields == FieldsOf(host, headers, kept[k], |headers|)
  {
    seq(|kept|, k requires 0 <= k < |kept| => Row(FieldsOf(host, headers, kept[k], |headers|), k + 2))
  }

  /** parseFile on a grid: fewer than two rows is an error; otherwise the rows with
      content, each numbered by its position after filtering plus two. */
  function Decode(host: Host, grid: Grid): (r: Result<seq<Row>, DecodeError>)
    ensures r.Failure? <==> |grid| < 2
    ensures r.Success? ==> |r.value| < |grid| && forall k :: 0 <= k < |r.value| ==> r.value[k].originalIndex == k + 2
  {
    if |grid| < 2 then Failure(TooFewRows)
    else Success(NumberRows(host, grid[0], KeepWithContent(grid[1..])))
  }

  /** What decoding promises: rejection of short grids, one row per data row with
      content and in the same order, the cells under their headers, and row numbers
      consecutive from 2 that never exceed the row's position in the file. */
  lemma DecodeSpec(host: Host, grid: Grid)
    ensures Decode(host, grid).Failure? <==> |grid| < 2
    ensures Decode(host, grid).Success? ==>
      var rows := Decode(host, grid).value;
      var ps := ContentPositions(grid[1..]);
      && |rows| == |ps|
      && (forall k :: 0 <= k < |rows| ==>
            rows[k].fields == FieldsOf(host, grid[0], grid[1 + ps[k]], |grid[0]|)
            && rows[k].originalIndex == k + 2
            && rows[k].originalIndex <= ps[k] + 2)
      && (forall i :: 1 <= i < |grid| ==> (HasContent(grid[i]) <==> i - 1 in ps))
  {
    if |grid| >= 2 {
      var data := grid[1..];
      var ps := ContentPositions(data);
      KeptRowsAreContentRows(data);
      forall k | 0 <= k < |ps| ensures k <= ps[k] {
        PositionsAtLeastIndex(ps, k);
      }
      forall i | 1 <= i < |grid| ensures HasContent(grid[i]) <==> i - 1 in ps {
        assert grid[i] == data[i - 1];
      }
    }
  }

  /** In a strictly increasing sequence of naturals, the k-th element is at least k. */
  lemma {:induction false} PositionsAtLeastIndex(ps: seq<nat>, k: nat)
    requires k < |ps|
    requires forall a, b :: 0 <= a < b < |ps| ==> ps[a] < ps[b]
    ensures k <= ps[k]
  {
    if k > 0 {
      PositionsAtLeastIndex(ps, k - 1);
    }
  }

  /** parseFile: the grid is filtered, then each kept row is built and numbered. */
  method ParseFile(host: Host, grid: Grid) returns (r: Result<seq<Row>, DecodeError>)
    ensures r == Decode(host, grid)
  {
    if |grid| < 2 {
      return Failure(TooFewRows);
    }
    var headers := grid[0];
    var kept := KeepWithContent(grid[1..]);
    var rows: seq<Row> := [];
    var index := 0;
    while index < |kept|
      invariant index <= |kept|
      invariant |rows| == index
      invariant forall k :: 0 <= k < index ==>
        rows[k] == Row(FieldsOf(host, headers, kept[k], |headers|), k + 2)
    {
      var fields := BuildRow(host, headers, kept[index]);
      rows := rows + [Row(fields, index + 2)];
      index := index + 1;
    }
    assert rows == NumberRows(host, headers, kept);
    r := Success(rows);
  }

  /** A blank row between the header and a data row does not shift the data row's
      number: the row in the third line of the file is reported as row 2. */
  lemma NumberingSkipsDroppedRows(host: Host)
    ensures var grid := [[Str("Name*")], [Undefined, Str("")], [Str("Museum")]];
      && Decode(host, grid).Success?
      && |Decode(host, grid).value| == 1
      && Decode(host, grid).value[0].originalIndex == 2
      && Decode(host, grid).value[0].fields == map["Name*" := Str("Museum")]
  {
    var grid := [[Str("Name*")], [Undefined, Str("")], [Str("Museum")]];
    assert !HasContent(grid[1]);
    assert HasContent(grid[2]) by { assert !IsEmptyCell(grid[2][0]); }
    var data := grid[1..];
    assert data[..1] == [grid[1]];
    assert KeepWithContent(data[..1]) == [] by {
      assert data[..1][..0] == [];
    }
  }
}
