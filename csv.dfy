/**
 * The mapping table after parsing: an ordered list of rows, each an ordered list of
 * (column, value) cells in header order. This module selects the row for a label
 * and derives the project keys from it, as `main` in index.js does.
 */
module Csv {
  import opened Js

  datatype Cell = Cell(column: string, value: string)

  /** One parsed CSV record; as a JavaScript object its keys are the header's columns, in order. */
  type Row = seq<Cell>

  /**
   * `Object.keys(row)`: the row's column names in header order. The keys are exactly
   * the names under which a lookup finds a cell.
   */
  function Columns(row: Row): (r: seq<string>)
    ensures |r| == |row|
    ensures forall c :: c in r <==> Lookup(row, c).Some?
  {
    var r := seq(|row|, i requires 0 <= i < |row| => row[i].column);
    assert forall c :: c in r <==> exists i :: 0 <= i < |row| && row[i].column == c by {
      forall c | c in r ensures exists i :: 0 <= i < |row| && row[i].column == c {
        var i :| 0 <= i < |r| && r[i] == c;
        assert row[i].column == c;
      }
      forall i | 0 <= i < |row| ensures row[i].column in r {
        assert r[i] == row[i].column;
      }
    }
    r
  }

  /** `row[column]`: the value of the first cell with that column, `undefined` if there is none. */
  function Lookup(row: Row, column: string): (r: Option<string>)
    ensures r.None? <==> forall i :: 0 <= i < |row| ==> row[i].column != column
    ensures r.Some? ==> exists i :: 0 <= i < |row| && row[i].column == column && row[i].value == r.value
                                    && forall j :: 0 <= j < i ==> row[j].column != column
  {
    match Find(row, (c: Cell) => c.column == column)
    case None => None
    case Some(i) =>
      assert IsFirst(row, (c: Cell) => c.column == column, i);
      Some(row[i].value)
  }

  /** The label-column test of the row selection: the cell is present and equal to the label. */
  predicate MatchesLabel(row: Row, labelHeader: string, labelName: string) {
    Lookup(row, labelHeader) == Some(labelName)
  }

  /**
   * `csv.find((element) => element[labelHeader] == label)`: the first row, in file
   * order, whose label cell is exactly the label; `undefined` when no row has it.
   */
  function SelectRow(table: seq<Row>, labelHeader: string, labelName: string): (r: Option<Row>)
    ensures r.None? <==> forall i :: 0 <= i < |table| ==> !MatchesLabel(table[i], labelHeader, labelName)
    ensures r.Some? ==> exists i :: 0 <= i < |table| && r.value == table[i]
                                    && MatchesLabel(table[i], labelHeader, labelName)
                                    && forall j :: 0 <= j < i ==> !MatchesLabel(table[j], labelHeader, labelName)
  {
    match Find(table, (row: Row) => MatchesLabel(row, labelHeader, labelName))
    case None => None
    case Some(i) =>
      assert IsFirst(table, (row: Row) => MatchesLabel(row, labelHeader, labelName), i);
      Some(table[i])
  }

  /**
   * `Object.keys(csvLine).filter((key) => key != labelHeader)`: the row's columns in
   * their original order with every occurrence of the label column removed and no
   * other column dropped.
   */
  function ProjectKeys(row: Row, labelHeader: string): (r: seq<string>)
    ensures IsSubsequence(r, Columns(row))
    ensures labelHeader !in r
    ensures forall k :: k != labelHeader ==> multiset(r)[k] == multiset(Columns(row))[k]
  {
    var r := Filter(Columns(row), NotLabel(labelHeader));
    assert multiset(r)[labelHeader] == 0;
    r
  }

  /** The test `key != labelHeader` of the key derivation, and its negation. */
  function NotLabel(labelHeader: string): string -> bool {
    (key: string) => key != labelHeader
  }

  function IsLabel(labelHeader: string): string -> bool {
    (key: string) => key == labelHeader
  }

  /** No column name occurs twice in the row, as for any object built from a header. */
  predicate DistinctColumns(row: Row) {
    forall i, j :: 0 <= i < j < |row| ==> row[i].column != row[j].column
  }

  /** Columns of `keys` whose cell is filled in: `csvLine[field]` is truthy. */
  function FilledColumns(row: Row, keys: seq<string>): (r: seq<string>)
    ensures IsSubsequence(r, keys)
    ensures forall k :: k in r <==> k in keys && Truthy(Lookup(row, k))
  {
    var r := Filter(keys, Filled(row));
    assert forall k :: k in r <==> multiset(r)[k] > 0;
    assert forall k :: k in keys <==> multiset(keys)[k] > 0;
    r
  }

  /**
   * Each key is kept by `FilledColumns` exactly as often as it occurs in `keys` when
   * its cell is filled, and never otherwise.
   */
  lemma FilledColumnsCount(row: Row, keys: seq<string>)
    ensures forall k :: multiset(FilledColumns(row, keys))[k] == if Truthy(Lookup(row, k)) then multiset(keys)[k] else 0
  {
    assert FilledColumns(row, keys) == Filter(keys, Filled(row));
  }

  /** Columns of `keys` whose cell is empty: these leave their field unchanged. */
  function EmptyColumns(row: Row, keys: seq<string>): seq<string> {
    Filter(keys, Empty(row))
  }

  /** The test `if (fieldOption)` on the cell of a column, and its negation. */
  function Filled(row: Row): string -> bool {
    (k: string) => Truthy(Lookup(row, k))
  }

  function Empty(row: Row): string -> bool {
    (k: string) => !Truthy(Lookup(row, k))
  }

  /**
   * In a row whose columns are distinct and include the label column, the project
   * keys are all other columns, and the filled ones number the columns minus one
   * minus the empty non-label columns.
   */
  lemma PlanSize(row: Row, labelHeader: string)
    requires DistinctColumns(row)
    requires Lookup(row, labelHeader).Some?
    ensures |ProjectKeys(row, labelHeader)| == |row| - 1
    ensures var keys := ProjectKeys(row, labelHeader);
            |FilledColumns(row, keys)| == |row| - 1 - |EmptyColumns(row, keys)|
  {
    FilterPartition(Columns(row), NotLabel(labelHeader), IsLabel(labelHeader));
    LabelColumnOnce(row, labelHeader);
    FilterPartition(ProjectKeys(row, labelHeader), Filled(row), Empty(row));
  }

  /** With distinct columns, the label column is kept exactly once by the test `key == labelHeader`. */
  lemma LabelColumnOnce(row: Row, labelHeader: string)
    requires DistinctColumns(row)
    requires Lookup(row, labelHeader).Some?
    ensures |Filter(Columns(row), IsLabel(labelHeader))| == 1
  {
    var labelCells := Filter(Columns(row), IsLabel(labelHeader));
    var i :| 0 <= i < |row| && row[i].column == labelHeader;
    LabelCount(row, labelHeader, i);
    assert multiset(labelCells) == multiset{labelHeader};
  }

  /** A column that occurs at one index of a row with distinct columns occurs exactly once. */
  lemma {:induction false} LabelCount(row: Row, column: string, i: nat)
    requires DistinctColumns(row)
    requires i < |row| && row[i].column == column
    ensures multiset(Columns(row))[column] == 1
    decreases |row|
  {
    var n := |row| - 1;
    assert Columns(row) == Columns(row[..n]) + [row[n].column];
    if i == n {
      assert column !in Columns(row[..n]);
    } else {
      LabelCount(row[..n], column, i);
    }
  }
}
