/**
 The well table as the loader handles it: an ordered list of column names and
 rows of cells matched to the columns by position, as `pandas.read_csv`
 builds it, and the list of per-row records `DataFrame.to_dict('records')`
 turns it into.
 */
module Frames {

  /** One cell: a number, a piece of text, or a missing value (NaN). */
  datatype Value = Num(x: real) | Str(s: string) | Missing

  /** Column names and rows, each row holding one cell per column. */
  datatype Frame = Frame(columns: seq<string>, rows: seq<seq<Value>>)

  predicate WellFormed(f: Frame) {
    forall r | 0 <= r < |f.rows| :: |f.rows[r]| == |f.columns|
  }

  // ---------------------------------------------------------------------------
  // `to_dict('records')`.
  // ---------------------------------------------------------------------------

  /** No column after `j` carries the same name, so `j`'s cell is the one a
      record keeps for that name. */
  predicate IsLast(cols: seq<string>, j: int)
    requires 0 <= j < |cols|
  {
    forall k | j < k < |cols| :: cols[k] != cols[j]
  }

  /** One row as a dictionary, built like `dict(zip(columns, row))`: when two
      columns share a name the later one wins. */
  function Record(cols: seq<string>, row: seq<Value>): (m: map<string, Value>)
    requires |cols| == |row|
    ensures forall c :: c in m <==> c in cols
    decreases |cols|
  {
    if |cols| == 0 then map[]
    else
      var n := |cols| - 1;
      assert forall c :: c in cols <==> c in cols[..n] || c == cols[n];
      Record(cols[..n], row[..n])[cols[n] := row[n]]
  }

  /** The record keeps, for each name, the cell of the last column carrying
      it. */
  lemma {:induction false} RecordLastWins(cols: seq<string>, row: seq<Value>, j: nat)
    requires |cols| == |row| && j < |cols| && IsLast(cols, j)
    ensures Record(cols, row)[cols[j]] == row[j]
    decreases |cols|
  {
    var n := |cols| - 1;
    if j < n {
      assert cols[..n][j] == cols[j] && row[..n][j] == row[j];
      assert IsLast(cols[..n], j);
      RecordLastWins(cols[..n], row[..n], j);
    }
  }

  /** The records of a table, one per row. */
  function Records(f: Frame): seq<map<string, Value>>
    requires WellFormed(f)
  {
    seq(|f.rows|, i requires 0 <= i < |f.rows| => Record(f.columns, f.rows[i]))
  }

  /** `to_dict('records')` gives one record per row, in row order; every
      record has exactly the table's column names as keys, and a name that
      occurs once maps to that row's cell in its column. */
  lemma RecordsAreRows(f: Frame)
    requires WellFormed(f)
    ensures |Records(f)| == |f.rows|
    ensures forall i, c | 0 <= i < |f.rows| :: c in Records(f)[i] <==> c in f.columns
    ensures forall i, j | 0 <= i < |f.rows| && 0 <= j < |f.columns| && IsLast(f.columns, j) ::
              Records(f)[i][f.columns[j]] == f.rows[i][j]
  {
    forall i, j | 0 <= i < |f.rows| && 0 <= j < |f.columns| && IsLast(f.columns, j)
      ensures Records(f)[i][f.columns[j]] == f.rows[i][j]
    {
      RecordLastWins(f.columns, f.rows[i], j);
    }
  }

  /** With distinct column names, the record of a row determines the row:
      reading the columns back out of the record gives the row again. */
  lemma RecordKeepsRow(cols: seq<string>, row: seq<Value>)
    requires |cols| == |row|
    requires forall j, k | 0 <= j < k < |cols| :: cols[j] != cols[k]
    ensures forall j | 0 <= j < |cols| :: Record(cols, row)[cols[j]] == row[j]
  {
    forall j | 0 <= j < |cols| ensures Record(cols, row)[cols[j]] == row[j] {
      RecordLastWins(cols, row, j);
    }
  }

  // ---------------------------------------------------------------------------
  // `df[name] = v` for a column that is not there yet.
  // ---------------------------------------------------------------------------

  /** When `name` is not a column yet, append it with `v` in every row;
      otherwise leave the table as it is. */
  function AddIfAbsent(f: Frame, name: string, v: Value): (g: Frame)
    requires WellFormed(f)
    ensures WellFormed(g)
  {
    if name in f.columns then f
    else Frame(f.columns + [name], seq(|f.rows|, i requires 0 <= i < |f.rows| => f.rows[i] + [v]))
  }

  /** After the default, every record has `name`; when it was missing, each
      record is the old one with `name` set to `v` and nothing else changed,
      and when it was present nothing changes at all. */
  lemma AddIfAbsentRecords(f: Frame, name: string, v: Value)
    requires WellFormed(f)
    ensures name in AddIfAbsent(f, name, v).columns
    ensures |Records(AddIfAbsent(f, name, v))| == |Records(f)|
    ensures forall i | 0 <= i < |f.rows| ::
              Records(AddIfAbsent(f, name, v))[i]
              == if name in f.columns then Records(f)[i] else Records(f)[i][name := v]
  {
    if name !in f.columns {
      var g := AddIfAbsent(f, name, v);
      forall i | 0 <= i < |f.rows|
        ensures Records(g)[i] == Records(f)[i][name := v]
      {
        var n := |f.columns|;
        assert g.columns[..n] == f.columns;
        assert g.rows[i][..n] == f.rows[i];
      }
    }
  }
}
