/** A pandas DataFrame at the level the client depends on: an ordered list
    of column names and a list of rows, each row a record from column name
    to cell.  A cell that a row lacks is missing (pandas shows NaN). */
module Tables {
  import opened Basics
  import opened Dicts
  import opened Json

  type Record = Dict<Json>

  datatype Table = Table(columns: seq<string>, rows: seq<Record>)

  /** `pd.DataFrame()`. */
  const EmptyTable := Table([], [])

  /** `df.empty`: pandas calls a frame empty when either axis has length zero. */
  predicate IsEmpty(t: Table)
  {
    |t.rows| == 0 || |t.columns| == 0
  }

  /** Distinct column names, and every key of every row is a column. */
  predicate WellFormed(t: Table)
  {
    && Distinct(t.columns)
    && forall i, k :: 0 <= i < |t.rows| && k in Keys(t.rows[i]) ==> k in t.columns
  }

  /** Appends the keys of `ks` not yet in `acc`, in first-seen order. */
  function AddColumns(acc: seq<string>, ks: seq<string>): (r: seq<string>)
    requires Distinct(acc)
    ensures Distinct(r)
    ensures |acc| <= |r| && r[..|acc|] == acc
    ensures forall c :: c in r <==> c in acc || c in ks
    decreases |ks|
  {
    if ks == [] then acc
    else
      var acc' := if ks[0] in acc then acc else acc + [ks[0]];
      var r := AddColumns(acc', ks[1..]);
      assert r[..|acc|] == r[..|acc'|][..|acc|];
      assert ks == [ks[0]] + ks[1..];
      r
  }

  /** The column list pandas builds from a list of records: the union of
      their keys in first-seen order. */
  function ColumnsOf(records: seq<Record>): (cols: seq<string>)
    ensures Distinct(cols)
    ensures forall c :: c in cols <==> exists i :: 0 <= i < |records| && c in Keys(records[i])
  {
    if records == [] then []
    else
      var front := ColumnsOf(records[..|records| - 1]);
      var last := records[|records| - 1];
      var cols := AddColumns(front, Keys(last));
      assert forall i :: 0 <= i < |records| - 1 ==> records[..|records| - 1][i] == records[i];
      cols
  }

  /** `pd.DataFrame(records)` for a list of dicts. */
  function FromRecords(records: seq<Record>): (t: Table)
    ensures t.rows == records
    ensures WellFormed(t)
    ensures forall c :: c in t.columns <==> exists i :: 0 <= i < |records| && c in Keys(records[i])
  {
    Table(ColumnsOf(records), records)
  }

  /** `pd.DataFrame({column: [value]})`: one column, one row. */
  function SingleCell(column: string, value: Json): (t: Table)
    ensures t.columns == [column] && |t.rows| == 1 && Get(t.rows[0], column) == Some(value)
    ensures WellFormed(t)
  {
    Table([column], [[(column, value)]])
  }
}
