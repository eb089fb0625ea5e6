/**
 * The financial statements yfinance hands back, reduced to what the
 * valuation rules read: an ordered list of named rows (the DataFrame
 * index) and a number of period columns. A cell is `None` where pandas
 * holds NaN.
 */
module Frames {
  import opened Wrappers

  /** One line item of a statement: its label and one cell per period, newest first. */
  datatype Row = Row(name: string, cells: seq<Option<real>>)

  /** A statement: `columns` periods and the rows in index order. */
  datatype Frame = Frame(columns: nat, rows: seq<Row>) {
    /** `df.empty`: no row or no column. */
    predicate IsEmpty() {
      columns == 0 || rows == []
    }
  }

  /** The cell of `row` in period `j`; a short row reads as NaN. */
  function Cell(row: Row, j: nat): Option<real> {
    if j < |row.cells| then row.cells[j] else None
  }

  /** Position of the first row labelled `name`, if any. */
  function RowIndex(rows: seq<Row>, name: string): (r: Option<nat>)
    ensures r.Some? ==> r.value < |rows| && rows[r.value].name == name
    ensures r.Some? ==> forall i :: 0 <= i < r.value ==> rows[i].name != name
    ensures r.None? ==> forall i :: 0 <= i < |rows| ==> rows[i].name != name
    decreases |rows|
  {
    if rows == [] then None
    else if rows[0].name == name then Some(0)
    else match RowIndex(rows[1..], name)
      case None => None
      case Some(k) => Some(k + 1)
  }

  /** `name in df.index` */
  predicate Has(f: Frame, name: string) {
    RowIndex(f.rows, name).Some?
  }

  /** `df.loc[name, period]` read through `pd.notna`: `None` when the row is missing or the cell is NaN. */
  function At(f: Frame, name: string, j: nat): Option<real> {
    match RowIndex(f.rows, name)
      case None => None
      case Some(i) => Cell(f.rows[i], j)
  }

  /** What `float(df.loc[name].iloc[0])` finds: no such row, a number, or NaN. */
  datatype Lookup = Missing | Found(v: real) | NotANumber {
    /** The value found, or `default` when the row is missing (NaN has no value). */
    function Or(default: real): real {
      if Found? then v else default
    }
  }

  /** The latest-period value of the row labelled `name`. */
  function Latest(f: Frame, name: string): (r: Lookup)
    ensures r.Missing? <==> !Has(f, name)
  {
    match RowIndex(f.rows, name)
      case None => Missing
      case Some(i) => match Cell(f.rows[i], 0)
        case None => NotANumber
        case Some(x) => Found(x)
  }
}
