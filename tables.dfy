/**
 * The table a DataCleaner works on: a pandas DataFrame reduced to an ordered
 * list of named, typed columns and a list of rows holding one cell per column.
 */
module Tables {
  /** The dtype pandas gives a column: `object` (text or mixed values), a numeric dtype, or datetime64. */
  datatype Kind = Object | Numeric | Temporal

  /**
   * One cell. Null stands for every missing marker (None, NaN, NaT); a date is a
   * timestamp counted in nanoseconds since the epoch, as datetime64[ns] stores it.
   */
  datatype Cell = Null | Num(value: real) | Text(text: string) | Date(stamp: int)

  datatype Column = Column(name: string, kind: Kind)

  type Row = seq<Cell>

  datatype Table = Table(columns: seq<Column>, rows: seq<Row>)

  /** A cell may sit in a column of the given kind: numeric and datetime columns hold only their own values or nulls. */
  predicate Fits(k: Kind, c: Cell) {
    match k
    case Object => true
    case Numeric => c.Null? || c.Num?
    case Temporal => c.Null? || c.Date?
  }

  predicate RowFits(columns: seq<Column>, row: Row) {
    |row| == |columns| && forall j :: 0 <= j < |row| ==> Fits(columns[j].kind, row[j])
  }

  /** Every row has one cell per column. */
  predicate Shaped(t: Table) {
    forall i :: 0 <= i < |t.rows| ==> |t.rows[i]| == |t.columns|
  }

  /** A well-formed frame: shaped, and every cell fits its column's dtype. */
  predicate Valid(t: Table) {
    forall i :: 0 <= i < |t.rows| ==> RowFits(t.columns, t.rows[i])
  }

  /** The values of column j, top to bottom. */
  function ColumnOf(t: Table, j: nat): seq<Cell>
    requires Shaped(t) && j < |t.columns|
  {
    seq(|t.rows|, i requires 0 <= i < |t.rows| => t.rows[i][j])
  }

  /** `df[col] = values`: column j gets a new dtype and new values; its name and every other column stay. */
  function SetColumn(t: Table, j: nat, kind: Kind, values: seq<Cell>): (r: Table)
    requires Shaped(t) && j < |t.columns| && |values| == |t.rows|
    ensures Shaped(r) && |r.columns| == |t.columns| && |r.rows| == |t.rows|
    ensures r.columns[j] == Column(t.columns[j].name, kind) && ColumnOf(r, j) == values
    ensures forall k :: 0 <= k < |t.columns| && k != j ==> r.columns[k] == t.columns[k] && ColumnOf(r, k) == ColumnOf(t, k)
  {
    Table(t.columns[j := Column(t.columns[j].name, kind)],
          seq(|t.rows|, i requires 0 <= i < |t.rows| => t.rows[i][j := values[i]]))
  }
}
