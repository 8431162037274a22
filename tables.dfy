/**
 * The table a fetched JSON document becomes once it is normalised: an ordered
 * list of unique column names and a sequence of rows. The normalisation itself
 * and the cell types it infers belong to the data-frame library, so a table is
 * taken as given. Which columns carry a numeric dtype is recorded with it,
 * because that classification is the library's as well.
 */
module Tables {
  import opened Seqs

  /** One cell: missing (`None`, NaN or NaT), a number, text, a timestamp, or
      a nested JSON value kept whole. `int` stands for the numeric value; no
      arithmetic is done on it. */
  datatype Cell = Null | Number(value: int) | Text(text: string) | Timestamp(instant: int) | Raw(json: string)

  /** A row maps each column name to its cell. */
  type Row = map<string, Cell>

  /** The number of rows the preview shows (`head(50)`). */
  const PreviewLimit: nat := 50

  /** `numericDtype` is the set of columns the library reports as numeric. */
  datatype Table = Table(columns: seq<string>, numericDtype: set<string>, rows: seq<Row>) {

    function ColumnSet(): set<string> {
      set c | c in columns
    }

    /** Column names are unique and every row has a cell in exactly those columns. */
    predicate Valid() {
      NoDuplicates(columns) &&
      forall i :: 0 <= i < |rows| ==> rows[i].Keys == ColumnSet()
    }
  }

  function Min(a: int, b: int): int {
    if a <= b then a else b
  }

  /** The columns with a numeric dtype, in column order (`select_dtypes(include="number")`). */
  function NumericColumns(t: Table): (r: seq<string>)
    ensures IsSubsequence(r, t.columns)
    ensures forall c :: c in r <==> c in t.columns && c in t.numericDtype
  {
    var isNumeric := (c: string) => c in t.numericDtype;
    FilterIsSubsequence(t.columns, isNumeric);
    Filter(t.columns, isNumeric)
  }

  /** Every column in `axes` has a present cell in `row`. */
  predicate PresentIn(row: Row, axes: seq<string>) {
    forall c :: c in axes ==> c in row && row[c] != Null
  }

  /** The rows whose cells in `axes` are all present, in their original order
      and with every repetition kept (`dropna(subset=axes)`). */
  function DropNulls(rows: seq<Row>, axes: seq<string>): (r: seq<Row>)
    ensures IsSubsequence(r, rows)
    ensures forall row :: row in r <==> row in rows && PresentIn(row, axes)
    ensures forall row :: multiset(r)[row] == if PresentIn(row, axes) then multiset(rows)[row] else 0
  {
    var complete := (row: Row) => PresentIn(row, axes);
    FilterIsSubsequence(rows, complete);
    FilterMultiset(rows, complete);
    Filter(rows, complete)
  }

  /** A whole-column conversion such as `pd.to_datetime(series, errors="coerce")`:
      it returns one cell per input cell, and each result may depend on the
      whole column (the library infers one format for all of it). */
  type Converter = f: seq<Cell> -> seq<Cell> | forall cells :: |f(cells)| == |cells|
    witness (cells: seq<Cell>) => cells

  /** The cells of column `col`, one per row (`df[col]`). */
  function ColumnCells(rows: seq<Row>, col: string): seq<Cell> {
    seq(|rows|, i requires 0 <= i < |rows| => if col in rows[i] then rows[i][col] else Null)
  }

  /** `row` with its cell in `col`, if it has one, replaced by `c`. */
  function SetCell(row: Row, col: string, c: Cell): Row {
    if col in row then row[col := c] else row
  }

  /** The table after `df[col] = convert(df[col])`: the column's cells are
      replaced, row by row, by the converted column, and the column no longer
      has a numeric dtype. */
  function Coerce(t: Table, col: string, convert: Converter): (r: Table)
    ensures r.columns == t.columns && |r.rows| == |t.rows|
    ensures r.numericDtype == t.numericDtype - {col}
    ensures forall i :: 0 <= i < |t.rows| ==> r.rows[i].Keys == t.rows[i].Keys
    ensures forall i :: 0 <= i < |t.rows| && col in t.rows[i] ==>
      r.rows[i][col] == convert(ColumnCells(t.rows, col))[i]
    ensures forall i, c :: 0 <= i < |t.rows| && c in t.rows[i] && c != col ==> r.rows[i][c] == t.rows[i][c]
  {
    var converted := convert(ColumnCells(t.rows, col));
    t.(numericDtype := t.numericDtype - {col},
       rows := seq(|t.rows|, i requires 0 <= i < |t.rows| => SetCell(t.rows[i], col, converted[i])))
  }

  /** Coercing a column keeps a valid table valid. */
  lemma CoercePreservesValid(t: Table, col: string, convert: Converter)
    requires t.Valid()
    ensures Coerce(t, col, convert).Valid()
  {
  }

  /** After converting column `col`, `dropna` on `col` and `y` keeps a row
      exactly when both its cells are present. */
  lemma ConvertedRowsKept(t: Table, col: string, y: string, convert: Converter)
    requires t.Valid() && col in t.columns && y in t.columns
    ensures var rows := Coerce(t, col, convert).rows;
      forall i :: 0 <= i < |rows| ==>
        (rows[i] in DropNulls(rows, [col, y]) <==> rows[i][col] != Null && rows[i][y] != Null)
  {
    var rows := Coerce(t, col, convert).rows;
    var kept := DropNulls(rows, [col, y]);
    assert col in t.ColumnSet() && y in t.ColumnSet();
    forall i | 0 <= i < |rows|
      ensures rows[i] in kept <==> rows[i][col] != Null && rows[i][y] != Null
    {
      var r := rows[i];
      assert r.Keys == t.rows[i].Keys == t.ColumnSet();
      assert r in rows;
      assert PresentIn(r, [col, y]) <==> r[col] != Null && r[y] != Null;
    }
  }

  /** Each row kept after converting column `col` is an input row with its
      `col` cell replaced by the converted cell of that row. */
  lemma ConvertedRowsOrigin(t: Table, col: string, axes: seq<string>, convert: Converter)
    ensures forall p :: p in DropNulls(Coerce(t, col, convert).rows, axes) ==>
      (exists i :: 0 <= i < |t.rows| && p == SetCell(t.rows[i], col, convert(ColumnCells(t.rows, col))[i]))
  {
    var converted := convert(ColumnCells(t.rows, col));
    var rows := Coerce(t, col, convert).rows;
    forall p | p in DropNulls(rows, axes)
      ensures exists i :: 0 <= i < |t.rows| && p == SetCell(t.rows[i], col, converted[i])
    {
      var i :| 0 <= i < |rows| && rows[i] == p;
      assert rows[i] == SetCell(t.rows[i], col, converted[i]);
    }
  }

  /** The first `PreviewLimit` rows, in table order (`head(50)`). */
  function Preview(t: Table): (r: seq<Row>)
    ensures |r| == Min(PreviewLimit, |t.rows|)
    ensures r <= t.rows
  {
    t.rows[..Min(PreviewLimit, |t.rows|)]
  }
}
