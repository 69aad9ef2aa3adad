/** The natality table and its cleaning: the `births` column is coerced to
    numbers (app.py:46) and the rows where that failed are dropped
    (app.py:47). */
module Table {
  import opened Seqs

  datatype Option<T> = None | Some(value: T)

  /** A `births` cell as the table holds it: missing (NaN), a number, or
      text that has not been converted yet. */
  datatype Cell = Null | Number(n: int) | Text(text: string)

  /** One row of the table, reduced to the columns the dashboard reads.
      A dimension cell is `None` when it is NaN. */
  datatype Row = Row(state: Option<string>, gender: Option<string>, month: Option<string>, births: Cell)

  /** The `births` column has a numeric dtype: no text is left in it. */
  predicate NumericBirths(rows: seq<Row>) {
    forall i :: 0 <= i < |rows| ==> !rows[i].births.Text?
  }

  /** `pd.to_numeric(..., errors="coerce")` on one cell: numbers stay,
      text becomes what `parse` reads from it, and text it cannot read
      becomes NaN. */
  function ToNumeric(c: Cell, parse: string -> Option<int>): (d: Cell)
    ensures !d.Text?
    ensures c.Number? ==> d == c
    ensures c.Null? ==> d.Null?
    ensures c.Text? ==> (d.Number? <==> parse(c.text).Some?)
    ensures c.Text? && parse(c.text).Some? ==> d == Number(parse(c.text).value)
  {
    match c
    case Null => Null
    case Number(n) => Number(n)
    case Text(t) => if parse(t).Some? then Number(parse(t).value) else Null
  }

  /** `df["births"] = pd.to_numeric(df["births"], errors="coerce")`:
      only the `births` column changes, and it becomes numeric. */
  function CoerceBirths(rows: seq<Row>, parse: string -> Option<int>): (r: seq<Row>)
    ensures |r| == |rows|
    ensures NumericBirths(r)
    ensures forall i :: 0 <= i < |rows| ==>
              r[i] == rows[i].(births := ToNumeric(rows[i].births, parse))
  {
    seq(|rows|, i requires 0 <= i < |rows| => rows[i].(births := ToNumeric(rows[i].births, parse)))
  }

  /** The number of rows whose `births` is a number. */
  function CountNumbers(rows: seq<Row>): (n: nat)
    ensures n <= |rows|
  {
    if rows == [] then 0
    else (if rows[0].births.Number? then 1 else 0) + CountNumbers(rows[1..])
  }

  /** `df.dropna(subset=["births"])`: keeps, in their order, exactly the
      rows whose `births` is not NaN. */
  function DropMissingBirths(rows: seq<Row>): (r: seq<Row>)
    requires NumericBirths(rows)
    ensures forall i :: 0 <= i < |r| ==> r[i].births.Number?
    ensures SubseqOf(r, rows)
    ensures forall row :: row in r <==> row in rows && row.births.Number?
    ensures |r| == CountNumbers(rows)
  {
    if rows == [] then []
    else
      var rest := DropMissingBirths(rows[1..]);
      assert forall row :: row in rows <==> row == rows[0] || row in rows[1..] by {
        assert rows == [rows[0]] + rows[1..];
      }
      if rows[0].births.Number? then [rows[0]] + rest else rest
  }

  /** The table the filters see: coerced, then cleaned. */
  function Cleaned(rows: seq<Row>, parse: string -> Option<int>): (r: seq<Row>)
    ensures NumericBirths(r)
  {
    DropMissingBirths(CoerceBirths(rows, parse))
  }

  /** A row survives cleaning exactly when its `births` was a number or
      text `parse` can read, and it survives with only `births` rewritten. */
  lemma CleanedRows(rows: seq<Row>, parse: string -> Option<int>, row: Row)
    ensures row in Cleaned(rows, parse) <==>
              exists i :: 0 <= i < |rows| && row == rows[i].(births := ToNumeric(rows[i].births, parse))
                          && (rows[i].births.Number? || (rows[i].births.Text? && parse(rows[i].births.text).Some?))
  {
    var coerced := CoerceBirths(rows, parse);
    if row in Cleaned(rows, parse) {
      var i :| 0 <= i < |coerced| && coerced[i] == row;
    }
  }
}
