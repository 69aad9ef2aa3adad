/** The sidebar filters: the options offered for each dimension
    (app.py:54-75) and the three "All"-sentinel restrictions
    (app.py:80-89). */
module Filters {
  import opened Seqs
  import opened StringOrder
  import opened Table

  /** The sentinel option meaning "no restriction on this dimension". */
  const All: string := "All"

  datatype Dimension = Month | Gender | State

  /** The column a dimension reads: `month`, `sex_of_infant` or
      `state_of_residence`. */
  function ValueOf(row: Row, d: Dimension): Option<string> {
    match d
    case Month => row.month
    case Gender => row.gender
    case State => row.state
  }

  /** What the three multiselects returned. */
  datatype Selections = Selections(months: seq<string>, genders: seq<string>, states: seq<string>)

  function Chosen(sels: Selections, d: Dimension): seq<string> {
    match d
    case Month => sels.months
    case Gender => sels.genders
    case State => sels.states
  }

  // ---------------------------------------------------------------------
  // Options (multiselect_with_all)
  // ---------------------------------------------------------------------

  /** `df[col].dropna()`: the values of the non-null cells of a column. */
  function NonNull(cells: seq<Option<string>>): (r: seq<string>)
    ensures forall v :: v in r <==> Some(v) in cells
  {
    if cells == [] then []
    else
      var rest := NonNull(cells[1..]);
      assert forall c :: c in cells <==> c == cells[0] || c in cells[1..] by {
        assert cells == [cells[0]] + cells[1..];
      }
      if cells[0].Some? then [cells[0].value] + rest else rest
  }

  function Column(rows: seq<Row>, d: Dimension): (cells: seq<Option<string>>)
    ensures |cells| == |rows|
    ensures forall i :: 0 <= i < |rows| ==> cells[i] == ValueOf(rows[i], d)
  {
    seq(|rows|, i requires 0 <= i < |rows| => ValueOf(rows[i], d))
  }

  /** `["All"] + sorted(df[col].dropna().unique())`: the sentinel first, then
      every distinct non-null value of the column once, in ascending order. */
  function OptionsFor(cells: seq<Option<string>>): (options: seq<string>)
    ensures |options| >= 1 && options[0] == All
    ensures StrictlyAscending(options[1..])
    ensures forall v :: v in options[1..] <==> Some(v) in cells
  {
    [All] + SortStrings(Unique(NonNull(cells)))
  }

  /** The options of one multiselect (app.py:62-75): "All", then exactly
      the values some row holds in the dimension. */
  function DimensionOptions(rows: seq<Row>, d: Dimension): (options: seq<string>)
    ensures |options| >= 1 && options[0] == All
    ensures forall v :: v in options[1..] <==> exists i :: 0 <= i < |rows| && ValueOf(rows[i], d) == Some(v)
  {
    var cells := Column(rows, d);
    assert forall v :: Some(v) in cells <==> exists i :: 0 <= i < |rows| && ValueOf(rows[i], d) == Some(v) by {
      forall v | Some(v) in cells ensures exists i :: 0 <= i < |rows| && ValueOf(rows[i], d) == Some(v) {
        var i :| 0 <= i < |cells| && cells[i] == Some(v);
      }
    }
    OptionsFor(cells)
  }

  // ---------------------------------------------------------------------
  // Filtering
  // ---------------------------------------------------------------------

  /** Whether a selection lets a cell through: any selection holding "All"
      does; otherwise the cell must be non-null and selected. */
  predicate Admits(sel: seq<string>, v: Option<string>) {
    All in sel || (v.Some? && v.value in sel)
  }

  /** `rows[rows[col].isin(sel)]`: NaN is never in `sel`. */
  function IsIn(rows: seq<Row>, d: Dimension, sel: seq<string>): (r: seq<Row>)
    ensures SubseqOf(r, rows)
    ensures forall row :: row in r <==> row in rows && ValueOf(row, d).Some? && ValueOf(row, d).value in sel
    ensures sel == [] ==> r == []
  {
    if rows == [] then []
    else
      var rest := IsIn(rows[1..], d, sel);
      assert forall row :: row in rows <==> row == rows[0] || row in rows[1..] by {
        assert rows == [rows[0]] + rows[1..];
      }
      if ValueOf(rows[0], d).Some? && ValueOf(rows[0], d).value in sel then [rows[0]] + rest else rest
  }

  /** One step of app.py:82-89: restrict only when "All" is not selected. */
  function ApplyFilter(rows: seq<Row>, d: Dimension, sel: seq<string>): (r: seq<Row>)
    ensures SubseqOf(r, rows)
    ensures All in sel ==> r == rows
  {
    SubseqOfSelf(rows);
    if All !in sel then IsIn(rows, d, sel) else rows
  }

  /** A row passes every dimension in `ds`. */
  predicate PassesOn(row: Row, sels: Selections, ds: set<Dimension>) {
    forall d :: d in ds ==> Admits(Chosen(sels, d), ValueOf(row, d))
  }

  /** Reference definition: the rows that pass every dimension in `ds`, in
      their original order. */
  function PassingOn(rows: seq<Row>, sels: Selections, ds: set<Dimension>): (r: seq<Row>)
    ensures NumericBirths(rows) ==> NumericBirths(r)
  {
    if rows == [] then []
    else if PassesOn(rows[0], sels, ds) then [rows[0]] + PassingOn(rows[1..], sels, ds)
    else PassingOn(rows[1..], sels, ds)
  }

  const Dimensions: set<Dimension> := {Month, Gender, State}

  /** The rows that pass all three filters. */
  function Passing(rows: seq<Row>, sels: Selections): (r: seq<Row>)
    ensures NumericBirths(rows) ==> NumericBirths(r)
  {
    PassingOn(rows, sels, Dimensions)
  }

  /** No dimension restricts nothing. */
  lemma {:induction false} PassingOnNone(rows: seq<Row>, sels: Selections)
    ensures PassingOn(rows, sels, {}) == rows
  {
    if rows != [] {
      PassingOnNone(rows[1..], sels);
    }
  }

  /** One filter step on top of some others adds its dimension to the
      conjunction. */
  lemma {:induction false} ApplyFilterExtends(rows: seq<Row>, sels: Selections, ds: set<Dimension>, d: Dimension)
    ensures ApplyFilter(PassingOn(rows, sels, ds), d, Chosen(sels, d)) == PassingOn(rows, sels, ds + {d})
  {
    var sel := Chosen(sels, d);
    if All in sel {
      ApplyFilterAllIsIdentity(rows, sels, ds, d);
    } else if rows != [] {
      ApplyFilterExtends(rows[1..], sels, ds, d);
    }
  }

  /** With "All" selected for `d`, adding `d` to the conjunction is a no-op. */
  lemma {:induction false} ApplyFilterAllIsIdentity(rows: seq<Row>, sels: Selections, ds: set<Dimension>, d: Dimension)
    requires All in Chosen(sels, d)
    ensures PassingOn(rows, sels, ds) == PassingOn(rows, sels, ds + {d})
  {
    if rows != [] {
      ApplyFilterAllIsIdentity(rows[1..], sels, ds, d);
      assert PassesOn(rows[0], sels, ds) <==> PassesOn(rows[0], sels, ds + {d});
    }
  }

  /** A selection holding "All" leaves the table unchanged, whatever else is
      selected; any other selection keeps exactly the rows whose value is
      selected, so an empty selection keeps none. */
  lemma FilterSemantics(rows: seq<Row>, d: Dimension, sel: seq<string>)
    ensures All in sel ==> ApplyFilter(rows, d, sel) == rows
    ensures All !in sel ==> forall row :: row in ApplyFilter(rows, d, sel) <==>
              row in rows && ValueOf(row, d).Some? && ValueOf(row, d).value in sel
    ensures sel == [] ==> ApplyFilter(rows, d, sel) == []
    ensures SubseqOf(ApplyFilter(rows, d, sel), rows)
  {
    SubseqOfSelf(rows);
  }

  /** Any two filter steps commute. */
  lemma FiltersCommute(rows: seq<Row>, sels: Selections, d1: Dimension, d2: Dimension)
    ensures ApplyFilter(ApplyFilter(rows, d1, Chosen(sels, d1)), d2, Chosen(sels, d2))
         == ApplyFilter(ApplyFilter(rows, d2, Chosen(sels, d2)), d1, Chosen(sels, d1))
  {
    PassingOnNone(rows, sels);
    ApplyFilterExtends(rows, sels, {}, d1);
    ApplyFilterExtends(rows, sels, {d1}, d2);
    ApplyFilterExtends(rows, sels, {}, d2);
    ApplyFilterExtends(rows, sels, {d2}, d1);
    assert {} + {d1} == {d1} && {} + {d2} == {d2};
    assert {d1} + {d2} == {d2} + {d1};
  }

  /** The filtered table is a subsequence of the table, and holds exactly
      the rows admitted on all three dimensions. */
  lemma {:induction false} PassingIsSubsequence(rows: seq<Row>, sels: Selections)
    ensures SubseqOf(Passing(rows, sels), rows)
    ensures forall row :: row in Passing(rows, sels) <==>
              (row in rows && Admits(sels.months, row.month) && Admits(sels.genders, row.gender) && Admits(sels.states, row.state))
  {
    if rows != [] {
      PassingIsSubsequence(rows[1..], sels);
      assert rows == [rows[0]] + rows[1..];
      assert PassesOn(rows[0], sels, Dimensions) <==>
        Admits(sels.months, rows[0].month) && Admits(sels.genders, rows[0].gender) && Admits(sels.states, rows[0].state);
    }
  }

  /** "All" selected everywhere leaves the cleaned table as it is. */
  lemma AllSelectedKeepsEverything(rows: seq<Row>, sels: Selections)
    requires All in sels.months && All in sels.genders && All in sels.states
    ensures Passing(rows, sels) == rows
  {
    PassingOnNone(rows, sels);
    ApplyFilterAllIsIdentity(rows, sels, {}, Month);
    ApplyFilterAllIsIdentity(rows, sels, {Month}, Gender);
    ApplyFilterAllIsIdentity(rows, sels, {Month, Gender}, State);
    assert {} + {Month} == {Month} && {Month} + {Gender} == {Month, Gender};
    assert {Month, Gender} + {State} == Dimensions;
  }

  /** app.py:80-89: copy the table, then restrict it once per dimension
      whose selection does not hold "All". */
  method FilterTable(df: seq<Row>, sels: Selections) returns (filtered: seq<Row>)
    ensures filtered == Passing(df, sels)
  {
    filtered := df;
    PassingOnNone(df, sels);
    assert {} + {Month} == {Month} && {Month} + {Gender} == {Month, Gender};
    ApplyFilterExtends(df, sels, {}, Month);
    if All !in sels.months {
      filtered := IsIn(filtered, Month, sels.months);
    }
    ApplyFilterExtends(df, sels, {Month}, Gender);
    if All !in sels.genders {
      filtered := IsIn(filtered, Gender, sels.genders);
    }
    ApplyFilterExtends(df, sels, {Month, Gender}, State);
    if All !in sels.states {
      filtered := IsIn(filtered, State, sels.states);
    }
    assert {Month, Gender} + {State} == Dimensions;
  }

  /** An empty selection (no "All") keeps no row, unlike ["All"], which
      keeps every row. */
  lemma EmptySelectionKeepsNothing(rows: seq<Row>, sels: Selections, d: Dimension)
    requires Chosen(sels, d) == []
    ensures Passing(rows, sels) == []
  {
    PassingOnNone(rows, sels);
    ApplyFilterExtends(rows, sels, {}, d);
    assert {} + {d} == {d};
    EmptyFilterAbsorbs(rows, sels, {d}, Dimensions);
  }

  /** Once a dimension keeps nothing, adding dimensions keeps nothing. */
  lemma {:induction false} EmptyFilterAbsorbs(rows: seq<Row>, sels: Selections, ds: set<Dimension>, es: set<Dimension>)
    requires ds <= es && PassingOn(rows, sels, ds) == []
    ensures PassingOn(rows, sels, es) == []
  {
    if rows != [] {
      assert !PassesOn(rows[0], sels, ds);
      EmptyFilterAbsorbs(rows[1..], sels, ds, es);
    }
  }
}
