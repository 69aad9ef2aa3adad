/** One run of the natality dashboard script, from the loaded table to the
    aggregated rows it charts. Each stage rebinds the table as app.py does;
    the run stops with a schema error (app.py:40-43) or with the
    "no data" warning (app.py:91-93), which are results here. */
module Dashboard {
  import opened StringOrder
  import opened Schema
  import opened Table
  import opened Filters
  import opened Aggregation

  /** The options of the three sidebar multiselects (app.py:62-75). */
  datatype Sidebar = Sidebar(months: seq<string>, genders: seq<string>, states: seq<string>)

  datatype Outcome =
    | SchemaError(missing: seq<string>)
    | NoData(sidebar: Sidebar)
    | Report(sidebar: Sidebar, groups: seq<Group>)

  function SidebarFor(df: seq<Row>): (sidebar: Sidebar)
    ensures |sidebar.months| >= 1 && sidebar.months[0] == All
    ensures |sidebar.genders| >= 1 && sidebar.genders[0] == All
    ensures |sidebar.states| >= 1 && sidebar.states[0] == All
    ensures forall v :: v in sidebar.months[1..] <==> exists i :: 0 <= i < |df| && ValueOf(df[i], Month) == Some(v)
    ensures forall v :: v in sidebar.genders[1..] <==> exists i :: 0 <= i < |df| && ValueOf(df[i], Gender) == Some(v)
    ensures forall v :: v in sidebar.states[1..] <==> exists i :: 0 <= i < |df| && ValueOf(df[i], State) == Some(v)
  {
    Sidebar(DimensionOptions(df, Month), DimensionOptions(df, Gender), DimensionOptions(df, State))
  }

  /** Runs the pipeline on a table whose header is `header`, with `parse`
      standing for `pd.to_numeric`'s reading of text and `sels` for what the
      user chose in the sidebar. */
  method Run(header: seq<string>, table: seq<Row>, parse: string -> Option<int>, sels: Selections)
    returns (out: Outcome)
    ensures out.SchemaError? <==> MissingFields(NormalizeColumns(header)) != {}
    ensures out.SchemaError? ==>
              StrictlyAscending(out.missing) &&
              forall f :: f in out.missing <==> f in MissingFields(NormalizeColumns(header))
    ensures !out.SchemaError? ==> out.sidebar == SidebarFor(Cleaned(table, parse))
    ensures out.NoData? <==> !out.SchemaError? && Passing(Cleaned(table, parse), sels) == []
    ensures out.Report? ==>
              var filtered := Passing(Cleaned(table, parse), sels);
              && filtered != []
              && out.groups == Aggregate(filtered)
              && Total(out.groups) == KeyedTotal(filtered)
  {
    var columns := NormalizeColumns(header);
    var missing := MissingFields(columns);
    if missing != {} {
      var names := SortedNames(missing);
      return SchemaError(names);
    }

    var df := CoerceBirths(table, parse);
    df := DropMissingBirths(df);

    var sidebar := SidebarFor(df);

    var filtered := FilterTable(df, sels);
    if filtered == [] {
      return NoData(sidebar);
    }

    var agg := Aggregate(filtered);
    AggregateTotal(filtered);
    return Report(sidebar, agg);
  }
}

/** What the empty-result gate guarantees about the aggregation. */
module Gate {
  import opened Table
  import opened Filters
  import opened Aggregation

  /** With both the gender and the state restricted, NaN keys cannot pass
      the filters, so a table that passes the gate (app.py:91) yields at
      least one group, and the groups carry all of its births. */
  lemma RestrictedKeysGiveGroups(rows: seq<Row>, sels: Selections)
    requires NumericBirths(rows)
    requires All !in sels.genders && All !in sels.states
    requires Passing(rows, sels) != []
    ensures |Aggregate(Passing(rows, sels))| > 0
    ensures Total(Aggregate(Passing(rows, sels))) == BirthsTotal(Passing(rows, sels))
  {
    var filtered := Passing(rows, sels);
    assert forall i :: 0 <= i < |filtered| ==> KeyOf(filtered[i]).Some? by {
      PassingIsSubsequence(rows, sels);
      forall i | 0 <= i < |filtered| ensures KeyOf(filtered[i]).Some? {
        assert filtered[i] in filtered;
      }
    }
    assert PresentKeys(filtered) != [] by {
      assert KeyOf(filtered[0]) == Some(KeyOf(filtered[0]).value);
    }
    AggregateTotal(filtered);
    KeyedTotalAllKeyed(filtered);
  }

  /** With "All" selected, a row with a NaN gender passes the filters and
      the gate, yet `groupby` drops it: the aggregation can be empty. */
  lemma UnkeyedRowPassesGate()
    ensures var rows := [Row(Some("CA"), None, Some("January"), Number(7))];
            var filtered := Passing(rows, Selections([All], [All], [All]));
            filtered != [] && Aggregate(filtered) == []
  {
    var rows := [Row(Some("CA"), None, Some("January"), Number(7))];
    AllSelectedKeepsEverything(rows, Selections([All], [All], [All]));
    assert PresentKeys(rows) == [];
  }
}

/** The worked examples of the dashboard's behaviour, computed by the model. */
module DashboardExamples {
  import opened Seqs
  import opened Sorting
  import opened StringOrder
  import opened Table
  import opened Filters
  import opened Aggregation

  function ExampleRow(state: string, gender: string, n: int): Row {
    Row(Some(state), Some(gender), Some("January"), Number(n))
  }

  function ExampleRows(): seq<Row> {
    [ExampleRow("CA", "M", 10), ExampleRow("CA", "F", 20), ExampleRow("NY", "M", 5)]
  }

  lemma ExamplePresentKeys()
    ensures PresentKeys(ExampleRows()) == [Key("CA", "M"), Key("CA", "F"), Key("NY", "M")]
  {
    var rows := ExampleRows();
    assert rows[1..][1..] == [rows[2]];
    assert rows[1..][1..][1..] == [];
  }

  lemma ExampleUnique()
    ensures Unique([Key("CA", "M"), Key("CA", "F"), Key("NY", "M")]) == [Key("CA", "M"), Key("CA", "F"), Key("NY", "M")]
  {
    var keys := [Key("CA", "M"), Key("CA", "F"), Key("NY", "M")];
    assert keys[..2] == [Key("CA", "M"), Key("CA", "F")] && keys[..2][..1] == [Key("CA", "M")];
  }

  lemma ExampleKeyComparisons()
    ensures KeyLe(Key("CA", "F"), Key("NY", "M"))
    ensures !KeyLe(Key("CA", "M"), Key("CA", "F"))
    ensures KeyLe(Key("CA", "M"), Key("NY", "M"))
  {
    assert LexLe("CA", "NY") && !LexLe("M", "F");
  }

  lemma ExampleSortTail()
    ensures IsTotalPreorder(KeyLe)
    ensures InsertionSort([Key("CA", "F"), Key("NY", "M")], KeyLe) == [Key("CA", "F"), Key("NY", "M")]
  {
    KeyLeIsTotalPreorder();
    ExampleKeyComparisons();
    var keys := [Key("CA", "F"), Key("NY", "M")];
    assert keys[1..] == [Key("NY", "M")] && keys[1..][1..] == [];
  }

  lemma ExampleInsertHead()
    ensures IsTotalPreorder(KeyLe) && SortedBy([Key("CA", "F"), Key("NY", "M")], KeyLe)
    ensures Insert(Key("CA", "M"), [Key("CA", "F"), Key("NY", "M")], KeyLe)
         == [Key("CA", "F"), Key("CA", "M"), Key("NY", "M")]
  {
    KeyLeIsTotalPreorder();
    ExampleKeyComparisons();
    assert [Key("CA", "F"), Key("NY", "M")][1..] == [Key("NY", "M")];
  }

  lemma ExampleKeyOrder()
    ensures GroupKeysSorted(ExampleRows()) == [Key("CA", "F"), Key("CA", "M"), Key("NY", "M")]
  {
    ExamplePresentKeys();
    ExampleUnique();
    ExampleSortTail();
    ExampleInsertHead();
    var keys := [Key("CA", "M"), Key("CA", "F"), Key("NY", "M")];
    assert keys[1..] == [Key("CA", "F"), Key("NY", "M")];
  }

  lemma ExampleSums()
    ensures GroupsFor(ExampleRows(), [Key("CA", "F"), Key("CA", "M"), Key("NY", "M")])
         == [Group("CA", "F", 20), Group("CA", "M", 10), Group("NY", "M", 5)]
  {
    var rows := ExampleRows();
    var keys := [Key("CA", "F"), Key("CA", "M"), Key("NY", "M")];
    assert rows[1..][1..] == [rows[2]];
    assert SumFor(rows, keys[0]) == 20 && SumFor(rows, keys[1]) == 10 && SumFor(rows, keys[2]) == 5;
    assert keys[1..][1..] == [keys[2]];
  }

  lemma ExampleStateOrder()
    ensures SortByState([Group("CA", "F", 20), Group("CA", "M", 10), Group("NY", "M", 5)])
         == [Group("CA", "F", 20), Group("CA", "M", 10), Group("NY", "M", 5)]
  {
    var groups := [Group("CA", "F", 20), Group("CA", "M", 10), Group("NY", "M", 5)];
    assert LexLe("CA", "CA") && LexLe("CA", "NY");
    StateLeIsTotalPreorder();
    assert groups[1..][1..] == [groups[2]];
    assert InsertionSort([groups[2]], StateLe) == [groups[2]];
    assert InsertionSort(groups[1..], StateLe) == groups[1..];
  }

  /** Three rows, every filter on "All": one group per (state, gender) pair,
      listed by state. */
  lemma ExampleAllSelected()
    ensures Aggregate(ExampleRows())
         == [Group("CA", "F", 20), Group("CA", "M", 10), Group("NY", "M", 5)]
  {
    ExampleKeyOrder();
    ExampleSums();
    ExampleStateOrder();
  }

  lemma ExampleStatePassing()
    ensures Passing(ExampleRows(), Selections([All], [All], ["CA"])) == ExampleRows()[..2]
  {
    var rows := ExampleRows();
    var sels := Selections([All], [All], ["CA"]);
    assert PassesOn(rows[0], sels, Dimensions) && PassesOn(rows[1], sels, Dimensions);
    assert !PassesOn(rows[2], sels, Dimensions) by {
      assert !Admits(Chosen(sels, State), ValueOf(rows[2], State));
    }
    assert rows[1..][1..] == [rows[2]];
    assert PassingOn([rows[2]], sels, Dimensions) == [] by {
      assert [rows[2]][1..] == [];
    }
    assert PassingOn(rows[1..], sels, Dimensions) == [rows[1]];
  }

  /** Only California selected: the groups hold California's 30 births. */
  lemma ExampleStateFilter()
    ensures Total(Aggregate(Passing(ExampleRows(), Selections([All], [All], ["CA"])))) == 30
  {
    ExampleStatePassing();
    var filtered := ExampleRows()[..2];
    AggregateTotal(filtered);
    assert filtered[1..][1..] == [];
  }
}
