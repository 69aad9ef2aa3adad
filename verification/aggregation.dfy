/** The aggregation of app.py:98-103:
      filtered_df.groupby(["state_of_residence", "sex_of_infant"], as_index=False)["births"]
                 .sum().sort_values("state_of_residence")
    `groupby` (with its defaults `sort=True`, `dropna=True`) makes one group
    per distinct (state, gender) pair with neither part NaN, in ascending
    key order; `sum` skips NaN; `sort_values` then orders the groups by
    state. */
module Aggregation {
  import opened Seqs
  import opened Sorting
  import opened StringOrder
  import opened Table

  datatype Key = Key(state: string, gender: string)

  /** One output row: a (state, gender) pair and its total births. */
  datatype Group = Group(state: string, gender: string, births: int)

  function GroupKey(g: Group): Key {
    Key(g.state, g.gender)
  }

  function GroupKeys(groups: seq<Group>): (keys: seq<Key>)
    ensures |keys| == |groups|
    ensures forall i :: 0 <= i < |groups| ==> keys[i] == GroupKey(groups[i])
  {
    seq(|groups|, i requires 0 <= i < |groups| => GroupKey(groups[i]))
  }

  /** The group key of a row; rows with a NaN state or gender have none. */
  function KeyOf(row: Row): Option<Key> {
    if row.state.Some? && row.gender.Some? then Some(Key(row.state.value, row.gender.value)) else None
  }

  /** What a row adds to a sum: its births, NaN counting as nothing. */
  function Measure(row: Row): int {
    if row.births.Number? then row.births.n else 0
  }

  /** The keys present in the rows, in row order (with repeats). */
  function PresentKeys(rows: seq<Row>): (keys: seq<Key>)
    ensures forall k :: k in keys <==> exists i :: 0 <= i < |rows| && KeyOf(rows[i]) == Some(k)
  {
    if rows == [] then []
    else
      var rest := PresentKeys(rows[1..]);
      assert forall k :: (exists i :: 0 <= i < |rows| && KeyOf(rows[i]) == Some(k)) <==>
        KeyOf(rows[0]) == Some(k) || exists i :: 0 <= i < |rows[1..]| && KeyOf(rows[1..][i]) == Some(k) by {
        forall k | exists i :: 0 <= i < |rows| && KeyOf(rows[i]) == Some(k)
          ensures KeyOf(rows[0]) == Some(k) || exists i :: 0 <= i < |rows[1..]| && KeyOf(rows[1..][i]) == Some(k)
        {
          var i :| 0 <= i < |rows| && KeyOf(rows[i]) == Some(k);
          if i > 0 {
            assert KeyOf(rows[1..][i - 1]) == Some(k);
          }
        }
      }
      if KeyOf(rows[0]).Some? then [KeyOf(rows[0]).value] + rest else rest
  }

  /** Reference sum: the births of the rows whose key is `k`. */
  function SumFor(rows: seq<Row>, k: Key): int {
    if rows == [] then 0
    else (if KeyOf(rows[0]) == Some(k) then Measure(rows[0]) else 0) + SumFor(rows[1..], k)
  }

  /** Reference sum: the births of the rows whose key is one of `keys`. */
  function SumWhereKeyIn(rows: seq<Row>, keys: seq<Key>): int {
    if rows == [] then 0
    else (if KeyOf(rows[0]).Some? && KeyOf(rows[0]).value in keys then Measure(rows[0]) else 0)
         + SumWhereKeyIn(rows[1..], keys)
  }

  /** Reference sum: the births of the rows that have a key. */
  function KeyedTotal(rows: seq<Row>): int {
    if rows == [] then 0
    else (if KeyOf(rows[0]).Some? then Measure(rows[0]) else 0) + KeyedTotal(rows[1..])
  }

  function Total(groups: seq<Group>): int {
    if groups == [] then 0 else groups[0].births + Total(groups[1..])
  }

  /** Order of the `groupby` keys: by state, then by gender. */
  predicate KeyLe(a: Key, b: Key) {
    if a.state != b.state then LexLe(a.state, b.state) else LexLe(a.gender, b.gender)
  }

  /** Order of `sort_values("state_of_residence")`. */
  predicate StateLe(a: Group, b: Group) {
    LexLe(a.state, b.state)
  }

  lemma KeyLeIsTotalPreorder()
    ensures IsTotalPreorder(KeyLe)
  {
    forall a, b ensures KeyLe(a, b) || KeyLe(b, a) {
      LexLeTotal(a.state, b.state);
      LexLeTotal(a.gender, b.gender);
    }
    forall a, b, c | KeyLe(a, b) && KeyLe(b, c) ensures KeyLe(a, c) {
      if a.state != b.state && b.state != c.state {
        LexLeTransitive(a.state, b.state, c.state);
        if a.state == c.state {
          LexLeAntisymmetric(a.state, b.state);
        }
      } else if a.state == b.state && b.state == c.state {
        LexLeTransitive(a.gender, b.gender, c.gender);
      }
    }
  }

  lemma StateLeIsTotalPreorder()
    ensures IsTotalPreorder(StateLe)
  {
    forall a, b ensures StateLe(a, b) || StateLe(b, a) {
      LexLeTotal(a.state, b.state);
    }
    forall a, b, c | StateLe(a, b) && StateLe(b, c) ensures StateLe(a, c) {
      LexLeTransitive(a.state, b.state, c.state);
    }
  }

  /** `groupby(...)`: the distinct keys, in ascending key order. */
  function GroupKeysSorted(rows: seq<Row>): (keys: seq<Key>)
    ensures NoDup(keys)
    ensures SortedBy(keys, KeyLe)
    ensures forall k :: k in keys <==> k in PresentKeys(rows)
  {
    var distinct := Unique(PresentKeys(rows));
    KeyLeIsTotalPreorder();
    SortKeepsNoDup(distinct, KeyLe);
    InsertionSort(distinct, KeyLe)
  }

  /** `.sum()`: one group per key, carrying the births of its rows. */
  function GroupsFor(rows: seq<Row>, keys: seq<Key>): (groups: seq<Group>)
    ensures GroupKeys(groups) == keys
    ensures forall g :: g in groups ==> g.births == SumFor(rows, GroupKey(g))
  {
    if keys == [] then []
    else [Group(keys[0].state, keys[0].gender, SumFor(rows, keys[0]))] + GroupsFor(rows, keys[1..])
  }

  /** `.sort_values("state_of_residence")`. */
  function SortByState(groups: seq<Group>): (r: seq<Group>)
    ensures SortedBy(r, StateLe)
    ensures multiset(r) == multiset(groups)
  {
    StateLeIsTotalPreorder();
    InsertionSort(groups, StateLe)
  }

  /** The whole chain of app.py:98-103. */
  function Aggregate(rows: seq<Row>): (agg: seq<Group>)
    requires NumericBirths(rows)
    ensures SortedBy(agg, StateLe)
    ensures forall g :: g in agg ==> g.births == SumFor(rows, GroupKey(g))
    ensures forall k :: k in GroupKeys(agg) <==> k in PresentKeys(rows)
    ensures NoDup(GroupKeys(agg))
    ensures |agg| > 0 <==> PresentKeys(rows) != []
  {
    var keys := GroupKeysSorted(rows);
    var groups := GroupsFor(rows, keys);
    var agg := SortByState(groups);
    AggregateKeys(groups, agg);
    agg
  }

  /** Sorting the groups keeps their keys, and keeps them distinct. */
  lemma AggregateKeys(groups: seq<Group>, agg: seq<Group>)
    requires NoDup(GroupKeys(groups))
    requires multiset(agg) == multiset(groups)
    ensures forall g :: g in agg <==> g in groups
    ensures forall k :: k in GroupKeys(agg) <==> k in GroupKeys(groups)
    ensures NoDup(GroupKeys(agg))
    ensures |agg| == |groups|
  {
    assert forall g :: g in agg <==> g in multiset(agg);
    assert forall g :: g in groups <==> g in multiset(groups);
    assert |agg| == |multiset(agg)| == |multiset(groups)| == |groups|;
    assert NoDup(groups) by {
      forall i, j | 0 <= i < j < |groups| ensures groups[i] != groups[j] {
        assert GroupKeys(groups)[i] != GroupKeys(groups)[j];
      }
    }
    NoDupPermutation(groups, agg);
    forall i, j | 0 <= i < j < |agg| ensures GroupKeys(agg)[i] != GroupKeys(agg)[j] {
      assert agg[i] in groups && agg[j] in groups;
      var p :| 0 <= p < |groups| && groups[p] == agg[i];
      var q :| 0 <= q < |groups| && groups[q] == agg[j];
      assert GroupKeys(groups)[p] != GroupKeys(groups)[q] || p == q;
    }
    forall k ensures k in GroupKeys(agg) <==> k in GroupKeys(groups) {
      if k in GroupKeys(agg) {
        var i :| 0 <= i < |agg| && GroupKeys(agg)[i] == k;
        assert agg[i] in groups;
        var j :| 0 <= j < |groups| && groups[j] == agg[i];
        assert GroupKeys(groups)[j] == k;
      }
      if k in GroupKeys(groups) {
        var j :| 0 <= j < |groups| && GroupKeys(groups)[j] == k;
        assert groups[j] in agg;
        var i :| 0 <= i < |agg| && agg[i] == groups[j];
        assert GroupKeys(agg)[i] == k;
      }
    }
  }

  // ---------------------------------------------------------------------
  // Sum preservation
  // ---------------------------------------------------------------------

  /** Reference sum: the births of all rows, NaN counting as nothing. */
  function BirthsTotal(rows: seq<Row>): int {
    if rows == [] then 0 else Measure(rows[0]) + BirthsTotal(rows[1..])
  }

  lemma {:induction false} SumWhereKeyInCons(rows: seq<Row>, k: Key, keys: seq<Key>)
    requires k !in keys
    ensures SumWhereKeyIn(rows, [k] + keys) == SumFor(rows, k) + SumWhereKeyIn(rows, keys)
  {
    if rows != [] {
      SumWhereKeyInCons(rows[1..], k, keys);
    }
  }

  /** The groups made for distinct keys carry, between them, the births of
      exactly the rows with one of those keys. */
  lemma {:induction false} TotalOfGroupsFor(rows: seq<Row>, keys: seq<Key>)
    requires NoDup(keys)
    ensures Total(GroupsFor(rows, keys)) == SumWhereKeyIn(rows, keys)
  {
    if keys == [] {
      SumWhereKeyInEmpty(rows);
    } else {
      TotalOfGroupsFor(rows, keys[1..]);
      assert keys == [keys[0]] + keys[1..];
      SumWhereKeyInCons(rows, keys[0], keys[1..]);
    }
  }

  lemma {:induction false} SumWhereKeyInEmpty(rows: seq<Row>)
    ensures SumWhereKeyIn(rows, []) == 0
  {
    if rows != [] {
      SumWhereKeyInEmpty(rows[1..]);
    }
  }

  /** Keys covering every key present select every keyed row. */
  lemma {:induction false} SumWhereCovering(rows: seq<Row>, keys: seq<Key>)
    requires forall k :: k in PresentKeys(rows) ==> k in keys
    ensures SumWhereKeyIn(rows, keys) == KeyedTotal(rows)
  {
    if rows != [] {
      forall k | k in PresentKeys(rows[1..]) ensures k in keys {
        var i :| 0 <= i < |rows[1..]| && KeyOf(rows[1..][i]) == Some(k);
        assert KeyOf(rows[i + 1]) == Some(k);
      }
      SumWhereCovering(rows[1..], keys);
      if KeyOf(rows[0]).Some? {
        assert KeyOf(rows[0]).value in PresentKeys(rows);
      }
    }
  }

  lemma {:induction false} TotalInsert(g: Group, groups: seq<Group>)
    requires IsTotalPreorder(StateLe) && SortedBy(groups, StateLe)
    ensures Total(Insert(g, groups, StateLe)) == g.births + Total(groups)
  {
    if groups != [] && !StateLe(g, groups[0]) {
      TotalInsert(g, groups[1..]);
    }
  }

  lemma {:induction false} TotalInsertionSort(groups: seq<Group>)
    requires IsTotalPreorder(StateLe)
    ensures Total(InsertionSort(groups, StateLe)) == Total(groups)
  {
    if groups != [] {
      TotalInsertionSort(groups[1..]);
      TotalInsert(groups[0], InsertionSort(groups[1..], StateLe));
    }
  }

  /** The births over all groups add up to the births of the rows that have
      both a state and a gender. */
  lemma AggregateTotal(rows: seq<Row>)
    requires NumericBirths(rows)
    ensures Total(Aggregate(rows)) == KeyedTotal(rows)
  {
    var keys := GroupKeysSorted(rows);
    var groups := GroupsFor(rows, keys);
    StateLeIsTotalPreorder();
    TotalInsertionSort(groups);
    TotalOfGroupsFor(rows, keys);
    SumWhereCovering(rows, keys);
  }

  /** When no row has a NaN state or gender, every row is counted. */
  lemma {:induction false} KeyedTotalAllKeyed(rows: seq<Row>)
    requires forall i :: 0 <= i < |rows| ==> KeyOf(rows[i]).Some?
    ensures KeyedTotal(rows) == BirthsTotal(rows)
  {
    if rows != [] {
      KeyedTotalAllKeyed(rows[1..]);
    }
  }
}
