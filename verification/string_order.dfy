/** Python's ordering of `str` values: lexicographic by code point, a proper
    prefix sorting first. `sorted(...)` and `sort_values(...)` on a string
    column use it. */
module StringOrder {
  import opened Seqs
  import opened Sorting

  predicate LexLe(a: string, b: string) {
    if a == [] then true
    else if b == [] then false
    else if a[0] != b[0] then a[0] < b[0]
    else LexLe(a[1..], b[1..])
  }

  /** Strictly ascending: sorted with no duplicates. */
  predicate StrictlyAscending(s: seq<string>) {
    forall i, j :: 0 <= i < j < |s| ==> LexLe(s[i], s[j]) && s[i] != s[j]
  }

  lemma {:induction false} LexLeTotal(a: string, b: string)
    ensures LexLe(a, b) || LexLe(b, a)
  {
    if a != [] && b != [] && a[0] == b[0] {
      LexLeTotal(a[1..], b[1..]);
    }
  }

  lemma {:induction false} LexLeTransitive(a: string, b: string, c: string)
    requires LexLe(a, b) && LexLe(b, c)
    ensures LexLe(a, c)
  {
    if a != [] && b != [] && c != [] && a[0] == b[0] && b[0] == c[0] {
      LexLeTransitive(a[1..], b[1..], c[1..]);
    }
  }

  lemma {:induction false} LexLeAntisymmetric(a: string, b: string)
    requires LexLe(a, b) && LexLe(b, a)
    ensures a == b
  {
    if a != [] && b != [] {
      LexLeAntisymmetric(a[1..], b[1..]);
      assert a == [a[0]] + a[1..] && b == [b[0]] + b[1..];
    }
  }

  lemma LexLeIsTotalPreorder()
    ensures IsTotalPreorder(LexLe)
  {
    forall a, b ensures LexLe(a, b) || LexLe(b, a) {
      LexLeTotal(a, b);
    }
    forall a, b, c | LexLe(a, b) && LexLe(b, c) ensures LexLe(a, c) {
      LexLeTransitive(a, b, c);
    }
  }

  /** A sorted duplicate-free sequence of strings is strictly ascending. */
  lemma SortedNoDupIsAscending(s: seq<string>)
    requires SortedBy(s, LexLe) && NoDup(s)
    ensures StrictlyAscending(s)
  {
  }

  /** `sorted(...)` of distinct strings: strictly ascending, same elements. */
  function SortStrings(s: seq<string>): (r: seq<string>)
    requires NoDup(s)
    ensures StrictlyAscending(r)
    ensures |r| == |s|
    ensures forall x :: x in r <==> x in s
  {
    LexLeIsTotalPreorder();
    SortKeepsNoDup(s, LexLe);
    var r := InsertionSort(s, LexLe);
    SortedNoDupIsAscending(r);
    r
  }
}
