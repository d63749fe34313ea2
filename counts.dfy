/** Per-value counts behind the charts: `value_counts()` on one column, its
    `head()`, and the order count of a `groupby`. */
module Counts {
  import opened Rows
  import opened Records

  /** One line of a count table: a value and how many rows carry it. */
  datatype Entry = Entry(value: string, count: nat)

  /** Sum of the counts. */
  function Total(es: seq<Entry>): nat
  {
    if es == [] then 0 else es[0].count + Total(es[1..])
  }

  lemma {:induction false} TotalAppend(a: seq<Entry>, b: seq<Entry>)
    ensures Total(a + b) == Total(a) + Total(b)
  {
    if a != [] {
      assert (a + b)[1..] == a[1..] + b;
      TotalAppend(a[1..], b);
    } else {
      assert a + b == b;
    }
  }

  /** Largest count first. */
  predicate NonIncreasing(es: seq<Entry>)
  {
    forall i, j :: 0 <= i < j < |es| ==> es[i].count >= es[j].count
  }

  predicate DistinctValues(es: seq<Entry>)
  {
    forall i, j :: 0 <= i < j < |es| ==> es[i].value != es[j].value
  }

  /** Places `e` before the first entry with a count no larger than its own. */
  function InsertByCount(e: Entry, es: seq<Entry>): (r: seq<Entry>)
    requires NonIncreasing(es)
    ensures NonIncreasing(r)
    ensures multiset(r) == multiset(es) + multiset{e}
    ensures r[0] == e || (es != [] && r[0] == es[0])
  {
    if es == [] || e.count >= es[0].count then
      ConsNonIncreasing(e, es);
      [e] + es
    else
      var rest := InsertByCount(e, es[1..]);
      assert es == [es[0]] + es[1..];
      ConsNonIncreasing(es[0], rest);
      [es[0]] + rest
  }

  /** An entry counting at least as much as the head of a sorted table can go in front. */
  lemma ConsNonIncreasing(x: Entry, es: seq<Entry>)
    requires NonIncreasing(es) && (es == [] || es[0].count <= x.count)
    ensures NonIncreasing([x] + es)
  {
    forall i, j | 0 <= i < j < |[x] + es| ensures ([x] + es)[i].count >= ([x] + es)[j].count {
      if i == 0 {
        assert ([x] + es)[j] == es[j - 1];
      }
    }
  }

  lemma {:induction false} InsertTotal(e: Entry, es: seq<Entry>)
    requires NonIncreasing(es)
    ensures Total(InsertByCount(e, es)) == e.count + Total(es)
  {
    if es != [] && e.count < es[0].count {
      InsertTotal(e, es[1..]);
    }
  }

  lemma {:induction false} InsertKeepsValuesDistinct(e: Entry, es: seq<Entry>)
    requires NonIncreasing(es) && DistinctValues(es)
    requires forall x :: x in es ==> x.value != e.value
    ensures DistinctValues(InsertByCount(e, es))
  {
    if es != [] && e.count < es[0].count {
      assert forall x :: x in es[1..] ==> x in es;
      InsertKeepsValuesDistinct(e, es[1..]);
      var rest := InsertByCount(e, es[1..]);
      forall x | x in rest ensures x.value != es[0].value {
        assert x in multiset(rest);
        assert x == e || x in multiset(es[1..]);
      }
    }
  }

  /** Orders a count table by decreasing count; equal counts keep their order. */
  function SortByCount(es: seq<Entry>): (r: seq<Entry>)
    ensures NonIncreasing(r)
    ensures multiset(r) == multiset(es)
  {
    if es == [] then []
    else
      assert es == [es[0]] + es[1..];
      InsertByCount(es[0], SortByCount(es[1..]))
  }

  lemma {:induction false} SortTotal(es: seq<Entry>)
    ensures Total(SortByCount(es)) == Total(es)
  {
    if es != [] {
      SortTotal(es[1..]);
      InsertTotal(es[0], SortByCount(es[1..]));
    }
  }

  lemma {:induction false} SortKeepsValuesDistinct(es: seq<Entry>)
    requires DistinctValues(es)
    ensures DistinctValues(SortByCount(es))
  {
    if es != [] {
      var rest := SortByCount(es[1..]);
      SortKeepsValuesDistinct(es[1..]);
      forall x | x in rest ensures x.value != es[0].value {
        assert x in multiset(es[1..]);
      }
      InsertKeepsValuesDistinct(es[0], rest);
    }
  }

  /** The count of each value of `u` in `xs`, in the order of `u`. */
  function Tally(u: seq<string>, xs: seq<string>): (es: seq<Entry>)
    ensures |es| == |u|
    ensures forall i :: 0 <= i < |u| ==> es[i] == Entry(u[i], Occurrences(xs, u[i]))
  {
    seq(|u|, i requires 0 <= i < |u| => Entry(u[i], Occurrences(xs, u[i])))
  }

  lemma {:induction false} TallyOneMoreRow(u: seq<string>, ys: seq<string>, x: string)
    ensures Total(Tally(u, ys + [x])) == Total(Tally(u, ys)) + Occurrences(u, x)
  {
    if u != [] {
      var u', k := u[..|u| - 1], u[|u| - 1];
      TallyOneMoreRow(u', ys, x);
      assert Tally(u, ys + [x]) == Tally(u', ys + [x]) + [Entry(k, Occurrences(ys + [x], k))];
      assert Tally(u, ys) == Tally(u', ys) + [Entry(k, Occurrences(ys, k))];
      TotalAppend(Tally(u', ys + [x]), [Entry(k, Occurrences(ys + [x], k))]);
      TotalAppend(Tally(u', ys), [Entry(k, Occurrences(ys, k))]);
      assert (ys + [x])[..|ys|] == ys;
      assert u == u' + [k];
    }
  }

  /** The counts of the distinct values add up to the number of rows. */
  lemma {:induction false} TallyOfUniqueCoversRows(xs: seq<string>)
    ensures Total(Tally(Unique(xs), xs)) == |xs|
  {
    if xs != [] {
      var ys, x := xs[..|xs| - 1], xs[|xs| - 1];
      assert xs == ys + [x];
      var u := Unique(ys);
      TallyOfUniqueCoversRows(ys);
      TallyOneMoreRow(u, ys, x);
      if x in u {
        OccurrencesInDistinct(u, x);
      } else {
        assert Tally(u + [x], xs) == Tally(u, xs) + [Entry(x, Occurrences(xs, x))];
        TotalAppend(Tally(u, xs), [Entry(x, Occurrences(xs, x))]);
        assert Occurrences(ys, x) == 0;
      }
    }
  }

  /** `column.value_counts()`: each distinct value with the number of rows
      carrying it, most frequent first. */
  function ValueCounts(xs: seq<string>): (r: seq<Entry>)
    ensures NonIncreasing(r)
    ensures DistinctValues(r)
    ensures forall e :: e in r ==> e.count == Occurrences(xs, e.value) && e.count > 0
    ensures forall v :: v in xs ==> exists e :: e in r && e.value == v
    ensures Total(r) == |xs|
  {
    var u := Unique(xs);
    var tally := Tally(u, xs);
    var r := SortByCount(tally);
    TallyOfUniqueCoversRows(xs);
    SortTotal(tally);
    SortKeepsValuesDistinct(tally);
    forall e | e in r ensures e.count == Occurrences(xs, e.value) && e.count > 0 {
      assert e in multiset(tally);
    }
    forall v | v in xs ensures exists e :: e in r && e.value == v {
      var e := tally[IndexIn(u, v)];
      assert e in multiset(r);
    }
    r
  }

  /** Where `v` sits in `u`. */
  function IndexIn(u: seq<string>, v: string): (i: nat)
    requires v in u
    ensures i < |u| && u[i] == v
  {
    if u[0] == v then 0 else 1 + IndexIn(u[1..], v)
  }

  /** Whatever column is counted, the counts add up to the number of rows. */
  lemma CountsCoverEveryRow(rows: seq<Record>, c: Category)
    ensures Total(ValueCounts(ColumnOf(rows, c))) == |rows|
  {
  }

  /** Entries shown in the "Top Delivery Areas" chart. */
  const TopCount: nat := 5

  /** `data['Area'].value_counts().head()`. */
  function TopAreas(rows: seq<Record>): (top: seq<Entry>)
    ensures |top| <= TopCount && |top| <= |AreaCounts(rows)|
    ensures |top| == TopCount || |top| == |AreaCounts(rows)|
    ensures top == AreaCounts(rows)[..|top|]
  {
    Head(AreaCounts(rows), TopCount)
  }

  /** `data['Area'].value_counts()`: every row's area is listed once with its
      number of rows, most frequent first. */
  function AreaCounts(rows: seq<Record>): (counts: seq<Entry>)
    ensures NonIncreasing(counts) && DistinctValues(counts)
    ensures forall e :: e in counts ==> e.count == Occurrences(ColumnOf(rows, Area), e.value) && e.count > 0
    ensures forall r :: r in rows ==> exists e :: e in counts && e.value == r.area
    ensures Total(counts) == |rows|
  {
    var col := ColumnOf(rows, Area);
    forall r | r in rows ensures r.area in col {
      assert Field(r, Area) == r.area;
    }
    ValueCounts(col)
  }

  /** The top entries are the most frequent areas: no area left out of the
      chart has more rows than an area shown in it. */
  lemma TopAreasAreMostFrequent(rows: seq<Record>)
    ensures forall e, a ::
      && e in TopAreas(rows)
      && a in ColumnOf(rows, Area)
      && (forall x :: x in TopAreas(rows) ==> x.value != a)
      ==> e.count >= Occurrences(ColumnOf(rows, Area), a)
  {
    var counts := AreaCounts(rows);
    var top := TopAreas(rows);
    forall e, a | e in top && a in ColumnOf(rows, Area) && (forall x :: x in top ==> x.value != a)
      ensures e.count >= Occurrences(ColumnOf(rows, Area), a)
    {
      var x :| x in counts && x.value == a;
      assert x !in top;
      PrefixHoldsLargest(counts, |top|, e, x);
    }
  }

  /** In a table sorted by decreasing count, an entry of a prefix counts at
      least as much as an entry outside it. */
  lemma PrefixHoldsLargest(counts: seq<Entry>, n: nat, e: Entry, x: Entry)
    requires NonIncreasing(counts) && n <= |counts|
    requires e in counts[..n] && x in counts && x !in counts[..n]
    ensures e.count >= x.count
  {
    var i :| 0 <= i < n && counts[..n][i] == e;
    var j :| 0 <= j < |counts| && counts[j] == x;
    assert forall m :: 0 <= m < n ==> counts[..n][m] == counts[m];
    assert j >= n;
    assert counts[i] == e;
  }

  /** `groupby(c).agg({'Order_ID': 'count'})`: the number of orders in each
      group, keyed by the group's value. Order_ID is never missing, so a
      group's count is its number of rows. */
  function GroupCounts(rows: seq<Record>, c: Category): (m: map<string, nat>)
    ensures forall v :: v in m <==> exists r :: r in rows && Field(r, c) == v
    ensures forall v :: v in m ==> m[v] == Occurrences(ColumnOf(rows, c), v) && m[v] > 0
  {
    var col := ColumnOf(rows, c);
    map v | v in col :: Occurrences(col, v)
  }

  /** The grouped counts agree entry by entry with the value counts of the
      same column, so they too add up to the number of rows. */
  lemma GroupCountsAgree(rows: seq<Record>, c: Category)
    ensures forall e :: e in ValueCounts(ColumnOf(rows, c)) ==>
      e.value in GroupCounts(rows, c) && GroupCounts(rows, c)[e.value] == e.count
    ensures forall v :: v in GroupCounts(rows, c) ==>
      exists e :: e in ValueCounts(ColumnOf(rows, c)) && e.value == v
  {
    var col := ColumnOf(rows, c);
    var counts := ValueCounts(col);
    forall v | v in GroupCounts(rows, c) ensures exists e :: e in counts && e.value == v {
      assert v in col;
    }
  }
}
