/** `calculateBoxPlotData(data, groupKey, valueKey)`.

    The rows are grouped by their `groupKey` cell (`d3.group`: one group per
    distinct cell value, in order of first appearance, each group's rows in data
    order).  For each group the `valueKey` cells go through `+` into a fresh
    array, which is sorted ascending; min and max are its first and last
    elements, and q1, median and q3 come from `d3.quantile(sorted, p)` at
    p = 0.25, 0.5 and 0.75 (`d3.median` is the p = 0.5 quantile).  d3.quantile
    is taken to be the R-7 estimator that d3 documents: linear interpolation
    between the order statistics around position (n - 1) * p. */
module BoxPlot {
  import opened Values
  import opened Filtering
  import opened Coercion

  // ---------------------------------------------------------------- sorting

  predicate Sorted(s: seq<real>) {
    forall i, j :: 0 <= i <= j < |s| ==> s[i] <= s[j]
  }

  lemma SortedCons(a: real, t: seq<real>)
    requires Sorted(t) && (t != [] ==> a <= t[0])
    ensures Sorted([a] + t)
  {
    forall i, j | 0 <= i <= j < |t| + 1 ensures ([a] + t)[i] <= ([a] + t)[j] {
      if i == 0 && j > 0 {
        assert t[0] <= t[j - 1];
      }
    }
  }

  function Insert(x: real, s: seq<real>): (r: seq<real>)
    requires Sorted(s)
    ensures |r| == |s| + 1 && Sorted(r)
    ensures multiset(r) == multiset(s) + multiset{x}
    ensures r[0] == x || (s != [] && r[0] == s[0])
  {
    if s == [] || x <= s[0] then
      SortedCons(x, s);
      [x] + s
    else
      var rest := Insert(x, s[1..]);
      assert s == [s[0]] + s[1..];
      assert |s| > 1 ==> s[0] <= s[1];
      SortedCons(s[0], rest);
      [s[0]] + rest
  }

  function SortAscending(s: seq<real>): (r: seq<real>)
    ensures Sorted(r) && multiset(r) == multiset(s) && |r| == |s|
  {
    if s == [] then []
    else
      assert s == [s[0]] + s[1..];
      Insert(s[0], SortAscending(s[1..]))
  }

  /** Where the quantile sits: h = (n - 1) * p, split into a whole index below
      n - 1 and a fraction. */
  lemma Position(m: nat, p: real)
    requires m >= 1 && 0.0 < p < 1.0
    ensures 0.0 < m as real * p < m as real
    ensures 0 <= (m as real * p).Floor < m
  {
    assert m as real * (1.0 - p) > 0.0;
  }

  // -------------------------------------------------------------- quantiles

  function Quantile(s: seq<real>, p: real): (q: Option<real>)
    ensures q.None? <==> s == []
  {
    if s == [] then None
    else if p <= 0.0 || |s| < 2 then Some(s[0])
    else if p >= 1.0 then Some(s[|s| - 1])
    else Some(Interior(s, p))
  }

  /** The interpolated value for 0 < p < 1 on two or more elements. */
  function Interior(s: seq<real>, p: real): real
    requires |s| >= 2 && 0.0 < p < 1.0
  {
    var h := (|s| - 1) as real * p;
    Position(|s| - 1, p);
    Lerp(s[h.Floor], s[h.Floor + 1], h - h.Floor as real)
  }

  /** The point the fraction `t` of the way from `a` to `b`. */
  function Lerp(a: real, b: real, t: real): real {
    a + (b - a) * t
  }

  lemma LerpBetween(a: real, b: real, t: real)
    requires a <= b && 0.0 <= t <= 1.0
    ensures a <= Lerp(a, b, t) <= b
  {
    var d := (b - a) * t;
    Scale(b - a, t);
    assert Lerp(a, b, t) == a + d;
  }

  lemma LerpMonotone(a: real, b: real, t: real, t': real)
    requires a <= b && t <= t'
    ensures Lerp(a, b, t) <= Lerp(a, b, t')
  {
    ScaleMono(b - a, t, t');
    assert Lerp(a, b, t) == a + (b - a) * t;
    assert Lerp(a, b, t') == a + (b - a) * t';
  }

  lemma Scale(d: real, t: real)
    requires d >= 0.0 && 0.0 <= t <= 1.0
    ensures 0.0 <= d * t <= d
  {
    assert d * (1.0 - t) >= 0.0;
  }

  lemma ScaleMono(d: real, t: real, t': real)
    requires d >= 0.0 && t <= t'
    ensures d * t <= d * t'
  {
    assert d * (t' - t) >= 0.0;
  }

  lemma QuantileWithin(s: seq<real>, p: real)
    requires Sorted(s) && s != []
    ensures s[0] <= Quantile(s, p).value <= s[|s| - 1]
  {
    if p > 0.0 && |s| >= 2 && p < 1.0 {
      var h := (|s| - 1) as real * p;
      var i := h.Floor;
      Position(|s| - 1, p);
      assert s[0] <= s[i] <= s[i + 1] <= s[|s| - 1];
      LerpBetween(s[i], s[i + 1], h - i as real);
    }
  }

  /** Interpolating further along an ascending sequence never gives less. */
  lemma LerpAlong(s: seq<real>, i: nat, t: real, i': nat, t': real)
    requires Sorted(s) && i <= i' && i' + 1 < |s|
    requires 0.0 <= t <= 1.0 && 0.0 <= t' <= 1.0 && (i == i' ==> t <= t')
    ensures Lerp(s[i], s[i + 1], t) <= Lerp(s[i'], s[i' + 1], t')
  {
    if i == i' {
      LerpMonotone(s[i], s[i + 1], t, t');
    } else {
      LerpBetween(s[i], s[i + 1], t);
      LerpBetween(s[i'], s[i' + 1], t');
      assert s[i + 1] <= s[i'];
    }
  }

  lemma FloorStep(h: real, h': real)
    requires h <= h'
    ensures h.Floor <= h'.Floor
    ensures h.Floor == h'.Floor ==> h - h.Floor as real <= h' - h'.Floor as real
  {
  }

  lemma InteriorMonotone(s: seq<real>, p: real, p': real)
    requires Sorted(s) && |s| >= 2 && 0.0 < p <= p' < 1.0
    ensures Interior(s, p) <= Interior(s, p')
  {
    var n := (|s| - 1) as real;
    var h, h' := n * p, n * p';
    ScaleMono(n, p, p');
    FloorStep(h, h');
    InteriorAt(s, p, h);
    InteriorAt(s, p', h');
    LerpAlong(s, h.Floor, h - h.Floor as real, h'.Floor, h' - h'.Floor as real);
  }

  /** Interior(s, p) unfolded at a given position h = (n - 1) * p. */
  lemma InteriorAt(s: seq<real>, p: real, h: real)
    requires |s| >= 2 && 0.0 < p < 1.0 && h == (|s| - 1) as real * p
    ensures 0 <= h.Floor < |s| - 1 && 0.0 <= h - h.Floor as real <= 1.0
    ensures Interior(s, p) == Lerp(s[h.Floor], s[h.Floor + 1], h - h.Floor as real)
  {
    Position(|s| - 1, p);
  }

  lemma QuantileMonotone(s: seq<real>, p: real, p': real)
    requires Sorted(s) && s != [] && p <= p'
    ensures Quantile(s, p).value <= Quantile(s, p').value
  {
    QuantileWithin(s, p);
    QuantileWithin(s, p');
    if p > 0.0 && p' < 1.0 && |s| >= 2 {
      InteriorMonotone(s, p, p');
    }
  }

  lemma QuantileAtOrderStatistic(s: seq<real>, p: real, k: nat)
    requires 0.0 < p < 1.0 && k < |s| && (|s| - 1) as real * p == k as real
    ensures Quantile(s, p) == Some(s[k])
  {
    if |s| >= 2 {
      Position(|s| - 1, p);
      assert (k as real).Floor == k;
    }
  }

  lemma MedianOfEvenCount(s: seq<real>, m: nat)
    requires m >= 1 && |s| == 2 * m
    ensures Quantile(s, 0.5) == Some((s[m - 1] + s[m]) / 2.0)
  {
    var h := (|s| - 1) as real * 0.5;
    assert h == (m - 1) as real + 0.5;
    assert h.Floor == m - 1;
    assert h - (m - 1) as real == 0.5;
    assert Lerp(s[m - 1], s[m], 0.5) == (s[m - 1] + s[m]) / 2.0;
  }

  // --------------------------------------------------------------- summaries

  datatype Summary = Summary(key: Value, q1: real, median: real, q3: real, iqr: real, min: real, max: real)

  /** The record built for one group from its numeric values. */
  function Summarize(key: Value, values: seq<real>): (b: Summary)
    requires values != []
    ensures b.key == key
    ensures b.min <= b.q1 <= b.median <= b.q3 <= b.max
    ensures b.iqr == b.q3 - b.q1 && b.iqr >= 0.0
    ensures b.min in values && b.max in values
    ensures forall i :: 0 <= i < |values| ==> b.min <= values[i] <= b.max
  {
    var sorted := SortAscending(values);
    SortedEnds(values, sorted);
    QuantileMonotone(sorted, 0.25, 0.5);
    QuantileMonotone(sorted, 0.5, 0.75);
    QuantileWithin(sorted, 0.25);
    QuantileWithin(sorted, 0.75);
    var q1, median, q3 := Quantile(sorted, 0.25).value, Quantile(sorted, 0.5).value, Quantile(sorted, 0.75).value;
    Summary(key, q1, median, q3, q3 - q1, sorted[0], sorted[|sorted| - 1])
  }

  /** The ends of a sorted rearrangement are the least and the greatest value. */
  lemma SortedEnds(values: seq<real>, sorted: seq<real>)
    requires Sorted(sorted) && multiset(sorted) == multiset(values) && values != []
    ensures sorted != [] && sorted[0] in values && sorted[|sorted| - 1] in values
    ensures forall i :: 0 <= i < |values| ==> sorted[0] <= values[i] <= sorted[|sorted| - 1]
  {
    assert |sorted| == |values| by {
      assert |multiset(sorted)| == |multiset(values)|;
    }
    assert sorted[0] in multiset(values) && sorted[|sorted| - 1] in multiset(values);
    forall i | 0 <= i < |values| ensures sorted[0] <= values[i] <= sorted[|sorted| - 1] {
      assert values[i] in multiset(sorted);
      var k :| 0 <= k < |sorted| && sorted[k] == values[i];
    }
  }

  /** A group of one row: all five statistics are its value and the spread is 0. */
  lemma SingletonSummary(key: Value, v: real)
    ensures var b := Summarize(key, [v]);
            b.min == b.q1 == b.median == b.q3 == b.max == v && b.iqr == 0.0
  {
    assert SortAscending([v]) == [v];
  }

  /** The head of an ascending sequence is at most each of its elements. */
  lemma SortedHeadLeast(a: seq<real>, x: real)
    requires Sorted(a) && x in multiset(a)
    ensures a != [] && a[0] <= x
  {
    assert x in a;
  }

  lemma SortedTail(a: seq<real>)
    requires Sorted(a) && a != []
    ensures Sorted(a[1..])
  {
  }

  /** Dropping equal heads from two arrangements of one multiset leaves
      arrangements of one multiset. */
  lemma SameTails(a: seq<real>, b: seq<real>)
    requires a != [] && b != [] && a[0] == b[0] && multiset(a) == multiset(b)
    ensures multiset(a[1..]) == multiset(b[1..])
  {
    assert a == [a[0]] + a[1..] && b == [b[0]] + b[1..];
    assert multiset(a[1..]) == multiset(a) - multiset{a[0]};
    assert multiset(b[1..]) == multiset(b) - multiset{b[0]};
  }

  /** A multiset has one ascending arrangement. */
  lemma {:induction false} SortedUnique(a: seq<real>, b: seq<real>)
    requires Sorted(a) && Sorted(b) && multiset(a) == multiset(b)
    ensures a == b
    decreases |a|
  {
    if a == [] {
      assert |multiset(b)| == 0;
    } else {
      SortedHeadLeast(b, a[0]);
      SortedHeadLeast(a, b[0]);
      SameTails(a, b);
      SortedTail(a);
      SortedTail(b);
      SortedUnique(a[1..], b[1..]);
      assert a == [a[0]] + a[1..] && b == [b[0]] + b[1..];
    }
  }

  /** The record's statistics, read off any ascending arrangement of the
      group's values: q1, median and q3 are its quantiles at 0.25, 0.5 and
      0.75, and min and max its first and last elements. */
  lemma SummarizeQuartiles(key: Value, values: seq<real>, s: seq<real>)
    requires values != [] && Sorted(s) && multiset(s) == multiset(values)
    ensures s != []
    ensures Summarize(key, values).q1 == Quantile(s, 0.25).value
    ensures Summarize(key, values).median == Quantile(s, 0.5).value
    ensures Summarize(key, values).q3 == Quantile(s, 0.75).value
    ensures Summarize(key, values).min == s[0] && Summarize(key, values).max == s[|s| - 1]
  {
    SortedUnique(s, SortAscending(values));
  }

  // ---------------------------------------------------------------- grouping

  datatype Group = Group(key: Value, rows: seq<Row>)

  /** The keys of the groups. */
  function Keys(groups: seq<Group>): set<Value> {
    if groups == [] then {} else {groups[0].key} + Keys(groups[1..])
  }

  /** No key heads two groups. */
  predicate DistinctKeys(groups: seq<Group>) {
    groups == [] || (groups[0].key !in Keys(groups[1..]) && DistinctKeys(groups[1..]))
  }

  lemma {:induction false} KeysHold(groups: seq<Group>)
    ensures forall i :: 0 <= i < |groups| ==> groups[i].key in Keys(groups)
  {
    if groups != [] {
      KeysHold(groups[1..]);
      assert forall i :: 1 <= i < |groups| ==> groups[i] == groups[1..][i - 1];
    }
  }

  /** Distinct keys, stated by position. */
  lemma {:induction false} DistinctByIndex(groups: seq<Group>)
    requires DistinctKeys(groups)
    ensures forall i, j :: 0 <= i < j < |groups| ==> groups[i].key != groups[j].key
  {
    if groups != [] {
      DistinctByIndex(groups[1..]);
      KeysHold(groups[1..]);
      assert forall i :: 1 <= i < |groups| ==> groups[i] == groups[1..][i - 1];
    }
  }

  function Size(groups: seq<Group>): nat {
    if groups == [] then 0 else |groups[0].rows| + Size(groups[1..])
  }

  /** The distinct values of a column, as a set. */
  function ColumnKeys(data: seq<Row>, column: string): set<Value> {
    if data == [] then {} else ColumnKeys(data[..|data| - 1], column) + {Lookup(data[|data| - 1], column)}
  }

  function KeyIs(column: string, key: Value): Row -> bool {
    r => Lookup(r, column) == key
  }

  function WithKey(data: seq<Row>, column: string, key: Value): seq<Row> {
    Filter(data, KeyIs(column, key))
  }

  lemma WithKeySnoc(init: seq<Row>, last: Row, column: string, key: Value)
    ensures WithKey(init + [last], column, key)
            == WithKey(init, column, key) + (if Lookup(last, column) == key then [last] else [])
  {
    FilterAppend(init, [last], KeyIs(column, key));
    assert [last][1..] == [];
  }

  /** The step of `d3.group`: the row joins the group with its key, or opens a
      new group at the end. */
  function AddRow(groups: seq<Group>, key: Value, r: Row): seq<Group> {
    if groups == [] then [Group(key, [r])]
    else if groups[0].key == key then [Group(key, groups[0].rows + [r])] + groups[1..]
    else [groups[0]] + AddRow(groups[1..], key, r)
  }

  /** Adding a row keeps the keys distinct and adds its key to them. */
  lemma {:induction false} AddRowKeys(groups: seq<Group>, key: Value, r: Row)
    requires DistinctKeys(groups)
    ensures DistinctKeys(AddRow(groups, key, r))
    ensures Keys(AddRow(groups, key, r)) == Keys(groups) + {key}
  {
    var g := AddRow(groups, key, r);
    if groups == [] {
      assert g[1..] == [];
    } else if groups[0].key == key {
      assert g[1..] == groups[1..];
    } else {
      AddRowKeys(groups[1..], key, r);
      assert g[1..] == AddRow(groups[1..], key, r);
    }
  }

  /** Adding a row appends it to the group with its key and leaves every other
      group as it was; a new key opens a one-row group at the end. */
  lemma {:induction false} AddRowGroups(groups: seq<Group>, key: Value, r: Row)
    requires DistinctKeys(groups)
    ensures var g := AddRow(groups, key, r);
            && |g| == (if key in Keys(groups) then |groups| else |groups| + 1)
            && (forall i :: 0 <= i < |groups| ==>
                  g[i] == if groups[i].key == key then Group(key, groups[i].rows + [r]) else groups[i])
            && (key !in Keys(groups) ==> g[|groups|] == Group(key, [r]))
  {
    if groups != [] {
      var g := AddRow(groups, key, r);
      KeysHold(groups[1..]);
      if groups[0].key == key {
        forall i | 1 <= i < |groups| ensures groups[i].key != key {
          assert groups[i] == groups[1..][i - 1];
        }
      } else {
        AddRowGroups(groups[1..], key, r);
        assert forall i :: 1 <= i < |groups| ==> groups[i] == groups[1..][i - 1];
      }
    }
  }

  /** Adding a row adds one to the total size. */
  lemma {:induction false} AddRowSize(groups: seq<Group>, key: Value, r: Row)
    ensures Size(AddRow(groups, key, r)) == Size(groups) + 1
  {
    var g := AddRow(groups, key, r);
    if groups == [] {
      assert g[1..] == [];
    } else if groups[0].key == key {
      assert g[1..] == groups[1..];
    } else {
      AddRowSize(groups[1..], key, r);
      assert g[1..] == AddRow(groups[1..], key, r);
    }
  }

  function GroupBy(data: seq<Row>, column: string): (g: seq<Group>)
    ensures DistinctKeys(g)
    ensures Keys(g) == ColumnKeys(data, column)
    ensures forall i :: 0 <= i < |g| ==> g[i].rows == WithKey(data, column, g[i].key) && g[i].rows != []
    ensures Size(g) == |data|
    decreases |data|
  {
    if data == [] then []
    else
      var init, last := data[..|data| - 1], data[|data| - 1];
      var prev := GroupBy(init, column);
      var key := Lookup(last, column);
      var g := AddRow(prev, key, last);
      AddRowKeys(prev, key, last);
      AddRowGroups(prev, key, last);
      AddRowSize(prev, key, last);
      AddRowWithKey(prev, init, last, column);
      assert data == init + [last];
      g
  }

  /** After the step, each group holds exactly the rows of `init + [last]` with
      its key, when before it each held exactly the rows of `init` with its key. */
  lemma AddRowWithKey(prev: seq<Group>, init: seq<Row>, last: Row, column: string)
    requires DistinctKeys(prev) && Keys(prev) == ColumnKeys(init, column)
    requires forall i :: 0 <= i < |prev| ==> prev[i].rows == WithKey(init, column, prev[i].key) && prev[i].rows != []
    ensures var g := AddRow(prev, Lookup(last, column), last);
            forall i :: 0 <= i < |g| ==> g[i].rows == WithKey(init + [last], column, g[i].key) && g[i].rows != []
  {
    var key := Lookup(last, column);
    var g := AddRow(prev, key, last);
    AddRowGroups(prev, key, last);
    forall i | 0 <= i < |g|
      ensures g[i].rows == WithKey(init + [last], column, g[i].key) && g[i].rows != []
    {
      WithKeySnoc(init, last, column, g[i].key);
      if i == |prev| {
        NoRowsWithKey(init, column, key);
      }
    }
  }

  lemma {:induction false} NoRowsWithKey(data: seq<Row>, column: string, key: Value)
    requires key !in ColumnKeys(data, column)
    ensures WithKey(data, column, key) == []
  {
    if data != [] {
      var init, last := data[..|data| - 1], data[|data| - 1];
      NoRowsWithKey(init, column, key);
      assert data == init + [last];
      WithKeySnoc(init, last, column, key);
    }
  }

  // -------------------------------------------------------------- box plots

  /** Every row's `valueKey` cell is a number under `+`. */
  predicate NumericColumn(data: seq<Row>, column: string) {
    forall i :: 0 <= i < |data| ==> ToNumber(Lookup(data[i], column)).Some?
  }

  /** `values.map(d => +d[valueKey])`. */
  function ColumnValues(rows: seq<Row>, column: string): (xs: seq<real>)
    requires NumericColumn(rows, column)
    ensures |xs| == |rows|
    ensures forall i :: 0 <= i < |rows| ==> xs[i] == ToNumber(Lookup(rows[i], column)).value
  {
    seq(|rows|, i requires 0 <= i < |rows| => ToNumber(Lookup(rows[i], column)).value)
  }

  lemma SubsequenceNumeric(a: seq<Row>, b: seq<Row>, column: string)
    requires IsSubsequence(a, b) && NumericColumn(b, column)
    ensures NumericColumn(a, column)
    decreases |b|
  {
    if b != [] {
      if a != [] && a[0] == b[0] && IsSubsequence(a[1..], b[1..]) {
        SubsequenceNumeric(a[1..], b[1..], column);
        assert forall i :: 1 <= i < |a| ==> a[i] == a[1..][i - 1];
      } else {
        SubsequenceNumeric(a, b[1..], column);
      }
    }
  }

  /** The summary of one group's values. */
  function GroupSummary(g: Group, valueKey: string): Summary
    requires g.rows != [] && NumericColumn(g.rows, valueKey)
  {
    Summarize(g.key, ColumnValues(g.rows, valueKey))
  }

  /** A group of `GroupBy` is summarised from the values of exactly the rows
      with its key, so its min and max bound each of them. */
  lemma GroupBounds(data: seq<Row>, groupKey: string, valueKey: string, g: Group)
    requires NumericColumn(data, valueKey)
    requires g.rows == WithKey(data, groupKey, g.key) && g.rows != []
    ensures NumericColumn(g.rows, valueKey)
    ensures forall j :: 0 <= j < |data| && Lookup(data[j], groupKey) == g.key ==>
              GroupSummary(g, valueKey).min <= ToNumber(Lookup(data[j], valueKey)).value <= GroupSummary(g, valueKey).max
  {
    SubsequenceNumeric(g.rows, data, valueKey);
    var s := GroupSummary(g, valueKey);
    var xs := ColumnValues(g.rows, valueKey);
    forall j | 0 <= j < |data| && Lookup(data[j], groupKey) == g.key
      ensures s.min <= ToNumber(Lookup(data[j], valueKey)).value <= s.max
    {
      FilterMembers(data, KeyIs(groupKey, g.key));
      assert data[j] in g.rows;
      var k :| 0 <= k < |g.rows| && g.rows[k] == data[j];
      assert xs[k] == ToNumber(Lookup(data[j], valueKey)).value;
    }
  }

  /** `calculateBoxPlotData(data, groupKey, valueKey)`: one summary per group
      of `GroupBy`, in the same order and with the same keys, each ordered
      min <= q1 <= median <= q3 <= max with iqr = q3 - q1 >= 0. */
  function BoxPlotData(data: seq<Row>, groupKey: string, valueKey: string): (b: seq<Summary>)
    requires NumericColumn(data, valueKey)
    ensures |b| == |GroupBy(data, groupKey)|
    ensures forall i :: 0 <= i < |b| ==> b[i].key == GroupBy(data, groupKey)[i].key
    ensures forall i :: 0 <= i < |b| ==>
              b[i].min <= b[i].q1 <= b[i].median <= b[i].q3 <= b[i].max && b[i].iqr == b[i].q3 - b[i].q1 >= 0.0
  {
    var groups := GroupBy(data, groupKey);
    forall i | 0 <= i < |groups|
      ensures NumericColumn(groups[i].rows, valueKey)
    {
      SubsequenceNumeric(groups[i].rows, data, valueKey);
    }
    seq(|groups|, i requires 0 <= i < |groups| => GroupSummary(groups[i], valueKey))
  }

  /** Each box spans its group: min and max bound the value of every row with
      the box's key. */
  lemma BoxSpansGroup(data: seq<Row>, groupKey: string, valueKey: string)
    requires NumericColumn(data, valueKey)
    ensures var b := BoxPlotData(data, groupKey, valueKey);
            forall i, j :: 0 <= i < |b| && 0 <= j < |data| && Lookup(data[j], groupKey) == b[i].key ==>
              b[i].min <= ToNumber(Lookup(data[j], valueKey)).value <= b[i].max
  {
    var b, groups := BoxPlotData(data, groupKey, valueKey), GroupBy(data, groupKey);
    forall i | 0 <= i < |b|
      ensures forall j :: 0 <= j < |data| && Lookup(data[j], groupKey) == b[i].key ==>
                b[i].min <= ToNumber(Lookup(data[j], valueKey)).value <= b[i].max
    {
      GroupBounds(data, groupKey, valueKey, groups[i]);
    }
  }

  /** Record i is the summary of the values of exactly the rows whose group
      cell is its key. */
  lemma BoxIsItsRows(data: seq<Row>, groupKey: string, valueKey: string, i: nat)
    requires NumericColumn(data, valueKey)
    requires i < |BoxPlotData(data, groupKey, valueKey)|
    ensures var b := BoxPlotData(data, groupKey, valueKey);
            var rows := WithKey(data, groupKey, b[i].key);
            rows != [] && NumericColumn(rows, valueKey) &&
            b[i] == Summarize(b[i].key, ColumnValues(rows, valueKey))
  {
    var groups := GroupBy(data, groupKey);
    SubsequenceNumeric(groups[i].rows, data, valueKey);
  }

  /** Each row's key is among the column's values. */
  lemma {:induction false} ColumnKeysHold(data: seq<Row>, column: string)
    ensures forall j :: 0 <= j < |data| ==> Lookup(data[j], column) in ColumnKeys(data, column)
  {
    if data != [] {
      var init := data[..|data| - 1];
      ColumnKeysHold(init, column);
      assert forall j :: 0 <= j < |init| ==> data[j] == init[j];
    }
  }

  /** Each of the column's values is some row's key. */
  lemma {:induction false} ColumnKeysOccur(data: seq<Row>, column: string, key: Value)
    requires key in ColumnKeys(data, column)
    ensures exists j :: 0 <= j < |data| && Lookup(data[j], column) == key
  {
    var init, last := data[..|data| - 1], data[|data| - 1];
    if Lookup(last, column) != key {
      ColumnKeysOccur(init, column, key);
      var j :| 0 <= j < |init| && Lookup(init[j], column) == key;
      assert data[j] == init[j];
    }
  }

  /** The keys of the boxes, as a set. */
  function BoxKeys(b: seq<Summary>): set<Value> {
    if b == [] then {} else {b[0].key} + BoxKeys(b[1..])
  }

  lemma {:induction false} SameKeySets(b: seq<Summary>, g: seq<Group>)
    requires |b| == |g| && forall i :: 0 <= i < |b| ==> b[i].key == g[i].key
    ensures BoxKeys(b) == Keys(g)
  {
    if b != [] {
      SameKeySets(b[1..], g[1..]);
    }
  }

  /** The plot has exactly one box per distinct `groupKey` value of the data:
      the boxes' keys are the column's values (ColumnKeysHold and
      ColumnKeysOccur: each row's key, and only those), and no two boxes share
      a key. */
  lemma OneSummaryPerKey(data: seq<Row>, groupKey: string, valueKey: string)
    requires NumericColumn(data, valueKey)
    ensures BoxKeys(BoxPlotData(data, groupKey, valueKey)) == ColumnKeys(data, groupKey)
    ensures var b := BoxPlotData(data, groupKey, valueKey);
            forall i, j :: 0 <= i < j < |b| ==> b[i].key != b[j].key
  {
    var b, g := BoxPlotData(data, groupKey, valueKey), GroupBy(data, groupKey);
    SameKeySets(b, g);
    DistinctByIndex(g);
  }

  /** The behaviour and test pages load G3 with the zero fallback, so their box
      plots are always defined. */
  lemma ZeroLoadedGradesPlot(rows: seq<Row>, plan: seq<Assignment>)
    requires plan == BehaviourPlan || plan == RadarPlan
    ensures NumericColumn(CoerceAll(rows, plan, ZeroIfNaN), "G3")
  {
    PlansWellFormed();
    var out := CoerceAll(rows, plan, ZeroIfNaN);
    forall i | 0 <= i < |out| ensures ToNumber(Lookup(out[i], "G3")).Some? {
      ZeroFallbackWritesNumbers(rows[i], plan, 0);
    }
  }

  /** The parent-education page loads G3 with plain `+`: its box plots are
      defined exactly when every G3 cell of the file is a number. */
  lemma PlainLoadedGradesPlot(rows: seq<Row>)
    ensures NumericColumn(CoerceAll(rows, ParentEducationPlan, Plain), "G3")
            <==> forall i :: 0 <= i < |rows| ==> ToNumber(Lookup(rows[i], "G3")).Some?
  {
    PlansWellFormed();
    var out := CoerceAll(rows, ParentEducationPlan, Plain);
    forall i | 0 <= i < |rows|
      ensures ToNumber(Lookup(out[i], "G3")) == ToNumber(Lookup(rows[i], "G3"))
    {
      PlainWritesNaNOnlyOnBadInput(rows[i], ParentEducationPlan, 0);
    }
  }
}
