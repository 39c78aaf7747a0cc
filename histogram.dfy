/** The final-grade bar chart: how many students have each grade 0..20.

    For each grade from 0 to 20 the chart counts the rows kept by the filter
    `d.G3 === grade`.  The comparison is strict, so only a G3 cell holding
    exactly the number `grade` is counted: text, NaN, fractional and
    out-of-range grades fall in no bucket. */
module Histogram {
  import opened Values
  import opened Filtering

  const Grades := 21

  datatype GradeCount = GradeCount(grade: int, count: nat)

  /** `d => d.G3 === grade`. */
  function HasGrade(g: int): Row -> bool {
    r => Lookup(r, "G3") == Num(g as real)
  }

  /** The rows with G3 equal to `g`. */
  function CountGrade(data: seq<Row>, g: int): (n: nat)
    ensures n <= |data|
  {
    |Filter(data, HasGrade(g))|
  }

  /** `gradeCounts`: 21 buckets, grades 0..20 in ascending order, each counting
      the rows whose G3 is exactly that grade. */
  function GradeCounts(data: seq<Row>): (r: seq<GradeCount>)
    ensures |r| == Grades
    ensures forall g :: 0 <= g < Grades ==> r[g].grade == g && r[g].count == CountGrade(data, g)
  {
    seq(Grades, g requires 0 <= g < Grades => GradeCount(g, CountGrade(data, g)))
  }

  /** The G3 cell holds one of the 21 grades. */
  predicate IsBucketGrade(v: Value) {
    v.Num? && v.x == v.x.Floor as real && 0 <= v.x.Floor <= 20
  }

  /** The row is counted in some bar. */
  predicate Bucketed(r: Row) {
    IsBucketGrade(Lookup(r, "G3"))
  }

  function Total(cs: seq<GradeCount>): nat {
    if cs == [] then 0 else cs[0].count + Total(cs[1..])
  }

  /** How many of the grades 0..n-1 a cell equals: one if it is a bucket grade
      below n, none otherwise. */
  function Hits(v: Value, n: nat): nat {
    if n == 0 then 0 else Hits(v, n - 1) + (if v == Num((n - 1) as real) then 1 else 0)
  }

  lemma {:induction false} HitsOnce(v: Value, n: nat)
    ensures Hits(v, n) == if v.Num? && v.x == v.x.Floor as real && 0 <= v.x.Floor < n then 1 else 0
  {
    if n > 0 {
      HitsOnce(v, n - 1);
      assert v == Num((n - 1) as real) <==> v.Num? && v.x == v.x.Floor as real && v.x.Floor == n - 1;
    }
  }

  /** Sum of the counts of the buckets from `g` on. */
  function TotalFrom(data: seq<Row>, g: nat): nat
    requires g <= Grades
    decreases Grades - g
  {
    if g == Grades then 0 else CountGrade(data, g) + TotalFrom(data, g + 1)
  }

  /** Hits of one row in the buckets from `g` on. */
  function HitsFrom(v: Value, g: nat): nat
    requires g <= Grades
    decreases Grades - g
  {
    if g == Grades then 0 else (if v == Num(g as real) then 1 else 0) + HitsFrom(v, g + 1)
  }

  lemma {:induction false} HitsFromIsHits(v: Value, g: nat)
    requires g <= Grades
    ensures HitsFrom(v, g) + Hits(v, g) == Hits(v, Grades)
    decreases Grades - g
  {
    if g < Grades {
      HitsFromIsHits(v, g + 1);
    }
  }

  lemma CountGradeCons(data: seq<Row>, g: int)
    requires data != []
    ensures CountGrade(data, g) == (if Lookup(data[0], "G3") == Num(g as real) then 1 else 0) + CountGrade(data[1..], g)
  {
    FilterLengthCons(data, HasGrade(g));
  }

  lemma {:induction false} TotalFromSplits(data: seq<Row>, g: nat)
    requires g <= Grades && data != []
    ensures TotalFrom(data, g) == HitsFrom(Lookup(data[0], "G3"), g) + TotalFrom(data[1..], g)
    decreases Grades - g
  {
    if g < Grades {
      TotalFromSplits(data, g + 1);
      CountGradeCons(data, g);
    }
  }

  /** The bars add up to the number of rows whose G3 is a bucket grade. */
  lemma {:induction false} TotalFromCounts(data: seq<Row>)
    ensures TotalFrom(data, 0) == |Filter(data, Bucketed)|
  {
    if data == [] {
      TotalFromEmpty(0);
    } else {
      TotalFromCounts(data[1..]);
      TotalFromSplits(data, 0);
      FilterLengthCons(data, Bucketed);
      HitsOnceInAll(Lookup(data[0], "G3"));
    }
  }

  /** A cell lands in exactly one bar when it is a bucket grade, else in none. */
  lemma HitsOnceInAll(v: Value)
    ensures HitsFrom(v, 0) == if IsBucketGrade(v) then 1 else 0
  {
    HitsFromIsHits(v, 0);
    HitsOnce(v, Grades);
    assert Hits(v, 0) == 0;
  }

  lemma {:induction false} TotalFromEmpty(g: nat)
    requires g <= Grades
    ensures TotalFrom([], g) == 0
    decreases Grades - g
  {
    if g < Grades {
      TotalFromEmpty(g + 1);
    }
  }

  lemma {:induction false} TotalIsTotalFrom(data: seq<Row>, g: nat)
    requires g <= Grades
    ensures Total(GradeCounts(data)[g..]) == TotalFrom(data, g)
    decreases Grades - g
  {
    if g < Grades {
      TotalIsTotalFrom(data, g + 1);
      assert GradeCounts(data)[g..][1..] == GradeCounts(data)[g + 1..];
    }
  }

  /** The bars never count more students than there are, and they count every
      student exactly when every G3 is one of the grades 0..20. */
  lemma TotalCount(data: seq<Row>)
    ensures Total(GradeCounts(data)) <= |data|
    ensures Total(GradeCounts(data)) == |data| <==> forall i :: 0 <= i < |data| ==> Bucketed(data[i])
  {
    TotalIsTotalFrom(data, 0);
    assert GradeCounts(data)[0..] == GradeCounts(data);
    TotalFromCounts(data);
    FilterLength(data, Bucketed);
  }
}
