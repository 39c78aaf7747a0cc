/** The five-axis radar summary of the radar pages.

    For the rows the grade filter shows, each axis is the mean of one column,
    `d3.mean(filteredData, d => d.col) || fallback`: d3.mean averages the cells
    that `+` turns into numbers and is undefined when there are none, and `||`
    replaces an undefined mean, and also a mean of exactly 0, by the fallback
    (1 for family relationship, 0 for the other axes). */
module Radar {
  import opened Values
  import opened GradeBands

  /** The numbers `+` reads from a column, in row order, NaN cells skipped. */
  function Numbers(rows: seq<Row>, column: string): (xs: seq<real>)
    ensures |xs| <= |rows|
    ensures (forall i :: 0 <= i < |rows| ==> ToNumber(Lookup(rows[i], column)).Some?) ==> |xs| == |rows|
  {
    if rows == [] then []
    else
      var rest := Numbers(rows[1..], column);
      match ToNumber(Lookup(rows[0], column))
      case Some(x) => [x] + rest
      case None => rest
  }

  /** The first row contributes its number, if its cell parses, ahead of the
      numbers of the remaining rows. */
  lemma NumbersCons(rows: seq<Row>, column: string)
    requires rows != []
    ensures var v := ToNumber(Lookup(rows[0], column));
            Numbers(rows, column) == (if v.Some? then [v.value] else []) + Numbers(rows[1..], column)
  {
    if ToNumber(Lookup(rows[0], column)).None? {
      assert [] + Numbers(rows[1..], column) == Numbers(rows[1..], column);
    }
  }

  /** When every cell of the column parses, the numbers are those cells' values,
      one per row and in row order. */
  lemma {:induction false} NumbersAllParse(rows: seq<Row>, column: string)
    requires forall i :: 0 <= i < |rows| ==> ToNumber(Lookup(rows[i], column)).Some?
    ensures |Numbers(rows, column)| == |rows|
    ensures forall i :: 0 <= i < |rows| ==> Numbers(rows, column)[i] == ToNumber(Lookup(rows[i], column)).value
  {
    if rows != [] {
      NumbersAllParse(rows[1..], column);
      assert forall i :: 1 <= i < |rows| ==> rows[i] == rows[1..][i - 1];
    }
  }

  /** `d3.mean(rows, d => d[column])`: None when no cell is a number, else
      the number whose `count` copies add up to the column's sum. */
  function Mean(rows: seq<Row>, column: string): (m: Option<real>)
    ensures m.None? <==> |Numbers(rows, column)| == 0
    ensures m.Some? ==> m.value * |Numbers(rows, column)| as real == Sum(Numbers(rows, column))
  {
    var xs := Numbers(rows, column);
    if |xs| == 0 then None else Some(Sum(xs) / |xs| as real)
  }

  /** `mean || fallback`: JavaScript's `||` treats undefined and 0 as false. */
  function OrFallback(m: Option<real>, fallback: real): (v: real)
    ensures (m.Some? && m.value != 0.0) ==> v == m.value
    ensures (m.None? || m.value == 0.0) ==> v == fallback
  {
    if m.Some? && m.value != 0.0 then m.value else fallback
  }

  datatype Axis = Axis(name: string, column: string, fallback: real)

  /** The five axes in drawing order. */
  const Axes: seq<Axis> := [
    Axis("Family Relationship (famrel)", "famrel", 1.0),
    Axis("Free Time (freetime)", "freetime", 0.0),
    Axis("Going Out with Friends (goout)", "Goout", 0.0),
    Axis("Weekend Alcohol Consumption (Walc)", "Walc", 0.0),
    Axis("Health (health)", "health", 0.0)]

  datatype RadarPoint = RadarPoint(axis: string, value: real)

  /** The `radarData` array for a set of rows: five points in the fixed axis
      order, each the column mean unless that is undefined or 0, in which case
      the axis' fallback. */
  function RadarData(rows: seq<Row>): (r: seq<RadarPoint>)
    ensures |r| == 5
    ensures forall i :: 0 <= i < 5 ==> r[i].axis == Axes[i].name
    ensures forall i :: 0 <= i < 5 ==> r[i].value == OrFallback(Mean(rows, Axes[i].column), Axes[i].fallback)
  {
    seq(5, i requires 0 <= i < 5 => RadarPoint(Axes[i].name, OrFallback(Mean(rows, Axes[i].column), Axes[i].fallback)))
  }

  /** `filterAndDrawRadar` in the test page: always five points, also for an
      empty band. */
  function FilterAndDrawRadar(data: seq<Row>, filterValue: string): (r: seq<RadarPoint>)
    ensures |r| == 5 && forall i :: 0 <= i < 5 ==> r[i].axis == Axes[i].name
    ensures forall i :: 0 <= i < 5 ==>
              r[i].value == OrFallback(Mean(GradeFilter(data, filterValue), Axes[i].column), Axes[i].fallback)
    ensures (forall row :: row in data ==> !InBand(filterValue, row)) ==>
              forall i :: 0 <= i < 5 ==> r[i].value == Axes[i].fallback
  {
    var filtered := GradeFilter(data, filterValue);
    assert |filtered| > 0 ==> filtered[0] in filtered;
    RadarData(filtered)
  }

  /** `filterDataByGrade` in the radar page: no radar data at all (the early
      return) when the band is empty, the five points otherwise. */
  function FilterDataByGrade(data: seq<Row>, filterValue: string): (r: Option<seq<RadarPoint>>)
    ensures r.None? <==> forall row :: row in data ==> !InBand(filterValue, row)
    ensures r.Some? ==> r.value == RadarData(GradeFilter(data, filterValue))
  {
    var filtered := GradeFilter(data, filterValue);
    assert |filtered| > 0 ==> filtered[0] in filtered;
    if |filtered| == 0 then None else Some(RadarData(filtered))
  }

  /** With no rows every axis shows its fallback: 1 for family relationship, 0
      elsewhere. */
  lemma EmptyRadar()
    ensures forall i :: 0 <= i < 5 ==> RadarData([])[i].value == Axes[i].fallback
    ensures [RadarData([])[0].value, RadarData([])[1].value, RadarData([])[2].value,
             RadarData([])[3].value, RadarData([])[4].value] == [1.0, 0.0, 0.0, 0.0, 0.0]
  {
  }

  /** The two pages agree wherever the band is non-empty; on an empty band the
      radar page draws nothing and the test page draws the fallbacks. */
  lemma PagesAgree(data: seq<Row>, filterValue: string)
    ensures FilterDataByGrade(data, filterValue).Some? ==>
              FilterDataByGrade(data, filterValue).value == FilterAndDrawRadar(data, filterValue)
    ensures FilterDataByGrade(data, filterValue).None? ==>
              FilterAndDrawRadar(data, filterValue) == RadarData([])
  {
  }

  lemma {:induction false} SumBounds(xs: seq<real>, lo: real, hi: real)
    requires forall i :: 0 <= i < |xs| ==> lo <= xs[i] <= hi
    ensures lo * |xs| as real <= Sum(xs) <= hi * |xs| as real
  {
    if xs != [] {
      SumBounds(xs[..|xs| - 1], lo, hi);
    }
  }

  lemma {:induction false} NumbersWithin(rows: seq<Row>, column: string, lo: real, hi: real)
    requires forall i :: 0 <= i < |rows| ==> ToNumber(Lookup(rows[i], column)).Some?
    requires forall i :: 0 <= i < |rows| ==> lo <= ToNumber(Lookup(rows[i], column)).value <= hi
    ensures forall i :: 0 <= i < |Numbers(rows, column)| ==> lo <= Numbers(rows, column)[i] <= hi
  {
    if rows != [] {
      NumbersWithin(rows[1..], column, lo, hi);
    }
  }

  lemma NonNegativeFactor(a: real, n: real)
    requires n > 0.0 && a * n >= 0.0
    ensures a >= 0.0
  {
    assert a == (a * n) / n;
  }

  /** A mean lies between the smallest and largest values averaged. */
  lemma MeanWithin(rows: seq<Row>, column: string, lo: real, hi: real)
    requires rows != []
    requires forall i :: 0 <= i < |rows| ==> ToNumber(Lookup(rows[i], column)).Some?
    requires forall i :: 0 <= i < |rows| ==> lo <= ToNumber(Lookup(rows[i], column)).value <= hi
    ensures Mean(rows, column).Some? && lo <= Mean(rows, column).value <= hi
  {
    var xs := Numbers(rows, column);
    NumbersWithin(rows, column, lo, hi);
    SumBounds(xs, lo, hi);
    var n := |xs| as real;
    var m := Mean(rows, column).value;
    assert n > 0.0 && m == Sum(xs) / n;
    NonNegativeFactor(m - lo, n);
    NonNegativeFactor(hi - m, n);
  }

  /** On a non-empty set of rows whose five radar cells are all answers on the
      questionnaire's 1..5 scale, no fallback fires: every axis is its mean and
      lies on the same scale. */
  lemma RadarOnScale(rows: seq<Row>)
    requires rows != []
    requires forall i, k :: 0 <= i < |rows| && 0 <= k < 5 ==>
               ToNumber(Lookup(rows[i], Axes[k].column)).Some? &&
               1.0 <= ToNumber(Lookup(rows[i], Axes[k].column)).value <= 5.0
    ensures forall k :: 0 <= k < 5 ==> RadarData(rows)[k].value == Mean(rows, Axes[k].column).value
    ensures forall k :: 0 <= k < 5 ==> 1.0 <= RadarData(rows)[k].value <= 5.0
  {
    forall k | 0 <= k < 5
      ensures Mean(rows, Axes[k].column).Some? && 1.0 <= Mean(rows, Axes[k].column).value <= 5.0
    {
      MeanWithin(rows, Axes[k].column, 1.0, 5.0);
    }
  }
}
