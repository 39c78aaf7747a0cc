/** The final-grade filter of the radar pages.

    The `grade-filter` drop-down selects "lessThan10", "between10And15" or
    "greaterThan14"; any other value shows every student.  The comparisons are
    JavaScript's: the G3 cell goes through `+`, and a NaN grade fails every
    comparison. */
module GradeBands {
  import opened Values
  import opened Filtering

  /** `+d.G3`. */
  function Grade(r: Row): Option<real> {
    ToNumber(Lookup(r, "G3"))
  }

  /** `d.G3 < 10`. */
  predicate Below10(r: Row) {
    Grade(r).Some? && Grade(r).value < 10.0
  }

  /** `d.G3 >= 10 && d.G3 < 15`. */
  predicate From10To15(r: Row) {
    Grade(r).Some? && 10.0 <= Grade(r).value < 15.0
  }

  /** `d.G3 >= 15`. */
  predicate From15(r: Row) {
    Grade(r).Some? && Grade(r).value >= 15.0
  }

  /** Whether a row is shown under a drop-down value. */
  predicate InBand(filterValue: string, r: Row) {
    if filterValue == "lessThan10" then Below10(r)
    else if filterValue == "between10And15" then From10To15(r)
    else if filterValue == "greaterThan14" then From15(r)
    else true
  }

  /** The if-chain that picks `filteredData`: an order-preserving subsequence
      of the data holding exactly the rows shown under `filterValue`. */
  function GradeFilter(data: seq<Row>, filterValue: string): (r: seq<Row>)
    ensures IsSubsequence(r, data)
    ensures forall row :: row in r <==> row in data && InBand(filterValue, row)
    ensures forall row :: multiset(r)[row] == if InBand(filterValue, row) then multiset(data)[row] else 0
  {
    if filterValue == "lessThan10" then
      FilterMembers(data, Below10); FilterCountsAll(data, Below10); Filter(data, Below10)
    else if filterValue == "between10And15" then
      FilterMembers(data, From10To15); FilterCountsAll(data, From10To15); Filter(data, From10To15)
    else if filterValue == "greaterThan14" then
      FilterMembers(data, From15); FilterCountsAll(data, From15); Filter(data, From15)
    else SubsequenceReflexive(data); data
  }

  /** A value outside the three bands leaves the data as it is. */
  lemma OtherValueShowsAll(data: seq<Row>, filterValue: string)
    requires filterValue !in {"lessThan10", "between10And15", "greaterThan14"}
    ensures GradeFilter(data, filterValue) == data
  {
  }

  /** When every grade is a number, the three bands split the data: each row
      lands in exactly one band, so the bands' sizes add up to the row count. */
  lemma BandsPartition(data: seq<Row>)
    requires forall i :: 0 <= i < |data| ==> Grade(data[i]).Some?
    ensures multiset(GradeFilter(data, "lessThan10")) + multiset(GradeFilter(data, "between10And15"))
              + multiset(GradeFilter(data, "greaterThan14")) == multiset(data)
    ensures |GradeFilter(data, "lessThan10")| + |GradeFilter(data, "between10And15")|
              + |GradeFilter(data, "greaterThan14")| == |data|
  {
    var low, mid, high := GradeFilter(data, "lessThan10"), GradeFilter(data, "between10And15"),
                          GradeFilter(data, "greaterThan14");
    forall row ensures (multiset(low) + multiset(mid) + multiset(high))[row] == multiset(data)[row] {
      if row in data {
        var i :| 0 <= i < |data| && data[i] == row;
        OneBand(row);
      }
    }
    assert multiset(low) + multiset(mid) + multiset(high) == multiset(data);
    assert |multiset(low)| == |low| && |multiset(mid)| == |mid| && |multiset(high)| == |high|;
  }

  /** A row with a numeric grade is in exactly one band. */
  lemma OneBand(r: Row)
    requires Grade(r).Some?
    ensures (if Below10(r) then 1 else 0) + (if From10To15(r) then 1 else 0) + (if From15(r) then 1 else 0) == 1
  {
  }

  /** No row is in two bands. */
  lemma BandsDisjoint(r: Row)
    ensures !(Below10(r) && From10To15(r)) && !(Below10(r) && From15(r)) && !(From10To15(r) && From15(r))
  {
  }

  /** A row whose grade is NaN is in none of the three bands. */
  lemma NaNGradeInNoBand(r: Row)
    requires Grade(r).None?
    ensures !Below10(r) && !From10To15(r) && !From15(r)
  {
  }
}
