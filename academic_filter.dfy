/** The five drop-down filters of the scatter-plot page.

    Each of course, higher, internet, activities and paid is either the
    wildcard "all" or a value the row's cell must equal (strict equality, so a
    row lacking the column or holding a number never matches a concrete
    choice).  The page keeps rows that pass all five. */
module AcademicFilter {
  import opened Values
  import opened Filtering

  const All := "all"

  /** The values of the five `<select>` elements when `filterData` runs. */
  datatype Selection = Selection(course: string, higher: string, internet: string, activities: string, paid: string)

  /** What `resetFilters` puts in every `<select>`. */
  const Reset := Selection(All, All, All, All, All)

  /** `choice === "all" || cell === choice`. */
  predicate Accepts(choice: string, cell: Value) {
    choice == All || cell == Str(choice)
  }

  predicate Matches(sel: Selection, r: Row) {
    && Accepts(sel.course, Lookup(r, "course"))
    && Accepts(sel.higher, Lookup(r, "higher"))
    && Accepts(sel.internet, Lookup(r, "internet"))
    && Accepts(sel.activities, Lookup(r, "activities"))
    && Accepts(sel.paid, Lookup(r, "paid"))
  }

  /** The callback given to `data.filter`. */
  function Matcher(sel: Selection): Row -> bool {
    row => Matches(sel, row)
  }

  /** `filterData(data)` with the selections passed in: an order-preserving
      subsequence of the data holding exactly the rows that pass all five
      criteria. */
  function FilterData(data: seq<Row>, sel: Selection): (r: seq<Row>)
    ensures IsSubsequence(r, data)
    ensures forall row :: row in r <==> row in data && Matches(sel, row)
    ensures forall row :: multiset(r)[row] == if Matches(sel, row) then multiset(data)[row] else 0
  {
    FilterMembers(data, Matcher(sel));
    FilterCountsAll(data, Matcher(sel));
    Filter(data, Matcher(sel))
  }

  /** After a reset the page shows the whole data set, in file order. */
  lemma ResetKeepsEverything(data: seq<Row>)
    ensures FilterData(data, Reset) == data
  {
    FilterKeepsAll(data, Matcher(Reset));
  }

  /** Applying the same selection to its own result changes nothing. */
  lemma FilterDataIdempotent(data: seq<Row>, sel: Selection)
    ensures FilterData(FilterData(data, sel), sel) == FilterData(data, sel)
  {
    FilterIdempotent(data, Matcher(sel));
  }

  /** The one choice that accepts exactly what both choices accept, if any. */
  function MeetChoice(a: string, b: string): (c: Option<string>)
    ensures c.Some? ==> forall v :: Accepts(c.value, v) <==> Accepts(a, v) && Accepts(b, v)
    ensures c.None? ==> forall v :: !(Accepts(a, v) && Accepts(b, v))
  {
    if a == All then Some(b)
    else if b == All || a == b then Some(a)
    else None
  }

  /** The selection equivalent to two selections at once, or None when two
      concrete choices for one column conflict. */
  function Meet(a: Selection, b: Selection): (m: Option<Selection>)
    ensures m.Some? ==> forall r :: Matches(m.value, r) <==> Matches(a, r) && Matches(b, r)
    ensures m.None? ==> forall r :: !(Matches(a, r) && Matches(b, r))
  {
    var course := MeetChoice(a.course, b.course);
    var higher := MeetChoice(a.higher, b.higher);
    var internet := MeetChoice(a.internet, b.internet);
    var activities := MeetChoice(a.activities, b.activities);
    var paid := MeetChoice(a.paid, b.paid);
    if course.Some? && higher.Some? && internet.Some? && activities.Some? && paid.Some? then
      Some(Selection(course.value, higher.value, internet.value, activities.value, paid.value))
    else None
  }

  /** Filtering by `a` and then by `b` is filtering once by both: by the
      combined selection, or down to nothing when they conflict. */
  lemma FilterDataTwice(data: seq<Row>, a: Selection, b: Selection)
    ensures FilterData(FilterData(data, a), b) == match Meet(a, b)
                                                   case Some(c) => FilterData(data, c)
                                                   case None => []
  {
    var both := Both(Matcher(a), Matcher(b));
    FilterThenFilter(data, Matcher(a), Matcher(b));
    match Meet(a, b)
    case Some(c) =>
      assert forall i :: 0 <= i < |data| ==> both(data[i]) == Matcher(c)(data[i]);
      FilterCongruent(data, both, Matcher(c));
    case None =>
      assert forall i :: 0 <= i < |data| ==> !both(data[i]);
      FilterKeepsNone(data, both);
  }
}
