/** The coercion passes of the load callbacks.

    Every script walks the freshly loaded rows once and overwrites a fixed list
    of cells with `+cell` (or `isNaN(+cell) ? 0 : +cell`).  One step of such a
    pass writes a target column from a source column; the two differ only where
    the lower-case `goout` column is copied into `Goout`.  The row array and
    each row are updated in place; the model keeps the rows in an array and
    replaces each element by its updated row. */
module Coercion {
  import opened Values

  /** `d.target = +d.source` (with or without the zero fallback). */
  datatype Assignment = Assignment(target: string, source: string)

  function Targets(plan: seq<Assignment>): set<string> {
    set j | 0 <= j < |plan| :: plan[j].target
  }

  /** No column is written twice, and no step reads a column an earlier step
      has already overwritten; every pass in the scripts has this shape. */
  predicate WellFormed(plan: seq<Assignment>) {
    forall i, j :: 0 <= i < j < |plan| ==> plan[i].target != plan[j].target && plan[i].target != plan[j].source
  }

  /** The body of the `forEach` callback: the steps in order, on one row. */
  function CoerceRow(r: Row, plan: seq<Assignment>, mode: Mode): (out: Row)
    ensures out.Keys == r.Keys + Targets(plan)
    decreases |plan|
  {
    if plan == [] then r
    else
      TargetsCons(plan);
      CoerceRow(r[plan[0].target := Coerce(Lookup(r, plan[0].source), mode)], plan[1..], mode)
  }

  /** The targets of a plan are its first target and those of the rest. */
  lemma TargetsCons(plan: seq<Assignment>)
    requires plan != []
    ensures Targets(plan) == {plan[0].target} + Targets(plan[1..])
  {
    var a, rest := plan[0], plan[1..];
    forall t | t in Targets(plan) ensures t in {a.target} + Targets(rest) {
      var j :| 0 <= j < |plan| && plan[j].target == t;
      if j > 0 { assert rest[j - 1] == plan[j]; }
    }
    forall t | t in Targets(rest) ensures t in Targets(plan) {
      var j :| 0 <= j < |rest| && rest[j].target == t;
      assert plan[j + 1] == rest[j];
    }
  }

  /** `after` is `before` with exactly the plan's target cells rewritten, each
      from its source cell as it was before the pass; every other cell, present
      or absent, is as it was. */
  ghost predicate CoercedFrom(before: Row, after: Row, plan: seq<Assignment>, mode: Mode) {
    && after.Keys == before.Keys + Targets(plan)
    && (forall k :: k in before && k !in Targets(plan) ==> after[k] == before[k])
    && (forall j :: 0 <= j < |plan| ==> after[plan[j].target] == Coerce(Lookup(before, plan[j].source), mode))
  }

  /** Dropping the first step keeps a plan well formed. */
  lemma WellFormedTail(plan: seq<Assignment>)
    requires plan != [] && WellFormed(plan)
    ensures WellFormed(plan[1..])
  {
    var rest := plan[1..];
    forall i, j | 0 <= i < j < |rest|
      ensures rest[i].target != rest[j].target && rest[i].target != rest[j].source
    {
      assert rest[i] == plan[i + 1] && rest[j] == plan[j + 1];
    }
  }

  /** In a well-formed plan the first target is not written again. */
  lemma TargetsSplit(plan: seq<Assignment>)
    requires plan != [] && WellFormed(plan)
    ensures Targets(plan) == {plan[0].target} + Targets(plan[1..])
    ensures plan[0].target !in Targets(plan[1..])
  {
    var a, rest := plan[0], plan[1..];
    TargetsCons(plan);
    forall j | 0 <= j < |rest| ensures rest[j].target != a.target {
      assert rest[j] == plan[j + 1];
    }
  }

  /** One row through the pass changes the target cells and nothing else. */
  lemma {:induction false} CoerceRowChangesOnlyTargets(r: Row, plan: seq<Assignment>, mode: Mode)
    requires WellFormed(plan)
    ensures CoercedFrom(r, CoerceRow(r, plan, mode), plan, mode)
    decreases |plan|
  {
    if plan != [] {
      var a, rest := plan[0], plan[1..];
      var r1 := r[a.target := Coerce(Lookup(r, a.source), mode)];
      WellFormedTail(plan);
      TargetsSplit(plan);
      CoerceRowChangesOnlyTargets(r1, rest, mode);
      var after := CoerceRow(r, plan, mode);
      assert after == CoerceRow(r1, rest, mode);
      forall j | 0 <= j < |plan|
        ensures after[plan[j].target] == Coerce(Lookup(r, plan[j].source), mode)
      {
        if j > 0 {
          assert plan[j] == rest[j - 1];
          assert plan[j].source != a.target;
        }
      }
    }
  }

  /** The whole pass over a loaded array, as a function of the loaded rows. */
  function CoerceAll(rows: seq<Row>, plan: seq<Assignment>, mode: Mode): (out: seq<Row>)
    ensures |out| == |rows|
  {
    seq(|rows|, i requires 0 <= i < |rows| => CoerceRow(rows[i], plan, mode))
  }

  /** Row i of the pass is row i of the input with the plan's cells coerced
      and every other cell kept. */
  lemma CoerceAllRows(rows: seq<Row>, plan: seq<Assignment>, mode: Mode)
    requires WellFormed(plan)
    ensures forall i :: 0 <= i < |rows| ==> CoercedFrom(rows[i], CoerceAll(rows, plan, mode)[i], plan, mode)
  {
    forall i | 0 <= i < |rows|
      ensures CoercedFrom(rows[i], CoerceAll(rows, plan, mode)[i], plan, mode)
    {
      CoerceRowChangesOnlyTargets(rows[i], plan, mode);
    }
  }

  /** `data.forEach(d => { ... })`: every row is rewritten in place, in order. */
  method CoerceColumns(data: array<Row>, plan: seq<Assignment>, mode: Mode)
    modifies data
    ensures data[..] == CoerceAll(old(data[..]), plan, mode)
  {
    var i := 0;
    while i < data.Length
      invariant 0 <= i <= data.Length
      invariant forall k :: 0 <= k < i ==> data[k] == CoerceRow(old(data[k]), plan, mode)
      invariant forall k :: i <= k < data.Length ==> data[k] == old(data[k])
    {
      data[i] := CoerceRow(data[i], plan, mode);
      i := i + 1;
    }
    assert forall k :: 0 <= k < data.Length ==> data[..][k] == CoerceAll(old(data[..]), plan, mode)[k];
  }

  /** A coercion pass as a load callback runs it: row count and order are kept,
      and each row changes in exactly the plan's target cells. */
  method RunPass(data: array<Row>, plan: seq<Assignment>, mode: Mode)
    requires WellFormed(plan)
    modifies data
    ensures forall i :: 0 <= i < data.Length ==> CoercedFrom(old(data[i]), data[i], plan, mode)
  {
    CoerceColumns(data, plan, mode);
    forall i | 0 <= i < data.Length
      ensures CoercedFrom(old(data[i]), data[i], plan, mode)
    {
      CoerceRowChangesOnlyTargets(old(data[i]), plan, mode);
    }
  }

  // The passes of the individual scripts.

  const AcademicPlan := [Assignment("absences", "absences"), Assignment("G3", "G3"), Assignment("studytime", "studytime")]
  const GradePlan := [Assignment("G3", "G3")]
  const ParentEducationPlan := [Assignment("G3", "G3"), Assignment("Medu", "Medu"), Assignment("Fedu", "Fedu")]
  const BehaviourPlan := [Assignment("G3", "G3"), Assignment("Walc", "Walc"), Assignment("Goout", "goout")]
  const RadarPlan := [
    Assignment("G3", "G3"), Assignment("Walc", "Walc"), Assignment("Goout", "goout"),
    Assignment("famrel", "famrel"), Assignment("freetime", "freetime"), Assignment("health", "health")]

  /** The scatter-plot page: absences, G3 and studytime through plain `+`. */
  method AcademicLoad(data: array<Row>)
    modifies data
    ensures forall i :: 0 <= i < data.Length ==> CoercedFrom(old(data[i]), data[i], AcademicPlan, Plain)
  {
    PlansWellFormed();
    RunPass(data, AcademicPlan, Plain);
  }

  /** The grade bar chart: G3 only, with the zero fallback. */
  method GradeLoad(data: array<Row>)
    modifies data
    ensures forall i :: 0 <= i < data.Length ==> CoercedFrom(old(data[i]), data[i], GradePlan, ZeroIfNaN)
  {
    PlansWellFormed();
    RunPass(data, GradePlan, ZeroIfNaN);
  }

  /** The parental-education box plots: G3, Medu and Fedu through plain `+`. */
  method ParentEducationLoad(data: array<Row>)
    modifies data
    ensures forall i :: 0 <= i < data.Length ==> CoercedFrom(old(data[i]), data[i], ParentEducationPlan, Plain)
  {
    PlansWellFormed();
    RunPass(data, ParentEducationPlan, Plain);
  }

  /** The behaviour box plots: G3, Walc, and Goout from goout, with the zero fallback. */
  method BehaviourLoad(data: array<Row>)
    modifies data
    ensures forall i :: 0 <= i < data.Length ==> CoercedFrom(old(data[i]), data[i], BehaviourPlan, ZeroIfNaN)
  {
    PlansWellFormed();
    RunPass(data, BehaviourPlan, ZeroIfNaN);
  }

  /** The radar pages: the five radar columns and G3, with the zero fallback. */
  method RadarLoad(data: array<Row>)
    modifies data
    ensures forall i :: 0 <= i < data.Length ==> CoercedFrom(old(data[i]), data[i], RadarPlan, ZeroIfNaN)
  {
    PlansWellFormed();
    RunPass(data, RadarPlan, ZeroIfNaN);
  }

  /** With the zero fallback every cell a pass writes holds a number, never NaN. */
  lemma ZeroFallbackWritesNumbers(r: Row, plan: seq<Assignment>, j: nat)
    requires WellFormed(plan) && j < |plan|
    ensures Lookup(CoerceRow(r, plan, ZeroIfNaN), plan[j].target).Num?
    ensures ToNumber(Lookup(CoerceRow(r, plan, ZeroIfNaN), plan[j].target)) == Some(ToNumber(Lookup(r, plan[j].source)).GetOr(0.0))
  {
    CoerceRowChangesOnlyTargets(r, plan, ZeroIfNaN);
  }

  /** Under plain `+` a written cell is NaN exactly when its source does not parse. */
  lemma PlainWritesNaNOnlyOnBadInput(r: Row, plan: seq<Assignment>, j: nat)
    requires WellFormed(plan) && j < |plan|
    ensures Lookup(CoerceRow(r, plan, Plain), plan[j].target).NaN? <==> ToNumber(Lookup(r, plan[j].source)).None?
    ensures ToNumber(Lookup(CoerceRow(r, plan, Plain), plan[j].target)) == ToNumber(Lookup(r, plan[j].source))
  {
    CoerceRowChangesOnlyTargets(r, plan, Plain);
  }

  /** After a zero-fallback pass that writes G3, every row's G3 is a number. */
  lemma LoadedGradesAreNumbers(rows: seq<Row>, plan: seq<Assignment>, j: nat)
    requires WellFormed(plan) && j < |plan| && plan[j].target == "G3"
    ensures forall r :: r in CoerceAll(rows, plan, ZeroIfNaN) ==> ToNumber(Lookup(r, "G3")).Some?
  {
    var out := CoerceAll(rows, plan, ZeroIfNaN);
    forall r | r in out ensures ToNumber(Lookup(r, "G3")).Some? {
      var i :| 0 <= i < |out| && out[i] == r;
      ZeroFallbackWritesNumbers(rows[i], plan, j);
    }
  }

  /** The per-script plans are well formed. */
  lemma PlansWellFormed()
    ensures WellFormed(AcademicPlan) && WellFormed(GradePlan) && WellFormed(ParentEducationPlan)
    ensures WellFormed(BehaviourPlan) && WellFormed(RadarPlan)
  {
  }
}
