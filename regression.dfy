/** `calculateLinearRegression(data)`: the least-squares line of final grade
    (G3) against absences over the rows on the scatter plot.

    Each sum is `d3.sum`, which reads every accessor result through `+` and
    skips NaN; a skipped term contributes what a 0 would, so every cell is
    read as its number or 0.  The row count `n` is `data.length`, rows with
    NaN cells included.  With D = n * sumX2 - sumX^2 the slope is
    (n * sumXY - sumX * sumY) / D and the intercept (sumY - slope * sumX) / n.
    JavaScript divides by a zero D into an infinite or NaN line; the model
    returns None there. */
module Regression {
  import opened Values

  /** `d.absences` as d3.sum reads it. */
  function X(r: Row): real {
    ToNumber(Lookup(r, "absences")).GetOr(0.0)
  }

  /** `d.G3` as d3.sum reads it. */
  function Y(r: Row): real {
    ToNumber(Lookup(r, "G3")).GetOr(0.0)
  }

  function Xs(data: seq<Row>): (xs: seq<real>)
    ensures |xs| == |data| && forall i :: 0 <= i < |data| ==> xs[i] == X(data[i])
  {
    seq(|data|, i requires 0 <= i < |data| => X(data[i]))
  }

  function Ys(data: seq<Row>): (ys: seq<real>)
    ensures |ys| == |data| && forall i :: 0 <= i < |data| ==> ys[i] == Y(data[i])
  {
    seq(|data|, i requires 0 <= i < |data| => Y(data[i]))
  }

  /** Sum of the pairwise products. */
  function Dot(xs: seq<real>, ys: seq<real>): real
    requires |xs| == |ys|
  {
    if xs == [] then 0.0 else Dot(xs[..|xs| - 1], ys[..|ys| - 1]) + xs[|xs| - 1] * ys[|ys| - 1]
  }

  /** n * sumX2 - sumX * sumX, the denominator of the slope. */
  function Determinant(n: real, sx: real, sxx: real): real {
    n * sxx - sx * sx
  }

  function Denominator(xs: seq<real>): real {
    Determinant(|xs| as real, Sum(xs), Dot(xs, xs))
  }

  datatype Line = Line(slope: real, intercept: real)

  /** The two normal equations of least squares: the residuals y - (m x + c)
      add up to 0 and are uncorrelated with x. */
  predicate NormalEquations(xs: seq<real>, ys: seq<real>, l: Line)
    requires |xs| == |ys|
  {
    Solves(|xs| as real, Sum(xs), Sum(ys), Dot(xs, ys), Dot(xs, xs), l.slope, l.intercept)
  }

  /** The normal equations on the five sums, for slope m and intercept c. */
  predicate Solves(n: real, sx: real, sy: real, sxy: real, sxx: real, m: real, c: real) {
    && sy == m * sx + n * c
    && sxy == m * sxx + c * sx
  }

  /** The script's formulas on the five sums n, sumX, sumY, sumXY and sumX2:
      None when the denominator n * sumX2 - sumX^2 is 0, otherwise the slope
      and intercept, which solve the normal equations. */
  function Solve(n: real, sx: real, sy: real, sxy: real, sxx: real): (l: Option<Line>)
    requires n >= 0.0 && (n == 0.0 ==> sx == 0.0)
    ensures l.None? <==> Determinant(n, sx, sxx) == 0.0
    ensures l.Some? ==> Solves(n, sx, sy, sxy, sxx, l.value.slope, l.value.intercept)
  {
    var d := Determinant(n, sx, sxx);
    if d == 0.0 then None
    else
      var m := (n * sxy - sx * sy) / d;
      var c := (sy - m * sx) / n;
      SolvesNormalEquations(n, sx, sy, sxy, sxx, m, c);
      Some(Line(m, c))
  }

  /** The fit of ys against xs: None when D is 0, otherwise the line solving
      the normal equations. */
  function Fit(xs: seq<real>, ys: seq<real>): (l: Option<Line>)
    requires |xs| == |ys|
    ensures l.None? <==> Denominator(xs) == 0.0
    ensures l.Some? ==> NormalEquations(xs, ys, l.value)
  {
    Solve(|xs| as real, Sum(xs), Sum(ys), Dot(xs, ys), Dot(xs, xs))
  }

  /** `calculateLinearRegression(data)`. */
  function LinearRegression(data: seq<Row>): (l: Option<Line>)
    ensures l.None? <==> Denominator(Xs(data)) == 0.0
    ensures l.Some? ==> NormalEquations(Xs(data), Ys(data), l.value)
  {
    Fit(Xs(data), Ys(data))
  }

  /** When D is not 0 the normal equations have one solution, so the line
      returned is the least-squares line. */
  lemma RegressionUnique(xs: seq<real>, ys: seq<real>, l: Line)
    requires |xs| == |ys| && Denominator(xs) != 0.0 && NormalEquations(xs, ys, l)
    ensures Fit(xs, ys) == Some(l)
  {
    var f := Fit(xs, ys).value;
    var n, sx, sy, sxy, sxx := |xs| as real, Sum(xs), Sum(ys), Dot(xs, ys), Dot(xs, xs);
    assert xs != [] by {
      assert Denominator([]) == 0.0;
    }
    assert Solves(n, sx, sy, sxy, sxx, l.slope, l.intercept);
    assert Solves(n, sx, sy, sxy, sxx, f.slope, f.intercept);
    SolutionUnique(n, sx, sy, sxy, sxx, l.slope, l.intercept, f.slope, f.intercept);
  }

  /** The fitted line passes through the mean point (mean absences, mean G3). */
  lemma PassesThroughMeans(data: seq<Row>)
    requires LinearRegression(data).Some?
    ensures var l, n := LinearRegression(data).value, |data| as real;
            n > 0.0 && Sum(Ys(data)) / n == l.slope * (Sum(Xs(data)) / n) + l.intercept
  {
    var xs, ys := Xs(data), Ys(data);
    var l := Fit(xs, ys).value;
    assert xs != [] by {
      assert Denominator([]) == 0.0;
    }
    assert NormalEquations(xs, ys, l);
    MeanPoint(|xs| as real, Sum(xs), Sum(ys), Dot(xs, ys), Dot(xs, xs), l.slope, l.intercept);
  }

  /** Summing y = a x + b over the rows. */
  lemma {:induction false} SumAffine(xs: seq<real>, ys: seq<real>, a: real, b: real)
    requires |xs| == |ys| && forall i :: 0 <= i < |xs| ==> ys[i] == a * xs[i] + b
    ensures Sum(ys) == a * Sum(xs) + |xs| as real * b
  {
    if xs != [] {
      var init, x := xs[..|xs| - 1], xs[|xs| - 1];
      SumAffine(init, ys[..|ys| - 1], a, b);
      AffineSum(a, b, Sum(init), x, Sum(xs), |init| as real, |xs| as real);
    } else {
      assert a * 0.0 == 0.0;
    }
  }

  /** v = a q + b s, an equation between totals kept whole as one fact. */
  predicate Combination(v: real, a: real, q: real, b: real, s: real) {
    v == a * q + b * s
  }

  /** Summing x * y with y = a x + b over the rows. */
  lemma DotAffine(xs: seq<real>, ys: seq<real>, a: real, b: real)
    requires |xs| == |ys| && forall i :: 0 <= i < |xs| ==> ys[i] == a * xs[i] + b
    ensures Combination(Dot(xs, ys), a, Dot(xs, xs), b, Sum(xs))
  {
    var ps, qs := Products(xs, ys), Products(xs, xs);
    ProductsAffine(xs, ys, a, b);
    SumCombination(ps, qs, xs, a, b);
    DotIsSumOfProducts(xs, ys);
    DotIsSumOfProducts(xs, xs);
  }

  /** The per-row products x_i * y_i. */
  function Products(xs: seq<real>, ys: seq<real>): seq<real>
    requires |xs| == |ys|
  {
    seq(|xs|, i requires 0 <= i < |xs| => xs[i] * ys[i])
  }

  /** Row by row, x y = a x^2 + b x on the line y = a x + b. */
  lemma ProductsAffine(xs: seq<real>, ys: seq<real>, a: real, b: real)
    requires |xs| == |ys| && forall i :: 0 <= i < |xs| ==> ys[i] == a * xs[i] + b
    ensures forall i :: 0 <= i < |Products(xs, ys)| ==>
              Combination(Products(xs, ys)[i], a, Products(xs, xs)[i], b, xs[i])
  {
    forall i | 0 <= i < |xs| ensures Combination(Products(xs, ys)[i], a, Products(xs, xs)[i], b, xs[i]) {
      AffineProduct(a, b, xs[i], ys[i]);
    }
  }

  lemma {:induction false} DotIsSumOfProducts(xs: seq<real>, ys: seq<real>)
    requires |xs| == |ys|
    ensures Dot(xs, ys) == Sum(Products(xs, ys))
  {
    if xs != [] {
      var n := |xs| - 1;
      DotIsSumOfProducts(xs[..n], ys[..n]);
      assert forall k :: 0 <= k < n ==> Products(xs, ys)[..n][k] == Products(xs[..n], ys[..n])[k];
      assert Products(xs, ys)[..n] == Products(xs[..n], ys[..n]);
    }
  }

  /** Summing a fixed combination a q_i + b r_i row by row. */
  lemma {:induction false} SumCombination(ps: seq<real>, qs: seq<real>, rs: seq<real>, a: real, b: real)
    requires |ps| == |qs| == |rs| && forall i :: 0 <= i < |ps| ==> Combination(ps[i], a, qs[i], b, rs[i])
    ensures Combination(Sum(ps), a, Sum(qs), b, Sum(rs))
  {
    if ps != [] {
      var n := |ps| - 1;
      SumCombination(ps[..n], qs[..n], rs[..n], a, b);
      CombineStep(a, b, Sum(qs[..n]), Sum(rs[..n]), qs[n], rs[n], Sum(qs), Sum(rs));
    } else {
      NoProducts(a, b, Sum(qs), Sum(rs));
    }
  }

  /** Rows lying on the line y = a x + b satisfy its normal equations. */
  lemma OnLineNormalEquations(xs: seq<real>, ys: seq<real>, a: real, b: real)
    requires |xs| == |ys| && forall i :: 0 <= i < |xs| ==> ys[i] == a * xs[i] + b
    ensures NormalEquations(xs, ys, Line(a, b))
  {
    SumAffine(xs, ys, a, b);
    DotAffine(xs, ys, a, b);
    SumsOnLine(xs, ys, a, b);
  }

  lemma SumsOnLine(xs: seq<real>, ys: seq<real>, a: real, b: real)
    requires |xs| == |ys|
    requires Combination(Sum(ys), a, Sum(xs), |xs| as real, b)
    requires Combination(Dot(xs, ys), a, Dot(xs, xs), b, Sum(xs))
    ensures NormalEquations(xs, ys, Line(a, b))
  {
    CombinationsSolve(|xs| as real, Sum(xs), Sum(ys), Dot(xs, ys), Dot(xs, xs), a, b);
  }

  /** Data lying exactly on a line y = a x + b, with at least two different
      absence counts, gives back that line. */
  lemma ExactLineRecovered(xs: seq<real>, ys: seq<real>, a: real, b: real)
    requires |xs| == |ys| && forall i :: 0 <= i < |xs| ==> ys[i] == a * xs[i] + b
    requires !AllEqual(xs)
    ensures Fit(xs, ys) == Some(Line(a, b))
  {
    OnLineNormalEquations(xs, ys, a, b);
    DenominatorZero(xs);
    RegressionUnique(xs, ys, Line(a, b));
  }

  // ------------------------------------------------------------- algebra

  lemma SolvesNormalEquations(n: real, sx: real, sy: real, sxy: real, sxx: real, m: real, c: real)
    requires n != 0.0 && n * sxx - sx * sx != 0.0
    requires m == (n * sxy - sx * sy) / (n * sxx - sx * sx) && c == (sy - m * sx) / n
    ensures sy == m * sx + n * c
    ensures sxy == m * sxx + c * sx
  {
    var d := n * sxx - sx * sx;
    assert n * c == sy - m * sx;
    assert m * d == n * sxy - sx * sy;
    calc {
      n * (m * sxx + c * sx);
      m * (n * sxx) + (n * c) * sx;
      m * (n * sxx) + (sy - m * sx) * sx;
      m * d + sy * sx;
      n * sxy;
    }
  }

  /** With n and D not 0 the normal equations have at most one solution. */
  lemma SolutionUnique(n: real, sx: real, sy: real, sxy: real, sxx: real, m: real, c: real, m': real, c': real)
    requires n != 0.0 && Determinant(n, sx, sxx) != 0.0
    requires Solves(n, sx, sy, sxy, sxx, m, c) && Solves(n, sx, sy, sxy, sxx, m', c')
    ensures m == m' && c == c'
  {
    assert (m - m') * sx + n * (c - c') == 0.0;
    assert (m - m') * sxx + (c - c') * sx == 0.0;
    OnlySolution(n, sx, sxx, m - m', c - c');
  }

  /** Two solutions of the normal equations differ by (dm, dc) = (0, 0). */
  lemma OnlySolution(n: real, sx: real, sxx: real, dm: real, dc: real)
    requires n != 0.0 && n * sxx - sx * sx != 0.0
    requires dm * sx + n * dc == 0.0 && dm * sxx + dc * sx == 0.0
    ensures dm == 0.0 && dc == 0.0
  {
    assert dm * (n * sxx - sx * sx) == n * (dm * sxx + dc * sx) - sx * (dm * sx + n * dc);
  }

  lemma MeanPoint(n: real, sx: real, sy: real, sxy: real, sxx: real, m: real, c: real)
    requires n > 0.0 && Solves(n, sx, sy, sxy, sxx, m, c)
    ensures sy / n == m * (sx / n) + c
  {
    assert m * (sx / n) == (m * sx) / n;
  }

  lemma AffineSum(a: real, b: real, s: real, x: real, total: real, n: real, n1: real)
    requires total == s + x && n1 == n + 1.0
    ensures (a * s + n * b) + (a * x + b) == a * total + n1 * b
  {
  }

  lemma AffineProduct(a: real, b: real, x: real, y: real)
    requires y == a * x + b
    ensures x * y == a * (x * x) + b * x
  {
  }

  lemma CombinationsSolve(n: real, sx: real, sy: real, sxy: real, sxx: real, m: real, c: real)
    requires Combination(sy, m, sx, n, c) && Combination(sxy, m, sxx, c, sx)
    ensures Solves(n, sx, sy, sxy, sxx, m, c)
  {
  }

  lemma CombineStep(a: real, b: real, q: real, r: real, x: real, z: real, qtotal: real, rtotal: real)
    requires qtotal == q + x && rtotal == r + z
    ensures (a * q + b * r) + (a * x + b * z) == a * qtotal + b * rtotal
  {
  }

  lemma NoProducts(a: real, b: real, q: real, s: real)
    requires q == 0.0 && s == 0.0
    ensures a * q + b * s == 0.0
  {
  }

  lemma NoSpread(n: real, q: real, s: real, c: real)
    requires n == 0.0 && q == 0.0 && s == 0.0
    ensures n * q - s * s == 0.0 && Spread(n, s, q, c) == 0.0
  {
  }

  /** One more point x changes sum (x_i - c)^2, written out as
      q - 2 c s + n c^2, by (x - c)^2. */
  lemma ExpandStep(n: real, s: real, q: real, x: real, c: real,
                   before: real, after: real, s1: real, q1: real, n1: real)
    requires before == Spread(n, s, q, c) && after == before + Square(x - c)
    requires s1 == s + x && q1 == q + x * x && n1 == n + 1.0
    ensures after == Spread(n1, s1, q1, c)
  {
  }

  /** One more point x raises D = n q - s^2 by q - 2 x s + n x^2. */
  lemma LagrangeStep(n: real, s: real, q: real, x: real, n1: real, total: real, qtotal: real,
                     spread: real, before: real, after: real)
    requires n1 == n + 1.0 && total == s + x && qtotal == q + x * x
    requires spread == Spread(n, s, q, x) && before == n * q - s * s
    requires after == n1 * qtotal - total * total
    ensures after == before + spread
  {
  }

  /** a * b, kept behind a name so that the sign of a square is argued
      from the signs of its factors. */
  function Product(a: real, b: real): real {
    a * b
  }

  function Square(y: real): real {
    Product(y, y)
  }

  lemma ProductPositive(a: real, b: real)
    requires a > 0.0 && b > 0.0
    ensures Product(a, b) > 0.0
  {
  }

  lemma ProductOfNegations(a: real, b: real)
    ensures Product(-a, -b) == Product(a, b)
  {
  }

  /** A square is never negative and is 0 only at 0. */
  lemma SquareSign(y: real)
    ensures Square(y) >= 0.0
    ensures y != 0.0 ==> Square(y) > 0.0
    ensures y == 0.0 ==> Square(y) == 0.0
  {
    if y > 0.0 {
      ProductPositive(y, y);
    } else if y < 0.0 {
      ProductPositive(-y, -y);
      ProductOfNegations(y, y);
    }
  }

  // ------------------------------------------------------- when D vanishes

  /** Sum of (x - c)^2 over xs. */
  function SquaredDistances(xs: seq<real>, c: real): real {
    if xs == [] then 0.0 else SquaredDistances(xs[..|xs| - 1], c) + Square(xs[|xs| - 1] - c)
  }

  /** sumX2 - 2 c sumX + n c^2, from the count n, sumX and sumX2 of some rows. */
  function Spread(n: real, s: real, q: real, c: real): real {
    q - 2.0 * c * s + n * c * c
  }

  /** Sum of (x - c)^2 = sumX2 - 2 c sumX + n c^2. */
  lemma {:induction false} SquaredDistancesExpand(xs: seq<real>, c: real)
    ensures SquaredDistances(xs, c) == Spread(|xs| as real, Sum(xs), Dot(xs, xs), c)
  {
    if xs != [] {
      SquaredDistancesExpand(xs[..|xs| - 1], c);
      ExpandSnoc(xs, c);
    } else {
      NoSpread(|xs| as real, Dot(xs, xs), Sum(xs), c);
    }
  }

  lemma ExpandSnoc(xs: seq<real>, c: real)
    requires xs != []
    requires var init := xs[..|xs| - 1];
             SquaredDistances(init, c) == Spread(|init| as real, Sum(init), Dot(init, init), c)
    ensures SquaredDistances(xs, c) == Spread(|xs| as real, Sum(xs), Dot(xs, xs), c)
  {
    var init, x := xs[..|xs| - 1], xs[|xs| - 1];
    assert Dot(xs, xs) == Dot(init, init) + x * x;
    ExpandStep(|init| as real, Sum(init), Dot(init, init), x, c, SquaredDistances(init, c),
               SquaredDistances(xs, c), Sum(xs), Dot(xs, xs), |xs| as real);
  }

  /** A sum of squares is never negative, and is 0 exactly when every term is. */
  lemma {:induction false} SquaredDistancesZero(xs: seq<real>, c: real)
    ensures SquaredDistances(xs, c) >= 0.0
    ensures SquaredDistances(xs, c) == 0.0 <==> forall i :: 0 <= i < |xs| ==> xs[i] == c
  {
    if xs != [] {
      var init, x := xs[..|xs| - 1], xs[|xs| - 1];
      SquaredDistancesZero(init, c);
      SquareSign(x - c);
      assert forall i :: 0 <= i < |init| ==> xs[i] == init[i];
    }
  }

  /** Lagrange's identity, one point at a time: appending x to the rows adds
      sum (x_i - x)^2 over the earlier rows to D. */
  lemma SnocSpread(xs: seq<real>)
    requires xs != []
    ensures Denominator(xs) == Denominator(xs[..|xs| - 1]) + SquaredDistances(xs[..|xs| - 1], xs[|xs| - 1])
  {
    var init, x := xs[..|xs| - 1], xs[|xs| - 1];
    DenominatorSnoc(xs);
    SquaredDistancesExpand(init, x);
  }

  lemma DenominatorSnoc(xs: seq<real>)
    requires xs != []
    ensures var init, x := xs[..|xs| - 1], xs[|xs| - 1];
            Denominator(xs) == Denominator(init) + Spread(|init| as real, Sum(init), Dot(init, init), x)
  {
    var init, x := xs[..|xs| - 1], xs[|xs| - 1];
    assert Dot(xs, xs) == Dot(init, init) + x * x;
    LagrangeStep(|init| as real, Sum(init), Dot(init, init), x, |xs| as real, Sum(xs), Dot(xs, xs),
                 Spread(|init| as real, Sum(init), Dot(init, init), x), Denominator(init), Denominator(xs));
  }

  predicate AllEqual(xs: seq<real>) {
    forall i, j :: 0 <= i < |xs| && 0 <= j < |xs| ==> xs[i] == xs[j]
  }

  /** D is never negative, and it is 0 exactly when all absence counts are
      equal (no rows, a single row, or a vertical cloud), where no line is fitted. */
  lemma {:induction false} DenominatorZero(xs: seq<real>)
    ensures Denominator(xs) >= 0.0
    ensures Denominator(xs) == 0.0 <==> AllEqual(xs)
  {
    if xs == [] {
      NoSpread(|xs| as real, Dot(xs, xs), Sum(xs), 0.0);
    } else {
      var init, x := xs[..|xs| - 1], xs[|xs| - 1];
      DenominatorZero(init);
      SnocSpread(xs);
      SquaredDistancesZero(init, x);
      assert forall i :: 0 <= i < |init| ==> xs[i] == init[i];
      if AllEqual(init) && forall i :: 0 <= i < |init| ==> init[i] == x {
        assert AllEqual(xs);
      } else {
        assert !AllEqual(xs);
      }
    }
  }

  /** The fit on the plotted rows exists exactly when they do not all have the
      same number of absences. */
  lemma RegressionDefined(data: seq<Row>)
    ensures LinearRegression(data).Some? <==> !AllEqual(Xs(data))
  {
    DenominatorZero(Xs(data));
  }
}
