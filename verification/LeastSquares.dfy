/**
 * The line through a set of samples: the closed form of a degree-one fit is the only line
 * with the smallest sum of squared errors. Real arithmetic; rounding is not modelled.
 */
module LeastSquares {

  datatype Point = Point(x: real, y: real)

  /** A line y = slope * x + intercept. */
  datatype Line = Line(slope: real, intercept: real)

  /** The sums a fit needs. */
  datatype Sums = Sums(n: real, x: real, y: real, xx: real, xy: real)

  function Square(a: real): (r: real)
    ensures r >= 0.0
  {
    a * a
  }

  lemma ZeroProduct(a: real, b: real)
    requires a * b == 0.0
    ensures a == 0.0 || b == 0.0
  {
    if a != 0.0 {
      assert b == (a * b) / a;
    }
  }

  function Plus(s: Sums, p: Point): Sums {
    Sums(s.n + 1.0, s.x + p.x, s.y + p.y, s.xx + p.x * p.x, s.xy + p.x * p.y)
  }

  function SumsOf(points: seq<Point>): (s: Sums)
    ensures s.n == |points| as real
  {
    if points == [] then Sums(0.0, 0.0, 0.0, 0.0, 0.0)
    else Plus(SumsOf(points[..|points| - 1]), points[|points| - 1])
  }

  /** n times the sum of squared deviations of x. */
  function Determinant(s: Sums): real {
    s.n * s.xx - s.x * s.x
  }

  /** The closed form of the fit. */
  function Fit(s: Sums): Line
    requires s.n != 0.0 && Determinant(s) != 0.0
  {
    var slope := (s.n * s.xy - s.x * s.y) / Determinant(s);
    Line(slope, (s.y - slope * s.x) / s.n)
  }

  /** What the closed form is supposed to minimise. */
  function Errors(points: seq<Point>, line: Line): (r: real)
    ensures r >= 0.0
  {
    if points == [] then 0.0
    else
      var p := points[|points| - 1];
      Errors(points[..|points| - 1], line) + Square(Residual(p, line))
  }

  // ----- The determinant is positive -----

  /** The squared distances of the samples from a given x. */
  function Spread(points: seq<Point>, x: real): (r: real)
    ensures r >= 0.0
  {
    if points == [] then 0.0 else Spread(points[..|points| - 1], x) + Square(points[|points| - 1].x - x)
  }

  function Spreading(s: Sums, x: real): real {
    s.xx - 2.0 * x * s.x + s.n * x * x
  }

  lemma SpreadingStep(s: Sums, p: Point, x: real)
    ensures Spreading(Plus(s, p), x) == Spreading(s, x) + Square(p.x - x)
  {
    assert Square(p.x - x) == p.x * p.x - 2.0 * x * p.x + x * x;
    assert 2.0 * x * (s.x + p.x) == 2.0 * x * s.x + 2.0 * x * p.x;
    assert (s.n + 1.0) * x * x == s.n * x * x + x * x;
  }

  lemma {:induction false} SpreadBySums(points: seq<Point>, x: real)
    ensures Spread(points, x) == Spreading(SumsOf(points), x)
  {
    if points != [] {
      SpreadBySums(points[..|points| - 1], x);
      SpreadingStep(SumsOf(points[..|points| - 1]), points[|points| - 1], x);
    }
  }

  lemma {:induction false} SpreadIsPositive(points: seq<Point>, x: real, i: nat)
    requires i < |points| && points[i].x != x
    ensures Spread(points, x) > 0.0
  {
    if i < |points| - 1 {
      SpreadIsPositive(points[..|points| - 1], x, i);
    } else if Square(points[i].x - x) == 0.0 {
      ZeroProduct(points[i].x - x, points[i].x - x);
    }
  }

  lemma DeterminantStep(s: Sums, p: Point)
    ensures Determinant(Plus(s, p)) == Determinant(s) + Spreading(s, p.x)
  {
    assert (s.n + 1.0) * (s.xx + p.x * p.x) == s.n * s.xx + s.n * p.x * p.x + s.xx + p.x * p.x;
    assert (s.x + p.x) * (s.x + p.x) == s.x * s.x + 2.0 * p.x * s.x + p.x * p.x;
  }

  lemma {:induction false} DeterminantIsNotNegative(points: seq<Point>)
    ensures Determinant(SumsOf(points)) >= 0.0
  {
    if points != [] {
      var init, p := points[..|points| - 1], points[|points| - 1];
      DeterminantIsNotNegative(init);
      DeterminantStep(SumsOf(init), p);
      SpreadBySums(init, p.x);
    }
  }

  /** Two samples at different times are enough for the slope to be defined. */
  lemma {:induction false} DeterminantIsPositive(points: seq<Point>, i: nat, j: nat)
    requires i < j < |points| && points[i].x != points[j].x
    ensures Determinant(SumsOf(points)) > 0.0
  {
    var init, p := points[..|points| - 1], points[|points| - 1];
    DeterminantStep(SumsOf(init), p);
    SpreadBySums(init, p.x);
    if j < |points| - 1 {
      DeterminantIsPositive(init, i, j);
    } else {
      DeterminantIsNotNegative(init);
      SpreadIsPositive(init, p.x, i);
    }
  }

  // ----- The fit is the best line -----

  /** The fit solves the normal equations. */
  lemma NormalEquations(s: Sums)
    requires s.n != 0.0 && Determinant(s) != 0.0
    ensures var l := Fit(s);
            && l.slope * s.x + l.intercept * s.n == s.y
            && l.slope * s.xx + l.intercept * s.x == s.xy
  {
    var l := Fit(s);
    assert l.slope * Determinant(s) == s.n * s.xy - s.x * s.y;
    assert l.intercept * s.n == s.y - l.slope * s.x;
    calc {
      s.n * (l.slope * s.xx + l.intercept * s.x);
      l.slope * (s.n * s.xx) + (l.intercept * s.n) * s.x;
      l.slope * (s.n * s.xx) + (s.y - l.slope * s.x) * s.x;
      l.slope * Determinant(s) + s.y * s.x;
      s.n * s.xy;
    }
  }

  function Residual(p: Point, line: Line): real {
    p.y - line.slope * p.x - line.intercept
  }

  function Deviation(p: Point, a: Line, b: Line): real {
    (a.slope - b.slope) * p.x + (a.intercept - b.intercept)
  }

  function Product(a: real, b: real): real { a * b }

  /** How far two lines are apart over the samples. */
  function Gap(points: seq<Point>, a: Line, b: Line): (r: real)
    ensures r >= 0.0
  {
    if points == [] then 0.0
    else Gap(points[..|points| - 1], a, b) + Square(Deviation(points[|points| - 1], a, b))
  }

  /** The errors of b, weighted by how far a is from b. */
  function Cross(points: seq<Point>, a: Line, b: Line): real {
    if points == [] then 0.0
    else
      var p := points[|points| - 1];
      Cross(points[..|points| - 1], a, b) + Product(Deviation(p, a, b), Residual(p, b))
  }

  lemma SquareOfDifference(p: Point, a: Line, b: Line)
    ensures Square(Residual(p, a))
         == Square(Residual(p, b)) + Square(Deviation(p, a, b)) - 2.0 * Product(Deviation(p, a, b), Residual(p, b))
  {
    var e, d := Residual(p, b), Deviation(p, a, b);
    assert Residual(p, a) == e - d;
    assert (e - d) * (e - d) == e * e + d * d - 2.0 * (d * e);
  }

  lemma {:induction false} ErrorsDecompose(points: seq<Point>, a: Line, b: Line)
    ensures Errors(points, a) == Errors(points, b) + Gap(points, a, b) - 2.0 * Cross(points, a, b)
  {
    if points != [] {
      ErrorsDecompose(points[..|points| - 1], a, b);
      SquareOfDifference(points[|points| - 1], a, b);
    }
  }

  /** The residuals of a line, summed. */
  function Residuals(points: seq<Point>, b: Line): real {
    if points == [] then 0.0 else Residuals(points[..|points| - 1], b) + Residual(points[|points| - 1], b)
  }

  /** The residuals of a line times x, summed. */
  function Moments(points: seq<Point>, b: Line): real {
    if points == [] then 0.0
    else
      var p := points[|points| - 1];
      Moments(points[..|points| - 1], b) + Product(p.x, Residual(p, b))
  }

  lemma Distribute(f: real, g: real, u: real, v: real, x: real, e: real)
    ensures Product(f, u + Product(x, e)) + Product(g, v + e) == Product(f, u) + Product(g, v) + Product(f * x + g, e)
  {
    assert f * (x * e) == (f * x) * e;
  }

  lemma {:induction false} CrossSplits(points: seq<Point>, a: Line, b: Line)
    ensures Cross(points, a, b)
         == Product(a.slope - b.slope, Moments(points, b)) + Product(a.intercept - b.intercept, Residuals(points, b))
  {
    if points != [] {
      var init, p := points[..|points| - 1], points[|points| - 1];
      CrossSplits(init, a, b);
      Distribute(a.slope - b.slope, a.intercept - b.intercept, Moments(init, b), Residuals(init, b), p.x,
          Residual(p, b));
    }
  }

  function MomentOf(s: Sums, b: Line): real { s.xy - b.slope * s.xx - b.intercept * s.x }

  function ResidualOf(s: Sums, b: Line): real { s.y - b.slope * s.x - b.intercept * s.n }

  lemma MomentStep(s: Sums, p: Point, b: Line)
    ensures MomentOf(Plus(s, p), b) == MomentOf(s, b) + Product(p.x, Residual(p, b))
  {
    assert p.x * Residual(p, b) == p.x * p.y - b.slope * (p.x * p.x) - b.intercept * p.x;
  }

  lemma ResidualStep(s: Sums, p: Point, b: Line)
    ensures ResidualOf(Plus(s, p), b) == ResidualOf(s, b) + Residual(p, b)
  {
  }

  lemma {:induction false} MomentsBySums(points: seq<Point>, b: Line)
    ensures Moments(points, b) == MomentOf(SumsOf(points), b)
  {
    if points != [] {
      MomentsBySums(points[..|points| - 1], b);
      MomentStep(SumsOf(points[..|points| - 1]), points[|points| - 1], b);
    }
  }

  lemma {:induction false} ResidualsBySums(points: seq<Point>, b: Line)
    ensures Residuals(points, b) == ResidualOf(SumsOf(points), b)
  {
    if points != [] {
      ResidualsBySums(points[..|points| - 1], b);
      ResidualStep(SumsOf(points[..|points| - 1]), points[|points| - 1], b);
    }
  }

  lemma {:induction false} EqualOnSamples(points: seq<Point>, a: Line, b: Line, i: nat)
    requires Gap(points, a, b) == 0.0 && i < |points|
    ensures Deviation(points[i], a, b) == 0.0
  {
    var d := Deviation(points[|points| - 1], a, b);
    if i < |points| - 1 {
      EqualOnSamples(points[..|points| - 1], a, b, i);
    } else {
      ZeroProduct(d, d);
    }
  }

  /** By the normal equations the residuals of the fit cancel out, plain and times x. */
  lemma FitBalances(s: Sums)
    requires s.n != 0.0 && Determinant(s) != 0.0
    ensures MomentOf(s, Fit(s)) == 0.0 && ResidualOf(s, Fit(s)) == 0.0
  {
    NormalEquations(s);
  }

  lemma FitCrossesNothing(points: seq<Point>, line: Line, best: Line)
    requires Moments(points, best) == 0.0 && Residuals(points, best) == 0.0
    ensures Cross(points, line, best) == 0.0
  {
    CrossSplits(points, line, best);
  }

  /** Two lines that meet at two different times are one. */
  lemma LinesMeetOnce(a: Line, b: Line, p: Point, q: Point)
    requires p.x != q.x && Deviation(p, a, b) == 0.0 && Deviation(q, a, b) == 0.0
    ensures a == b
  {
    var f := a.slope - b.slope;
    assert f * (p.x - q.x) == f * p.x - f * q.x;
    ZeroProduct(f, p.x - q.x);
  }

  /** The closed form is the one line whose sum of squared errors no line goes below. */
  lemma FitIsTheBestLine(points: seq<Point>, i: nat, j: nat, line: Line)
    requires i < j < |points| && points[i].x != points[j].x
    ensures SumsOf(points).n != 0.0 && Determinant(SumsOf(points)) > 0.0
    ensures Errors(points, Fit(SumsOf(points))) <= Errors(points, line)
    ensures Errors(points, Fit(SumsOf(points))) == Errors(points, line) <==> line == Fit(SumsOf(points))
  {
    DeterminantIsPositive(points, i, j);
    var best := Fit(SumsOf(points));
    ErrorsDecompose(points, line, best);
    FitBalances(SumsOf(points));
    MomentsBySums(points, best);
    ResidualsBySums(points, best);
    FitCrossesNothing(points, line, best);
    if Gap(points, line, best) == 0.0 {
      EqualOnSamples(points, line, best, i);
      EqualOnSamples(points, line, best, j);
      LinesMeetOnce(line, best, points[i], points[j]);
    }
  }

  lemma {:induction false} NoErrors(points: seq<Point>, line: Line)
    requires forall k :: 0 <= k < |points| ==> points[k].y == line.slope * points[k].x + line.intercept
    ensures Errors(points, line) == 0.0
  {
    if points != [] {
      NoErrors(points[..|points| - 1], line);
    }
  }

  /** Samples on a line give back the line. */
  lemma ExactDataGiveTheirLine(points: seq<Point>, i: nat, j: nat, line: Line)
    requires i < j < |points| && points[i].x != points[j].x
    requires forall k :: 0 <= k < |points| ==> points[k].y == line.slope * points[k].x + line.intercept
    ensures SumsOf(points).n != 0.0 && Determinant(SumsOf(points)) > 0.0 && Fit(SumsOf(points)) == line
  {
    FitIsTheBestLine(points, i, j, line);
    NoErrors(points, line);
  }
}
