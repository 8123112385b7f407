/** The degree-1 least-squares fit that `np.polyfit(x, y, 1)` computes, in closed form over
    the reals: the slope and intercept whose residuals sum to zero and are orthogonal to
    the x values (the normal equations), and which no other line beats. */
module LeastSquares {

  datatype Point = Point(x: real, y: real)

  datatype Line = Line(slope: real, intercept: real)

  predicate IncreasingX(ps: seq<Point>) {
    forall i, j :: 0 <= i < j < |ps| ==> ps[i].x < ps[j].x
  }

  function SumX(ps: seq<Point>): real {
    if ps == [] then 0.0 else ps[0].x + SumX(ps[1..])
  }

  function SumY(ps: seq<Point>): real {
    if ps == [] then 0.0 else ps[0].y + SumY(ps[1..])
  }

  function SumXX(ps: seq<Point>): real {
    if ps == [] then 0.0 else ps[0].x * ps[0].x + SumXX(ps[1..])
  }

  function SumXY(ps: seq<Point>): real {
    if ps == [] then 0.0 else ps[0].x * ps[0].y + SumXY(ps[1..])
  }

  /** n * Sxx - Sx^2, the determinant of the normal equations. */
  function Spread(ps: seq<Point>): real {
    (|ps| as real) * SumXX(ps) - SumX(ps) * SumX(ps)
  }

  /** The sum of squared distances of the x values from c. */
  function SquaredDeviation(ps: seq<Point>, c: real): real {
    if ps == [] then 0.0 else (ps[0].x - c) * (ps[0].x - c) + SquaredDeviation(ps[1..], c)
  }

  function Residual(p: Point, l: Line): real {
    p.y - (l.slope * p.x + l.intercept)
  }

  /** The sum of the residuals. */
  function ResidualSum(ps: seq<Point>, l: Line): real {
    if ps == [] then 0.0 else Residual(ps[0], l) + ResidualSum(ps[1..], l)
  }

  /** The sum of the residuals weighted by x. */
  function ResidualMoment(ps: seq<Point>, l: Line): real {
    if ps == [] then 0.0 else ps[0].x * Residual(ps[0], l) + ResidualMoment(ps[1..], l)
  }

  /** The sum of squared residuals, which least squares minimises. */
  function SquaredError(ps: seq<Point>, l: Line): real {
    if ps == [] then 0.0 else Residual(ps[0], l) * Residual(ps[0], l) + SquaredError(ps[1..], l)
  }

  lemma {:induction false} ResidualSumExpand(ps: seq<Point>, l: Line)
    ensures ResidualSum(ps, l) == SumY(ps) - l.slope * SumX(ps) - (|ps| as real) * l.intercept
  {
    if ps != [] {
      ResidualSumExpand(ps[1..], l);
    }
  }

  lemma {:induction false} ResidualMomentExpand(ps: seq<Point>, l: Line)
    ensures ResidualMoment(ps, l) == SumXY(ps) - l.slope * SumXX(ps) - l.intercept * SumX(ps)
  {
    if ps != [] {
      ResidualMomentExpand(ps[1..], l);
      var p := ps[0];
      assert p.x * Residual(p, l) == p.x * p.y - l.slope * (p.x * p.x) - l.intercept * p.x;
    }
  }

  /** The number of points, counted in the reals. */
  function Count(ps: seq<Point>): real {
    if ps == [] then 0.0 else 1.0 + Count(ps[1..])
  }

  lemma {:induction false} CountIsLength(ps: seq<Point>)
    ensures Count(ps) == |ps| as real
  {
    if ps != [] {
      CountIsLength(ps[1..]);
    }
  }

  lemma {:induction false} SquaredDeviationExpand(ps: seq<Point>, c: real)
    ensures SquaredDeviation(ps, c) == SumXX(ps) - 2.0 * c * SumX(ps) + (|ps| as real) * c * c
  {
    SquaredDeviationExpandCount(ps, c);
    CountIsLength(ps);
  }

  lemma {:induction false} SquaredDeviationExpandCount(ps: seq<Point>, c: real)
    ensures SquaredDeviation(ps, c) == SumXX(ps) - 2.0 * c * SumX(ps) + Count(ps) * c * c
  {
    if ps != [] {
      var t := ps[1..];
      SquaredDeviationExpandCount(t, c);
      assert SquaredDeviation(ps, c) == (ps[0].x - c) * (ps[0].x - c) + SquaredDeviation(t, c);
      DeviationStep(ps[0].x, c, SumXX(t), SumX(t), Count(t));
    }
  }

  /** The polynomial identity behind one step of `SquaredDeviationExpandCount`. */
  lemma DeviationStep(x: real, c: real, sxx: real, sx: real, n: real)
    ensures (x - c) * (x - c) + (sxx - 2.0 * c * sx + n * c * c)
         == (x * x + sxx) - 2.0 * c * (x + sx) + (1.0 + n) * c * c
  {
    assert (1.0 + n) * c * c == n * c * c + c * c;
  }

  lemma {:induction false} SquaredDeviationNonNegative(ps: seq<Point>, c: real)
    ensures SquaredDeviation(ps, c) >= 0.0
  {
    if ps != [] {
      SquaredDeviationNonNegative(ps[1..], c);
      var d := ps[0].x - c;
      assert d * d >= 0.0;
    }
  }

  /** Adding a point at x grows the spread by the squared deviations of the others from x. */
  lemma SpreadCons(p: Point, ps: seq<Point>)
    ensures Spread([p] + ps) == Spread(ps) + SquaredDeviation(ps, p.x)
  {
    var qs := [p] + ps;
    assert qs[1..] == ps;
    SquaredDeviationExpand(ps, p.x);
    var n, sx, sxx, x := |ps| as real, SumX(ps), SumXX(ps), p.x;
    assert Spread(qs) == (n + 1.0) * (x * x + sxx) - (x + sx) * (x + sx);
    assert (n + 1.0) * (x * x + sxx) - (x + sx) * (x + sx)
        == (n * sxx - sx * sx) + (sxx - 2.0 * x * sx + n * x * x);
  }

  lemma {:induction false} SquaredDeviationPositive(ps: seq<Point>, c: real)
    requires ps != [] && ps[0].x != c
    ensures SquaredDeviation(ps, c) > 0.0
  {
    var d := ps[0].x - c;
    calc {
      SquaredDeviation(ps, c);
    ==
      d * d + SquaredDeviation(ps[1..], c);
    >= { SquaredDeviationNonNegative(ps[1..], c); }
      d * d;
    > { SquarePositive(d); }
      0.0;
    }
  }

  lemma SquarePositive(d: real)
    requires d != 0.0
    ensures d * d > 0.0
  {
  }

  lemma {:induction false} SpreadNonNegative(ps: seq<Point>)
    ensures Spread(ps) >= 0.0
  {
    if ps != [] {
      assert ps == [ps[0]] + ps[1..];
      SpreadCons(ps[0], ps[1..]);
      SpreadNonNegative(ps[1..]);
      SquaredDeviationNonNegative(ps[1..], ps[0].x);
    }
  }

  /** Two or more distinct x values make the normal equations solvable. */
  lemma SpreadPositive(ps: seq<Point>)
    requires |ps| >= 2 && IncreasingX(ps)
    ensures Spread(ps) > 0.0
  {
    var t := ps[1..];
    assert ps == [ps[0]] + t;
    SpreadCons(ps[0], t);
    SpreadNonNegative(t);
    SquaredDeviationPositive(t, ps[0].x);
  }

  /** `np.polyfit(x, y, 1)`: the slope and intercept of the least-squares line. Its residuals
      sum to zero and are orthogonal to x. */
  function FitLine(ps: seq<Point>): (l: Line)
    requires |ps| >= 2 && IncreasingX(ps)
    ensures ResidualSum(ps, l) == 0.0
    ensures ResidualMoment(ps, l) == 0.0
  {
    SpreadPositive(ps);
    var n, sx, sy, sxx, sxy := |ps| as real, SumX(ps), SumY(ps), SumXX(ps), SumXY(ps);
    var d := n * sxx - sx * sx;
    var a := (n * sxy - sx * sy) / d;
    var b := (sy - a * sx) / n;
    var l := Line(a, b);
    ResidualSumExpand(ps, l);
    ResidualMomentExpand(ps, l);
    NormalEquations(n, sx, sy, sxx, sxy, d, a, b);
    l
  }

  /** The closed-form slope and intercept solve the two normal equations. */
  lemma NormalEquations(n: real, sx: real, sy: real, sxx: real, sxy: real, d: real, a: real, b: real)
    requires n > 0.0 && d != 0.0 && d == n * sxx - sx * sx
    requires a == (n * sxy - sx * sy) / d
    requires b == (sy - a * sx) / n
    ensures sy - a * sx - n * b == 0.0
    ensures sxy - a * sxx - b * sx == 0.0
  {
    assert a * d == n * sxy - sx * sy;
    assert b * n == sy - a * sx;
    var e := sxy - a * sxx - b * sx;
    assert n * e == n * sxy - a * (n * sxx) - (b * n) * sx;
    assert n * e == n * sxy - a * (n * sxx) - (sy - a * sx) * sx;
    assert a * d == a * (n * sxx) - a * (sx * sx);
    assert n * e == (n * sxy - sx * sy) - a * d;
    assert n * e == 0.0;
  }

  /** The vertical gap between lines l and m at x. */
  function Gap(p: Point, l: Line, m: Line): real {
    (l.slope - m.slope) * p.x + (l.intercept - m.intercept)
  }

  /** The sum of squared vertical gaps between two lines at the x values. */
  function SquaredGap(ps: seq<Point>, l: Line, m: Line): (s: real)
    ensures s >= 0.0
  {
    if ps == [] then 0.0 else Gap(ps[0], l, m) * Gap(ps[0], l, m) + SquaredGap(ps[1..], l, m)
  }

  lemma ResidualShift(p: Point, l: Line, m: Line)
    ensures Residual(p, m) == Residual(p, l) + Gap(p, l, m)
  {
    assert (l.slope - m.slope) * p.x == l.slope * p.x - m.slope * p.x;
  }

  /** One point's squared residual under m, split around l's residual. */
  lemma HeadSplit(p: Point, l: Line, m: Line)
    ensures Residual(p, m) * Residual(p, m) ==
      Residual(p, l) * Residual(p, l) + 2.0 * (Gap(p, l, m) * Residual(p, l)) + Gap(p, l, m) * Gap(p, l, m)
  {
    ResidualShift(p, l, m);
    calc {
      Residual(p, m) * Residual(p, m);
    ==
      (Residual(p, l) + Gap(p, l, m)) * (Residual(p, l) + Gap(p, l, m));
    ==
      Residual(p, l) * Residual(p, l) + 2.0 * (Gap(p, l, m) * Residual(p, l)) + Gap(p, l, m) * Gap(p, l, m);
    }
  }

  /** The sum over the points of the gap between l and m times l's residual. */
  function CrossSum(ps: seq<Point>, l: Line, m: Line): real {
    if ps == [] then 0.0 else Gap(ps[0], l, m) * Residual(ps[0], l) + CrossSum(ps[1..], l, m)
  }

  lemma {:induction false} CrossSumExpand(ps: seq<Point>, l: Line, m: Line)
    ensures CrossSum(ps, l, m) ==
      (l.slope - m.slope) * ResidualMoment(ps, l) + (l.intercept - m.intercept) * ResidualSum(ps, l)
  {
    if ps != [] {
      var t := ps[1..];
      CrossSumExpand(t, l, m);
      CrossStep(l.slope - m.slope, l.intercept - m.intercept, ps[0].x, Residual(ps[0], l),
                ResidualMoment(t, l), ResidualSum(t, l));
    }
  }

  /** The distributive identity behind one step of `CrossSumExpand`. */
  lemma CrossStep(a: real, b: real, x: real, r: real, moment: real, sum: real)
    ensures (a * x + b) * r + (a * moment + b * sum) == a * (x * r + moment) + b * (r + sum)
  {
    assert (a * x) * r == a * (x * r);
  }

  /** The squared error of any other line m is that of l, plus twice the cross sum, plus the
      squared gaps between the two lines. */
  lemma {:induction false} SquaredErrorSplit(ps: seq<Point>, l: Line, m: Line)
    ensures SquaredError(ps, m) == SquaredError(ps, l) + 2.0 * CrossSum(ps, l, m) + SquaredGap(ps, l, m)
  {
    if ps != [] {
      var p, rest := ps[0], ps[1..];
      calc {
        SquaredError(ps, m);
      ==
        Residual(p, m) * Residual(p, m) + SquaredError(rest, m);
      == { HeadSplit(p, l, m); }
        Residual(p, l) * Residual(p, l) + 2.0 * (Gap(p, l, m) * Residual(p, l)) + Gap(p, l, m) * Gap(p, l, m)
        + SquaredError(rest, m);
      == { SquaredErrorSplit(rest, l, m); }
        Residual(p, l) * Residual(p, l) + 2.0 * (Gap(p, l, m) * Residual(p, l)) + Gap(p, l, m) * Gap(p, l, m)
        + (SquaredError(rest, l) + 2.0 * CrossSum(rest, l, m) + SquaredGap(rest, l, m));
      ==
        (Residual(p, l) * Residual(p, l) + SquaredError(rest, l))
        + 2.0 * (Gap(p, l, m) * Residual(p, l) + CrossSum(rest, l, m))
        + (Gap(p, l, m) * Gap(p, l, m) + SquaredGap(rest, l, m));
      ==
        SquaredError(ps, l) + 2.0 * CrossSum(ps, l, m) + SquaredGap(ps, l, m);
      }
    }
  }

  /** No line has a smaller squared error than the fitted one. */
  lemma FitLineIsLeastSquares(ps: seq<Point>, m: Line)
    requires |ps| >= 2 && IncreasingX(ps)
    ensures SquaredError(ps, FitLine(ps)) <= SquaredError(ps, m)
  {
    SquaredErrorSplit(ps, FitLine(ps), m);
    CrossSumExpand(ps, FitLine(ps), m);
  }
}
