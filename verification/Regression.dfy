/**
 * Ordinary least squares of a series on its index 0, 1, 2, ...: the fit behind
 * `np.polyfit(x, series, 1)` in both the anomaly detector and the forecaster.
 * Floats are exact reals. The closed form below is shown to be the optimum, so
 * it is what any correct degree-one fit returns.
 */
module Regression {

  datatype Fit = Fit(slope: real, intercept: real)

  // ----- vectors -----------------------------------------------------------

  function Dot(u: seq<real>, v: seq<real>): real
    requires |u| == |v|
  {
    if |u| == 0 then 0.0
    else Dot(u[..|u| - 1], v[..|v| - 1]) + u[|u| - 1] * v[|v| - 1]
  }

  function Ones(n: nat): seq<real> {
    seq(n, i => 1.0)
  }

  function Index(n: nat): seq<real> {
    seq(n, i => i as real)
  }

  /** u + c * v, element by element. */
  function Axpy(u: seq<real>, c: real, v: seq<real>): (r: seq<real>)
    requires |u| == |v|
    ensures |r| == |u|
  {
    seq(|u|, i requires 0 <= i < |u| => u[i] + c * v[i])
  }

  /** A product under a name, so that proofs can treat it as one term. */
  function Times(c: real, x: real): real {
    c * x
  }

  function Scaled(c: real, u: seq<real>): (r: seq<real>)
    ensures |r| == |u|
  {
    seq(|u|, i requires 0 <= i < |u| => Times(c, u[i]))
  }

  /** The series with the line a + b * index added to it. */
  function Tilted(u: seq<real>, a: real, b: real): seq<real> {
    seq(|u|, i requires 0 <= i < |u| => u[i] + a + b * (i as real))
  }

  lemma {:induction false} DotSymmetric(u: seq<real>, v: seq<real>)
    requires |u| == |v|
    ensures Dot(u, v) == Dot(v, u)
  {
    if |u| != 0 {
      DotSymmetric(u[..|u| - 1], v[..|v| - 1]);
    }
  }

  lemma {:induction false} DotAxpy(u: seq<real>, c: real, v: seq<real>, w: seq<real>)
    requires |u| == |v| == |w|
    ensures Dot(Axpy(u, c, v), w) == Dot(u, w) + c * Dot(v, w)
  {
    var n := |u|;
    if n != 0 {
      DotAxpy(u[..n - 1], c, v[..n - 1], w[..n - 1]);
      AxpyPrefix(u, c, v);
      var du, dv := Dot(u[..n - 1], w[..n - 1]), Dot(v[..n - 1], w[..n - 1]);
      Distribute(u[n - 1], c, v[n - 1], w[n - 1], dv);
    }
  }

  lemma AxpyPrefix(u: seq<real>, c: real, v: seq<real>)
    requires |u| == |v| > 0
    ensures Axpy(u, c, v)[..|u| - 1] == Axpy(u[..|u| - 1], c, v[..|u| - 1])
  {
    var n := |u| - 1;
    forall i | 0 <= i < n
      ensures Axpy(u, c, v)[..n][i] == Axpy(u[..n], c, v[..n])[i]
    {
      assert v[..n][i] == v[i];
    }
  }

  lemma Distribute(a: real, c: real, b: real, w: real, d: real)
    ensures (a + c * b) * w == a * w + c * (b * w)
    ensures c * (d + b * w) == c * d + c * (b * w)
  {
    assert (a + c * b) * w == a * w + (c * b) * w;
    assert (c * b) * w == c * (b * w);
  }

  function Square(a: real): real {
    a * a
  }

  lemma SquarePositive(a: real)
    requires a != 0.0
    ensures Square(a) > 0.0
  {
    if a < 0.0 {
      assert Square(a) == (-a) * (-a);
      ProductPositive(-a, -a, Square(a));
    } else {
      ProductPositive(a, a, Square(a));
    }
  }

  lemma ProductPositive(a: real, b: real, p: real)
    requires a > 0.0 && b > 0.0 && p == a * b
    ensures p > 0.0
  {
  }

  lemma {:induction false} DotSelf(u: seq<real>)
    ensures Dot(u, u) >= 0.0
    ensures (exists i :: 0 <= i < |u| && u[i] != 0.0) ==> Dot(u, u) > 0.0
  {
    var n := |u|;
    if n != 0 {
      DotSelf(u[..n - 1]);
      var a := u[n - 1];
      assert Dot(u, u) == Dot(u[..n - 1], u[..n - 1]) + Square(a);
      if a != 0.0 {
        SquarePositive(a);
      } else {
        assert Square(a) == 0.0 * a == 0.0;
        forall i | 0 <= i < n && u[i] != 0.0
          ensures u[..n - 1][i] != 0.0
        {
        }
      }
    }
  }

  // ----- the fit -----------------------------------------------------------

  /** n * sum(x^2) - sum(x)^2: n times the centred sum of squares of the index. */
  function Spread(n: nat): real {
    (n as real) * Dot(Index(n), Index(n)) - Dot(Index(n), Ones(n)) * Dot(Index(n), Ones(n))
  }

  lemma {:induction false} OnesCount(n: nat)
    ensures Dot(Ones(n), Ones(n)) == n as real
  {
    if n != 0 {
      OnesCount(n - 1);
      assert Ones(n)[..n - 1] == Ones(n - 1);
    }
  }

  lemma {:induction false} IndexSums(n: nat)
    ensures 2.0 * Dot(Index(n), Ones(n)) == TwiceSum(n as real)
    ensures 6.0 * Dot(Index(n), Index(n)) == SixTimesSquares(n as real)
  {
    if n != 0 {
      IndexSums(n - 1);
      assert Ones(n)[..n - 1] == Ones(n - 1);
      assert Index(n)[..n - 1] == Index(n - 1);
      var k := (n - 1) as real;
      assert Dot(Index(n), Ones(n)) == Dot(Index(n - 1), Ones(n - 1)) + k * 1.0;
      assert Dot(Index(n), Index(n)) == Dot(Index(n - 1), Index(n - 1)) + k * k;
      hide *;
      ClosedFormStep(k);
    }
  }

  function TwiceSum(m: real): real {
    m * (m - 1.0)
  }

  function SixTimesSquares(m: real): real {
    m * (m - 1.0) * (2.0 * m - 1.0)
  }

  lemma ClosedFormStep(k: real)
    ensures TwiceSum(k + 1.0) == TwiceSum(k) + 2.0 * (k * 1.0)
    ensures SixTimesSquares(k + 1.0) == SixTimesSquares(k) + 6.0 * (k * k)
  {
    var k2 := k * k;
    assert k * (k - 1.0) == k2 - k;
    assert (k + 1.0) * k == k2 + k;
    assert (k2 - k) * (2.0 * k - 1.0) == 2.0 * (k2 * k) - 3.0 * k2 + k;
    assert (k2 + k) * (2.0 * k + 1.0) == 2.0 * (k2 * k) + 3.0 * k2 + k;
    assert SixTimesSquares(k + 1.0) == (k2 + k) * (2.0 * k + 1.0);
  }

  lemma SpreadPositive(n: nat)
    requires n >= 2
    ensures Spread(n) > 0.0
  {
    IndexSums(n);
    SpreadAlgebra(n as real, Dot(Index(n), Ones(n)), Dot(Index(n), Index(n)));
  }

  /** The spread is m^2 (m^2 - 1) / 12. */
  lemma SpreadAlgebra(m: real, sx: real, sxx: real)
    requires m >= 2.0
    requires 2.0 * sx == TwiceSum(m) && 6.0 * sxx == SixTimesSquares(m)
    ensures m * sxx - sx * sx > 0.0
  {
    var p := m * (m - 1.0);
    assert p > 0.0;
    assert sx == p / 2.0 && sxx == p * (2.0 * m - 1.0) / 6.0;
    assert sx * sx == (p / 2.0) * (p / 2.0) == p * p / 4.0;
    assert m * sxx == p * (m * (2.0 * m - 1.0)) / 6.0;
    assert p * (m * (2.0 * m - 1.0)) == p * (2.0 * (m * m) - m);
    var q := 2.0 * (2.0 * (m * m) - m) - 3.0 * p;
    assert 12.0 * (m * sxx) == 2.0 * (p * (2.0 * (m * m) - m));
    assert 12.0 * (sx * sx) == 3.0 * (p * p);
    assert p * q == 2.0 * (p * (2.0 * (m * m) - m)) - 3.0 * (p * p);
    assert q == m * m + m > 0.0;
    assert p * q > 0.0;
  }

  function LeastSquares(y: seq<real>): Fit
    requires |y| >= 2
  {
    SpreadPositive(|y|);
    var n := |y| as real;
    var x, one := Index(|y|), Ones(|y|);
    var slope := (n * Dot(y, x) - Dot(x, one) * Dot(y, one)) / Spread(|y|);
    Fit(slope, (Dot(y, one) - slope * Dot(x, one)) / n)
  }

  function Expected(f: Fit, i: int): real {
    f.slope * (i as real) + f.intercept
  }

  /** What is left of the series once a line is taken away. */
  function Residuals(y: seq<real>, f: Fit): (r: seq<real>)
    ensures |r| == |y|
  {
    seq(|y|, i requires 0 <= i < |y| => y[i] - Expected(f, i))
  }

  function SquaredError(y: seq<real>, f: Fit): real {
    Dot(Residuals(y, f), Residuals(y, f))
  }

  // ----- normal equations and optimality -------------------------------------

  lemma ResidualsAsVectors(y: seq<real>, f: Fit)
    ensures Residuals(y, f) == Axpy(Axpy(y, -f.intercept, Ones(|y|)), -f.slope, Index(|y|))
  {
    var v := Axpy(Axpy(y, -f.intercept, Ones(|y|)), -f.slope, Index(|y|));
    forall i | 0 <= i < |y|
      ensures v[i] == Residuals(y, f)[i]
    {
      var k := i as real;
      assert v[i] == y[i] + (-f.intercept) * 1.0 + (-f.slope) * k;
      assert (-f.slope) * k == -(f.slope * k);
    }
  }

  lemma DotResiduals(y: seq<real>, f: Fit, w: seq<real>)
    requires |w| == |y|
    ensures Dot(Residuals(y, f), w)
         == Dot(y, w) - Times(f.intercept, Dot(Ones(|y|), w)) - Times(f.slope, Dot(Index(|y|), w))
  {
    ResidualsAsVectors(y, f);
    DotOfTwoSteps(y, -f.intercept, Ones(|y|), -f.slope, Index(|y|), w);
    hide *;
    TakeTwice(Dot(Residuals(y, f), w), Dot(y, w), f.intercept, Dot(Ones(|y|), w), f.slope, Dot(Index(|y|), w));
  }

  lemma DotOfTwoSteps(y: seq<real>, p: real, u: seq<real>, q: real, v: seq<real>, w: seq<real>)
    requires |y| == |u| == |v| == |w|
    ensures Dot(Axpy(Axpy(y, p, u), q, v), w) == Dot(y, w) + Times(p, Dot(u, w)) + Times(q, Dot(v, w))
  {
    DotAxpy(Axpy(y, p, u), q, v, w);
    DotAxpy(y, p, u, w);
  }

  lemma TakeTwice(total: real, base: real, a: real, p: real, b: real, q: real)
    requires total == base + Times(-a, p) + Times(-b, q)
    ensures total == base - Times(a, p) - Times(b, q)
  {
    assert (-a) * p == -(a * p);
    assert (-b) * q == -(b * q);
  }

  /** The residuals sum to zero and are orthogonal to the index. */
  lemma NormalEquations(y: seq<real>)
    requires |y| >= 2
    ensures Dot(Residuals(y, LeastSquares(y)), Ones(|y|)) == 0.0
    ensures Dot(Residuals(y, LeastSquares(y)), Index(|y|)) == 0.0
  {
    hide Dot;
    var f, x, one := LeastSquares(y), Index(|y|), Ones(|y|);
    SpreadPositive(|y|);
    OnesCount(|y|);
    DotSymmetric(one, x);
    DotResiduals(y, f, one);
    DotResiduals(y, f, x);
    NormalAlgebra(|y| as real, Dot(x, one), Dot(x, x), Dot(y, one), Dot(y, x), f.slope, f.intercept);
  }

  /** The two linear equations the closed form solves. */
  lemma NormalAlgebra(n: real, sx: real, sxx: real, sy: real, sxy: real, slope: real, intercept: real)
    requires n > 0.0 && n * sxx - sx * sx > 0.0
    requires slope == (n * sxy - sx * sy) / (n * sxx - sx * sx)
    requires intercept == (sy - slope * sx) / n
    ensures sy - intercept * n - slope * sx == 0.0
    ensures sxy - intercept * sx - slope * sxx == 0.0
  {
    var d := n * sxx - sx * sx;
    assert slope * d == n * sxy - sx * sy;
    assert intercept * n == sy - slope * sx;
    var defect := sxy - intercept * sx - slope * sxx;
    assert n * defect == n * sxy - n * (intercept * sx) - n * (slope * sxx);
    assert n * (intercept * sx) == (intercept * n) * sx == sy * sx - (slope * sx) * sx;
    assert (slope * sx) * sx == slope * (sx * sx);
    assert n * (slope * sxx) == slope * (n * sxx);
    assert slope * d == slope * (n * sxx) - slope * (sx * sx);
    assert n * defect == 0.0;
    assert defect == 0.0;
  }

  function Gap(n: nat, a: real, b: real): (r: seq<real>)
    ensures |r| == n
  {
    Axpy(Scaled(a, Ones(n)), b, Index(n))
  }

  /** The residuals are orthogonal to every line. */
  lemma ResidualsIgnoreLines(y: seq<real>, a: real, b: real)
    requires |y| >= 2
    ensures Dot(Gap(|y|, a, b), Residuals(y, LeastSquares(y))) == 0.0
  {
    hide Dot;
    hide LeastSquares;
    var r, x, one := Residuals(y, LeastSquares(y)), Index(|y|), Ones(|y|);
    NormalEquations(y);
    DotSymmetric(one, r);
    DotSymmetric(x, r);
    DotAxpy(Scaled(a, one), b, x, r);
    assert Scaled(a, one) == Axpy(Scaled(0.0, one), a, one);
    DotAxpy(Scaled(0.0, one), a, one, r);
    DotZero(Scaled(0.0, one), r);
  }

  lemma ResidualShift(y: seq<real>, f: Fit, g: Fit)
    ensures Residuals(y, g)
         == Axpy(Residuals(y, f), 1.0, Gap(|y|, f.intercept - g.intercept, f.slope - g.slope))
  {
    var gap := Gap(|y|, f.intercept - g.intercept, f.slope - g.slope);
    forall i | 0 <= i < |y|
      ensures Residuals(y, g)[i] == Axpy(Residuals(y, f), 1.0, gap)[i]
    {
      var k := i as real;
      assert gap[i] == (f.intercept - g.intercept) * 1.0 + (f.slope - g.slope) * k;
      assert (f.slope - g.slope) * k == f.slope * k - g.slope * k;
    }
  }

  lemma Pythagoras(r: seq<real>, gap: seq<real>)
    requires |r| == |gap| && Dot(gap, r) == 0.0
    ensures var s := Axpy(r, 1.0, gap); Dot(s, s) == Dot(r, r) + Dot(gap, gap)
  {
    hide Dot;
    var s := Axpy(r, 1.0, gap);
    DotAxpy(r, 1.0, gap, s);
    DotSymmetric(r, s);
    DotSymmetric(gap, s);
    DotAxpy(r, 1.0, gap, r);
    DotAxpy(r, 1.0, gap, gap);
    DotSymmetric(gap, r);
  }

  /** Any line's error is the fit's error plus the squared distance between the two lines. */
  lemma ErrorDecomposition(y: seq<real>, g: Fit)
    requires |y| >= 2
    ensures var f := LeastSquares(y);
            var gap := Gap(|y|, f.intercept - g.intercept, f.slope - g.slope);
            SquaredError(y, g) == SquaredError(y, f) + Dot(gap, gap)
  {
    hide Dot;
    hide LeastSquares;
    var f := LeastSquares(y);
    var a, b := f.intercept - g.intercept, f.slope - g.slope;
    ResidualShift(y, f, g);
    ResidualsIgnoreLines(y, a, b);
    Pythagoras(Residuals(y, f), Gap(|y|, a, b));
  }

  lemma {:induction false} DotZero(z: seq<real>, u: seq<real>)
    requires |z| == |u| && forall i :: 0 <= i < |z| ==> z[i] == 0.0
    ensures Dot(z, u) == 0.0
  {
    if |z| != 0 {
      DotZero(z[..|z| - 1], u[..|u| - 1]);
    }
  }

  /** No line has a smaller squared error, and only the fit attains the minimum. */
  lemma FitIsOptimal(y: seq<real>, g: Fit)
    requires |y| >= 2
    ensures SquaredError(y, LeastSquares(y)) <= SquaredError(y, g)
    ensures SquaredError(y, LeastSquares(y)) == SquaredError(y, g) ==> g == LeastSquares(y)
  {
    var f := LeastSquares(y);
    var gap := Gap(|y|, f.intercept - g.intercept, f.slope - g.slope);
    ErrorDecomposition(y, g);
    DotSelf(gap);
    if SquaredError(y, f) == SquaredError(y, g) {
      assert gap[0] == f.intercept - g.intercept;
      assert gap[1] == f.intercept - g.intercept + (f.slope - g.slope);
    }
  }

  // ----- how the fit follows the series -----------------------------------------

  /** A fit that leaves no residual is the least-squares fit. */
  lemma ExactFitIsFound(y: seq<real>, g: Fit)
    requires |y| >= 2
    requires forall i :: 0 <= i < |y| ==> y[i] == Expected(g, i)
    ensures LeastSquares(y) == g
  {
    hide Dot;
    hide LeastSquares;
    var rg := Residuals(y, g);
    DotZero(rg, rg);
    DotSelf(Residuals(y, LeastSquares(y)));
    FitIsOptimal(y, g);
  }

  ghost predicate OnLine(y: seq<real>, g: Fit) {
    forall i :: 0 <= i < |y| ==> y[i] == Expected(g, i)
  }

  /** The fit leaves no error exactly when the series lies on a line. */
  lemma NoErrorExactlyOnALine(y: seq<real>)
    requires |y| >= 2
    ensures SquaredError(y, LeastSquares(y)) == 0.0 <==> exists g :: OnLine(y, g)
  {
    hide Dot;
    hide LeastSquares;
    var f := LeastSquares(y);
    var r := Residuals(y, f);
    DotSelf(r);
    if SquaredError(y, f) == 0.0 {
      forall i | 0 <= i < |y|
        ensures y[i] == Expected(f, i)
      {
        assert r[i] == 0.0;
      }
      assert OnLine(y, f);
    }
    if g :| OnLine(y, g) {
      ExactFitIsFound(y, g);
      DotZero(r, r);
    }
  }

  lemma TiltedResiduals(y: seq<real>, a: real, b: real, f: Fit)
    ensures Residuals(Tilted(y, a, b), Fit(f.slope + b, f.intercept + a)) == Residuals(y, f)
  {
    var t, g := Tilted(y, a, b), Fit(f.slope + b, f.intercept + a);
    forall i | 0 <= i < |y|
      ensures Residuals(t, g)[i] == Residuals(y, f)[i]
    {
      var k := i as real;
      assert (f.slope + b) * k == f.slope * k + b * k;
    }
  }

  lemma ScaledResiduals(y: seq<real>, c: real, f: Fit)
    ensures Residuals(Scaled(c, y), Fit(c * f.slope, c * f.intercept)) == Scaled(c, Residuals(y, f))
  {
    var t, g := Scaled(c, y), Fit(c * f.slope, c * f.intercept);
    forall i | 0 <= i < |y|
      ensures Residuals(t, g)[i] == Scaled(c, Residuals(y, f))[i]
    {
      var k, e := i as real, Expected(f, i);
      assert (c * f.slope) * k == c * (f.slope * k);
      assert c * e == c * (f.slope * k) + c * f.intercept;
      assert Residuals(y, f)[i] == y[i] - e;
      assert c * (y[i] - e) == c * y[i] - c * e;
    }
  }

  /** Adding a line to the series adds it to the fit, so the residuals stay. */
  lemma TiltMovesTheFit(y: seq<real>, a: real, b: real)
    requires |y| >= 2
    ensures LeastSquares(Tilted(y, a, b))
         == Fit(LeastSquares(y).slope + b, LeastSquares(y).intercept + a)
    ensures Residuals(Tilted(y, a, b), LeastSquares(Tilted(y, a, b))) == Residuals(y, LeastSquares(y))
  {
    var f, t := LeastSquares(y), Tilted(y, a, b);
    var g := Fit(f.slope + b, f.intercept + a);
    TiltedResiduals(y, a, b, f);
    // The best fit of the tilted series, tilted back, would beat f otherwise.
    var h := LeastSquares(t);
    var back := Fit(h.slope - b, h.intercept - a);
    TiltedResiduals(y, a, b, back);
    assert Fit(back.slope + b, back.intercept + a) == h;
    FitIsOptimal(t, g);
    FitIsOptimal(y, back);
  }

  lemma {:induction false} DotScaled(c: real, u: seq<real>)
    ensures Dot(Scaled(c, u), Scaled(c, u)) == c * c * Dot(u, u)
  {
    var n := |u|;
    if n != 0 {
      DotScaled(c, u[..n - 1]);
      ScaledPrefix(c, u);
      var a, d := u[n - 1], Dot(u[..n - 1], u[..n - 1]);
      assert (c * a) * (c * a) == c * c * (a * a);
      assert c * c * (d + a * a) == c * c * d + c * c * (a * a);
    }
  }

  lemma ScaledPrefix(c: real, u: seq<real>)
    requires |u| > 0
    ensures Scaled(c, u)[..|u| - 1] == Scaled(c, u[..|u| - 1])
  {
    var n := |u| - 1;
    forall i | 0 <= i < n
      ensures Scaled(c, u)[..n][i] == Scaled(c, u[..n])[i]
    {
      assert u[..n][i] == u[i];
    }
  }

  lemma ScaledError(y: seq<real>, c: real, f: Fit, p: real)
    requires p == Square(c)
    ensures SquaredError(Scaled(c, y), Fit(c * f.slope, c * f.intercept)) == p * SquaredError(y, f)
  {
    hide Dot;
    ScaledResiduals(y, c, f);
    DotScaled(c, Residuals(y, f));
  }

  lemma CancelPositive(p: real, a: real, b: real)
    requires p > 0.0 && p * a <= p * b
    ensures a <= b
  {
    var d := a - b;
    assert p * d == p * a - p * b;
    assert d > 0.0 ==> p * d > 0.0;
  }

  /** Scaling the series scales the fit and the residuals. */
  lemma ScaleMovesTheFit(y: seq<real>, c: real)
    requires |y| >= 2 && c != 0.0
    ensures LeastSquares(Scaled(c, y)) == Fit(c * LeastSquares(y).slope, c * LeastSquares(y).intercept)
    ensures Residuals(Scaled(c, y), LeastSquares(Scaled(c, y))) == Scaled(c, Residuals(y, LeastSquares(y)))
  {
    hide Dot;
    hide LeastSquares;
    var f, t := LeastSquares(y), Scaled(c, y);
    var g := Fit(c * f.slope, c * f.intercept);
    var h := LeastSquares(t);
    var back := Fit(h.slope / c, h.intercept / c);
    assert c * back.slope == h.slope && c * back.intercept == h.intercept;
    ScaledResiduals(y, c, f);
    var p := Square(c);
    SquarePositive(c);
    ScaledError(y, c, f, p);
    ScaledError(y, c, back, p);
    assert Fit(c * back.slope, c * back.intercept) == h;
    FitIsOptimal(t, g);
    FitIsOptimal(y, back);
    CancelPositive(p, SquaredError(y, back), SquaredError(y, f));
    assert back == f;
  }
}
