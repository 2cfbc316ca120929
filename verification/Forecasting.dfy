/**
 * The forecaster of ml/forecasting.py: refusal on thin data, a linear trend
 * with prediction bands, the Holt-Winters band, and the clamp at zero.
 *
 * `root` stands for `math.sqrt` on exact reals, `t` and `z` for the positive
 * Student and normal quantiles. The Holt-Winters fit itself comes from outside.
 */
module Forecasting {
  import opened Options
  import opened Sorting
  import opened Regression
  import opened Statistics
  import opened Calendar
  import opened Sequences

  const MIN_HISTORY := 4
  const MIN_POINTS_SEASONAL := 24
  const MAX_HORIZON := 24

  datatype Band = Band(value: real, lower: real, upper: real)
  datatype Entry = Entry(at: Moment, value: real)
  datatype ForecastPoint = ForecastPoint(period: Label, band: Band)
  datatype Smoothing = Smoothing(prediction: seq<real>, residuals: seq<real>)
  datatype Refusal = LengthMismatch | InsufficientData(points: nat) | NoSuchYear

  ghost predicate SquareRoot(root: real -> real) {
    forall v {:trigger root(v)} :: v >= 0.0 ==> root(v) >= 0.0 && Square(root(v)) == v
  }

  // ----- the linear trend ----------------------------------------------------------

  /** Sum of squared distances of the index from its mean, or 1 when that is zero. */
  function IndexSpread(n: nat): real
    requires n > 0
  {
    var ss := Dot(Centred(Index(n)), Centred(Index(n)));
    if ss != 0.0 then ss else 1.0
  }

  function ResidualStd(y: seq<real>, root: real -> real): real
    requires |y| > 2
  {
    root(SquaredError(y, LeastSquares(y)) / ((|y| - 2) as real))
  }

  /** 1 + 1/n + (x0 - mean)^2 / ss at the step-th future index. */
  function Leverage(n: nat, step: int): real
    requires n > 0
  {
    1.0 + 1.0 / (n as real) + Square((n - 1 + step) as real - Mean(Index(n))) / IndexSpread(n)
  }

  function Margin(y: seq<real>, t: real, root: real -> real, step: int): real
    requires |y| > 2
  {
    t * ResidualStd(y, root) * root(Leverage(|y|, step))
  }

  function Around(value: real, margin: real): Band {
    Band(value, value - margin, value + margin)
  }

  function TrendBand(y: seq<real>, t: real, root: real -> real, step: int): Band
    requires |y| > 2
  {
    Around(Expected(LeastSquares(y), |y| - 1 + step), Margin(y, t, root, step))
  }

  method LinearForecast(values: seq<real>, horizon: nat, t: real, root: real -> real)
    returns (points: seq<Band>, residuals: seq<real>)
    requires |values| > 2
    ensures |points| == horizon
    ensures forall i :: 0 <= i < horizon ==> points[i] == TrendBand(values, t, root, i + 1)
    ensures residuals == Residuals(values, LeastSquares(values))
  {
    hide LeastSquares;
    var n := |values|;
    var x := Index(n);
    var fit := LeastSquares(values);
    residuals := Residuals(values, fit);
    var residualStd := root(Dot(residuals, residuals) / ((n - 2) as real));
    var xMean := Mean(x);
    var sumSquares := Dot(Centred(x), Centred(x));
    sumSquares := if sumSquares != 0.0 then sumSquares else 1.0;
    points := [];
    for step := 1 to horizon + 1
      invariant |points| == step - 1
      invariant forall i :: 0 <= i < step - 1 ==> points[i] == TrendBand(values, t, root, i + 1)
    {
      var x0 := n - 1 + step;
      var prediction := Expected(fit, x0);
      var margin := t * residualStd * root(1.0 + 1.0 / (n as real) + Square(x0 as real - xMean) / sumSquares);
      points := points + [Band(prediction, prediction - margin, prediction + margin)];
    }
  }

  lemma IndexMean(n: nat)
    requires n > 0
    ensures Mean(Index(n)) == (n as real - 1.0) / 2.0
  {
    IndexSums(n);
    HalfOfProduct(n as real, Dot(Index(n), Ones(n)));
  }

  lemma HalfOfProduct(m: real, sum: real)
    requires m > 0.0 && 2.0 * sum == TwiceSum(m)
    ensures sum / m == (m - 1.0) / 2.0
  {
    var q := (m - 1.0) / 2.0;
    assert 2.0 * sum == m * (2.0 * q);
    assert sum == m * q;
    var r := sum / m;
    assert Times(m, r) == Times(m, q);
    ScaleOrder(m, r, q);
    ScaleOrder(m, q, r);
  }

  lemma IndexSpreadPositive(n: nat)
    requires n > 0
    ensures IndexSpread(n) > 0.0
  {
    DotSelf(Centred(Index(n)));
  }

  lemma LeverageGrows(n: nat, j: nat, k: nat)
    requires n > 0 && j < k
    ensures 1.0 < Leverage(n, j) < Leverage(n, k)
  {
    IndexMean(n);
    IndexSpreadPositive(n);
    var m := Mean(Index(n));
    var a, b := (n - 1 + j) as real - m, (n - 1 + k) as real - m;
    assert 0.0 <= a < b;
    SquareOrder(a, b);
    SquareOrder(b, a);
    assert 1.0 / (n as real) > 0.0;
    QuotientOrder(Square(a), Square(b), IndexSpread(n));
  }

  lemma CentredIndex(n: nat)
    requires n > 0
    ensures var x, o, c := Index(n), Ones(n), -Mean(Index(n));
            Dot(Centred(x), Centred(x)) == Dot(x, x) + 2.0 * (c * Dot(x, o)) + c * (c * Dot(o, o))
  {
    var x, o, c := Index(n), Ones(n), -Mean(Index(n));
    assert |x| == |o| && Centred(x) == Axpy(x, c, o);
    hide *;
    DotOfShifted(x, o, c);
  }

  lemma DotOfShifted(x: seq<real>, o: seq<real>, c: real)
    requires |x| == |o|
    ensures Dot(Axpy(x, c, o), Axpy(x, c, o)) == Dot(x, x) + 2.0 * (c * Dot(x, o)) + c * (c * Dot(o, o))
  {
    hide *;
    var a := Axpy(x, c, o);
    DotAxpy(x, c, o, a);
    DotSymmetric(x, a);
    DotSymmetric(o, a);
    DotAxpy(x, c, o, x);
    DotAxpy(x, c, o, o);
    DotSymmetric(x, o);
    Collected(c, Dot(x, x), Dot(x, o), Dot(o, o));
  }

  lemma Collected(c: real, xx: real, xo: real, oo: real)
    ensures (xx + c * xo) + c * (xo + c * oo) == xx + 2.0 * (c * xo) + c * (c * oo)
  {
    assert c * (xo + c * oo) == c * xo + c * (c * oo);
  }

  lemma IndexSpreadIs(n: nat)
    requires n > 1
    ensures var m := n as real; 12.0 * IndexSpread(n) == m * m * m - m
  {
    var m, c := n as real, -Mean(Index(n));
    IndexMean(n);
    IndexSums(n);
    OnesCount(n);
    CentredIndex(n);
    var d := Dot(Centred(Index(n)), Centred(Index(n)));
    hide Dot;
    SpreadInClosedForm(m, c, Dot(Index(n), Ones(n)), Dot(Index(n), Index(n)), d);
  }

  lemma SpreadInClosedForm(m: real, c: real, sx: real, sxx: real, d: real)
    requires m >= 2.0 && c == -(m - 1.0) / 2.0
    requires 2.0 * sx == TwiceSum(m) && 6.0 * sxx == SixTimesSquares(m)
    requires d == sxx + 2.0 * (c * sx) + c * (c * m)
    ensures 12.0 * d == m * m * m - m && d != 0.0
  {
    var k := m - 1.0;
    var p := m * k;
    assert SixTimesSquares(m) == p * (2.0 * m - 1.0);
    assert 2.0 * (c * sx) == -(k * p) / 2.0 by {
      assert c * sx == -(k / 2.0) * (p / 2.0);
    }
    assert c * (c * m) == (k * p) / 4.0 by {
      assert c * (c * m) == (k / 2.0) * ((k / 2.0) * m);
      assert (k / 2.0) * ((k / 2.0) * m) == (k * (k * m)) / 4.0;
    }
    assert 12.0 * d == 2.0 * (p * (2.0 * m - 1.0)) - 3.0 * (k * p);
    assert p * (2.0 * m - 1.0) == 2.0 * (p * m) - p;
    assert k * p == p * m - p;
    assert 12.0 * d == p * m + p;
    assert p * m == m * m * m - m * m && p == m * m - m;
    assert p > 0.0 && p * m > 0.0;
  }

  /** The index spread in closed form, and with it the factor under the root. */
  lemma LeverageIs(n: nat, step: nat)
    requires n > 1
    ensures var m := n as real;
            && 12.0 * IndexSpread(n) == m * m * m - m && IndexSpread(n) > 0.0
            && (Leverage(n, step) - 1.0 - 1.0 / m) * IndexSpread(n)
                 == Square(step as real + (m - 1.0) / 2.0)
  {
    var m := n as real;
    IndexMean(n);
    IndexSpreadPositive(n);
    IndexSpreadIs(n);
    var x := (n - 1 + step) as real - Mean(Index(n));
    assert x == step as real + (m - 1.0) / 2.0;
    hide Square;
    hide IndexSpread;
    assert Leverage(n, step) - 1.0 - 1.0 / m == Square(x) / IndexSpread(n);
  }

  /** The residuals' deviation with two degrees of freedom spent on the line. */
  lemma ResidualStdIs(y: seq<real>, root: real -> real)
    requires |y| > 2 && SquareRoot(root)
    ensures var s := ResidualStd(y, root);
            s >= 0.0 && s * s * ((|y| - 2) as real) == SquaredError(y, LeastSquares(y))
  {
    hide LeastSquares;
    hide Dot;
    var e, d := SquaredError(y, LeastSquares(y)), (|y| - 2) as real;
    DotSelf(Residuals(y, LeastSquares(y)));
    var q := e / d;
    assert q * d == e;
    assert q >= 0.0;
    assert Square(root(q)) == q;
  }

  /** A band of the trend: the line's value, and on either side the quantile times the deviation times the root. */
  lemma TrendBandIs(y: seq<real>, t: real, root: real -> real, step: nat)
    requires |y| > 2
    ensures var b, fit := TrendBand(y, t, root, step), LeastSquares(y);
            var margin := t * ResidualStd(y, root) * root(Leverage(|y|, step));
            && b.value == fit.intercept + fit.slope * ((|y| - 1 + step) as real)
            && b.upper - b.value == margin && b.value - b.lower == margin
  {
    hide LeastSquares;
    hide ResidualStd;
    hide Leverage;
  }

  lemma QuotientOrder(a: real, b: real, s: real)
    requires s > 0.0 && 0.0 <= a < b
    ensures 0.0 <= a / s < b / s
  {
    ScaleOrder(s, a / s, b / s);
    ScaleOrder(s, b / s, a / s);
    ScaleOrder(s, 0.0, a / s);
    assert Times(s, a / s) == a && Times(s, b / s) == b && Times(s, 0.0) == 0.0;
  }

  lemma RootOrder(root: real -> real, a: real, b: real)
    requires SquareRoot(root) && 0.0 <= a < b
    ensures 0.0 <= root(a) < root(b)
  {
    SquareOrder(root(b), root(a));
  }

  lemma RootSign(root: real -> real, v: real)
    requires SquareRoot(root) && v >= 0.0
    ensures root(v) == 0.0 <==> v == 0.0
  {
    assert Square(0.0) == 0.0;
    if root(v) != 0.0 {
      SquarePositive(root(v));
    }
  }

  lemma ResidualStdSign(y: seq<real>, root: real -> real)
    requires |y| > 2 && SquareRoot(root)
    ensures ResidualStd(y, root) >= 0.0
    ensures ResidualStd(y, root) == 0.0 <==> SquaredError(y, LeastSquares(y)) == 0.0
  {
    hide LeastSquares;
    hide Dot;
    var e, d := SquaredError(y, LeastSquares(y)), (|y| - 2) as real;
    DotSelf(Residuals(y, LeastSquares(y)));
    assert e / d >= 0.0 && (e / d == 0.0 <==> e == 0.0) by {
      assert e == (e / d) * d;
    }
    RootSign(root, e / d);
  }

  /** The margin is never negative, so the band always surrounds the prediction. */
  lemma MarginNonNegative(y: seq<real>, t: real, root: real -> real, step: nat)
    requires |y| > 2 && SquareRoot(root) && t > 0.0
    ensures Margin(y, t, root, step) >= 0.0
  {
    hide SquaredError;
    hide ResidualStd;
    hide Leverage;
    ResidualStdSign(y, root);
    LeverageGrows(|y|, step, step + 1);
    var s, r := ResidualStd(y, root), root(Leverage(|y|, step));
    assert t * s >= 0.0;
    assert (t * s) * r >= 0.0;
  }

  /** The band strictly widens from any step to any later one, exactly when the history is not a line. */
  lemma BandWidensExactlyWhen(y: seq<real>, t: real, root: real -> real, j: nat, k: nat)
    requires |y| > 2 && SquareRoot(root) && t > 0.0 && j < k
    ensures Margin(y, t, root, j) < Margin(y, t, root, k) <==> !exists g :: OnLine(y, g)
  {
    hide SquaredError;
    hide ResidualStd;
    hide Leverage;
    hide LeastSquares;
    hide Square;
    hide OnLine;
    ResidualStdSign(y, root);
    NoErrorExactlyOnALine(y);
    LeverageGrows(|y|, j, k);
    RootOrder(root, Leverage(|y|, j), Leverage(|y|, k));
    var s, a, b := ResidualStd(y, root), root(Leverage(|y|, j)), root(Leverage(|y|, k));
    if s == 0.0 {
      assert t * s == 0.0;
      assert 0.0 * a == 0.0 && 0.0 * b == 0.0;
    } else {
      StrictProduct(t, s, a, b);
    }
  }

  lemma StrictProduct(t: real, s: real, a: real, b: real)
    requires t > 0.0 && s > 0.0 && a < b
    ensures t * s * a < t * s * b
  {
    var p := Times(t, s);
    ProductPositive(t, s, p);
    ScaleOrder(p, b, a);
    assert Times(p, a) == t * s * a && Times(p, b) == t * s * b;
  }

  /** An exactly linear history is continued along its line with no margin at all. */
  lemma LineIsContinued(y: seq<real>, g: Fit, t: real, root: real -> real, step: nat)
    requires |y| > 2 && SquareRoot(root)
    requires forall i :: 0 <= i < |y| ==> y[i] == Expected(g, i)
    ensures var at := Expected(g, |y| - 1 + step);
            TrendBand(y, t, root, step) == Band(at, at, at)
  {
    hide Leverage;
    hide Expected;
    assert Residuals(y, g) == seq(|y|, i => 0.0) by {
      assert forall i :: 0 <= i < |y| ==> Residuals(y, g)[i] == 0.0;
    }
    ExactFitIsFound(y, g);
    DotZero(Residuals(y, g), Residuals(y, g));
    ResidualStdSign(y, root);
    assert t * 0.0 == 0.0;
    assert 0.0 * root(Leverage(|y|, step)) == 0.0;
  }

  // ----- Holt-Winters band -----------------------------------------------------------

  function SmoothedBand(fit: Smoothing, z: real, root: real -> real, i: nat): Band
    requires |fit.residuals| > 1 && i < |fit.prediction|
  {
    Around(fit.prediction[i], z * root(Variance(fit.residuals)) * root((i + 1) as real))
  }

  lemma SmoothedMarginNonNegative(fit: Smoothing, z: real, root: real -> real, i: nat)
    requires |fit.residuals| > 1 && i < |fit.prediction| && SquareRoot(root) && z > 0.0
    ensures SmoothedBand(fit, z, root, i).lower <= fit.prediction[i] <= SmoothedBand(fit, z, root, i).upper
  {
    hide Variance;
    VarianceNonNegative(fit.residuals);
    var s, r := root(Variance(fit.residuals)), root((i + 1) as real);
    assert z * s >= 0.0;
    assert (z * s) * r >= 0.0;
  }

  /** The smoothed band's half width squared: z squared, the residuals' variance, and the number of steps ahead. */
  lemma SmoothedBandIs(fit: Smoothing, z: real, root: real -> real, i: nat)
    requires |fit.residuals| > 1 && i < |fit.prediction| && SquareRoot(root)
    ensures var b := SmoothedBand(fit, z, root, i);
            var margin := b.upper - b.value;
            && b.value == fit.prediction[i] && b.value - b.lower == margin
            && margin * margin == (z * z) * Variance(fit.residuals) * ((i + 1) as real)
  {
    hide Variance;
    VarianceNonNegative(fit.residuals);
    var s, r := root(Variance(fit.residuals)), root((i + 1) as real);
    assert Square(s) == Variance(fit.residuals) && Square(r) == (i + 1) as real;
    SquareOfThree(z, s, r);
  }

  lemma SquareOfThree(a: real, b: real, c: real)
    ensures (a * b * c) * (a * b * c) == (a * a) * Square(b) * Square(c)
  {
    var p := a * b;
    assert p * p == (a * a) * (b * b);
    assert (p * c) * (p * c) == (p * p) * (c * c);
  }

  /** Short histories follow the trend, those of two years of months the smoothing. */
  lemma MethodFollowsTheLength(y: seq<real>, seasonal: Smoothing, t: real, z: real, root: real -> real, i: nat)
    requires |y| > 2 && i < |seasonal.prediction| && |seasonal.residuals| > 1
    ensures |y| < 24 ==> RawBand(y, seasonal, t, z, root, i) == TrendBand(y, t, root, i + 1)
    ensures |y| >= 24 ==> RawBand(y, seasonal, t, z, root, i) == SmoothedBand(seasonal, z, root, i)
  {
    hide TrendBand;
    hide SmoothedBand;
  }

  /** The horizon asked for, kept between one step and 24. */
  lemma HorizonIs(asked: int)
    ensures 1 <= Horizon(asked) <= 24
    ensures 1 <= asked <= 24 ==> Horizon(asked) == asked
    ensures asked < 1 ==> Horizon(asked) == 1
    ensures asked > 24 ==> Horizon(asked) == 24
  {
  }

  /** Each number of a clamped band is as it was, or zero for a negative one that is not allowed. */
  lemma ClampIs(b: Band, allowNegative: bool)
    ensures var c := Clamp(b, allowNegative);
            && (allowNegative || b.value >= 0.0 ==> c.value == b.value)
            && (allowNegative || b.lower >= 0.0 ==> c.lower == b.lower)
            && (allowNegative || b.upper >= 0.0 ==> c.upper == b.upper)
            && (!allowNegative ==> (b.value < 0.0 ==> c.value == 0.0) && (b.lower < 0.0 ==> c.lower == 0.0)
                                   && (b.upper < 0.0 ==> c.upper == 0.0))
  {
  }

  // ----- the whole forecast -------------------------------------------------------------

  function AtLeastZero(a: real): real {
    if a < 0.0 then 0.0 else a
  }

  function Clamp(b: Band, allowNegative: bool): Band {
    if allowNegative then b else Band(AtLeastZero(b.value), AtLeastZero(b.lower), AtLeastZero(b.upper))
  }

  /** Clamping keeps a band in order and, unless negatives are allowed, off the negative axis. */
  lemma ClampKeepsTheBand(value: real, margin: real, allowNegative: bool)
    requires margin >= 0.0
    ensures var c := Clamp(Around(value, margin), allowNegative);
            && c.lower <= c.value <= c.upper
            && (!allowNegative ==> 0.0 <= c.lower)
            && (0.0 <= value - margin ==> c == Around(value, margin))
  {
  }

  function Horizon(asked: int): nat {
    if asked < 1 then 1 else if asked > MAX_HORIZON then MAX_HORIZON else asked
  }

  predicate EntryEarlier(a: Entry, b: Entry) {
    Instant(a.at) <= Instant(b.at)
  }

  function Entries(periods: seq<Moment>, values: seq<Option<real>>): seq<Entry>
    requires |periods| == |values|
  {
    if |periods| == 0 then []
    else
      var n := |periods| - 1;
      Entries(periods[..n], values[..n]) + if values[n].Some? then [Entry(periods[n], values[n].value)] else []
  }

  /** The entries are the periods with a value, in their order. */
  lemma {:induction false} EntriesArePresent(periods: seq<Moment>, values: seq<Option<real>>) returns (at: seq<nat>)
    requires |periods| == |values|
    ensures Follows(Entries(periods, values), at, Zip(periods, values),
                    (p: (Moment, Option<real>)) => p.1.Some?,
                    (e: Entry, p: (Moment, Option<real>)) => e.at == p.0 && Some(e.value) == p.1)
  {
    at := [];
    if |periods| != 0 {
      var n := |periods| - 1;
      at := EntriesArePresent(periods[..n], values[..n]);
      ZipFront(periods, values);
      var front := Entries(periods[..n], values[..n]);
      var entry := Entry(periods[n], if values[n].Some? then values[n].value else 0.0);
      assert Entries(periods, values) == if values[n].Some? then front + [entry] else front;
      FollowsOneMore(front, at, Zip(periods, values), entry,
                     (p: (Moment, Option<real>)) => p.1.Some?,
                     (e: Entry, p: (Moment, Option<real>)) => e.at == p.0 && Some(e.value) == p.1);
      hide *;
      if values[n].Some? {
        at := at + [n];
      }
    }
  }

  /** In order of time, the entries there were. */
  lemma HistoryIsInOrder(entries: seq<Entry>)
    ensures var h := SortBy(entries, EntryEarlier);
            && multiset(h) == multiset(entries)
            && forall i, j :: 0 <= i < j < |h| ==> Instant(h[i].at) <= Instant(h[j].at)
  {
    EntriesHaveAnOrder();
    SortByIsSorted(entries, EntryEarlier);
    hide Instant;
  }

  lemma EntriesHaveAnOrder()
    ensures TotalPreorder(EntryEarlier)
  {
    hide Instant;
  }

  function EntryValues(entries: seq<Entry>): (r: seq<real>)
    ensures |r| == |entries|
  {
    seq(|entries|, i requires 0 <= i < |entries| => entries[i].value)
  }

  function EntryTimes(entries: seq<Entry>): (r: seq<Moment>)
    ensures |r| == |entries|
  {
    seq(|entries|, i requires 0 <= i < |entries| => entries[i].at)
  }

  /** The band before clamping: the trend on short histories, the smoothed one on long ones. */
  function RawBand(y: seq<real>, seasonal: Smoothing, t: real, z: real, root: real -> real, i: nat): Band
    requires |y| > 2 && i < |seasonal.prediction| && |seasonal.residuals| > 1
  {
    if |y| >= MIN_POINTS_SEASONAL then SmoothedBand(seasonal, z, root, i) else TrendBand(y, t, root, i + 1)
  }

  method ForecastSeries(periods: seq<Moment>, values: seq<Option<real>>, horizon: int, allowNegative: bool,
                        seasonal: Smoothing, t: real, z: real, root: real -> real)
    returns (result: Result<seq<ForecastPoint>, Refusal>)
    requires |seasonal.prediction| >= Horizon(horizon) && |seasonal.residuals| > 1
    requires SquareRoot(root) && t > 0.0 && z > 0.0
    ensures |periods| != |values| <==> result == Err(LengthMismatch)
    ensures |periods| == |values| ==>
              var n := |Entries(periods, values)|;
              && (n < 4 <==> result == Err(InsufficientData(n)))
              && (n >= 4 ==>
                    var history := SortBy(Entries(periods, values), EntryEarlier);
                    var labels := NextPeriods(EntryTimes(history), Horizon(horizon));
                    && (labels.Err? <==> result == Err(NoSuchYear))
                    && (labels.Ok? ==>
                          && result.Ok? && |result.value| == Horizon(horizon) == |labels.value|
                          && forall i :: 0 <= i < Horizon(horizon) ==>
                               && result.value[i].period == labels.value[i]
                               && result.value[i].band
                                    == Clamp(RawBand(EntryValues(history), seasonal, t, z, root, i), allowNegative)))
    ensures result.Ok? ==> forall p :: p in result.value ==>
              && p.band.lower <= p.band.value <= p.band.upper
              && (!allowNegative ==> 0.0 <= p.band.lower)
  {
    hide TrendBand;
    hide SmoothedBand;
    hide InferStep;
    hide CalendarLabels;
    hide NextPeriods;
    hide Entries;
    hide SortBy;
    if |periods| != |values| {
      return Err(LengthMismatch);
    }
    var pairs := Entries(periods, values);
    if |pairs| < MIN_HISTORY {
      return Err(InsufficientData(|pairs|));
    }
    pairs := SortBy(pairs, EntryEarlier);
    var series := EntryValues(pairs);
    var count := Horizon(horizon);
    var raw: seq<Band>;
    if |series| >= MIN_POINTS_SEASONAL {
      raw := seq(count, i requires 0 <= i < count => SmoothedBand(seasonal, z, root, i));
    } else {
      var residuals;
      raw, residuals := LinearForecast(series, count, t, root);
    }
    LabelCount(EntryTimes(pairs), count);
    var future := NextPeriods(EntryTimes(pairs), count);
    if future.Err? {
      return Err(NoSuchYear);
    }
    var points: seq<ForecastPoint> := seq(count, i requires 0 <= i < count =>
      ForecastPoint(future.value[i], Clamp(raw[i], allowNegative)));
    forall i | 0 <= i < count
      ensures points[i].band.lower <= points[i].band.value <= points[i].band.upper
      ensures !allowNegative ==> 0.0 <= points[i].band.lower
    {
      RawBandInOrder(series, seasonal, t, z, root, i);
    }
    return Ok(points);
  }

  lemma RawBandInOrder(y: seq<real>, seasonal: Smoothing, t: real, z: real, root: real -> real, i: nat)
    requires |y| > 2 && i < |seasonal.prediction| && |seasonal.residuals| > 1
    requires SquareRoot(root) && t > 0.0 && z > 0.0
    ensures var b := RawBand(y, seasonal, t, z, root, i); b.lower <= b.value <= b.upper
  {
    if |y| >= MIN_POINTS_SEASONAL {
      SmoothedMarginNonNegative(seasonal, z, root, i);
    } else {
      hide Margin;
      MarginNonNegative(y, t, root, i + 1);
    }
  }

  lemma LabelCount(history: seq<Moment>, count: nat)
    requires |history| > 0
    ensures NextPeriods(history, count).Ok? ==> |NextPeriods(history, count).value| == count
  {
    var stride := CalendarStride(InferStep(history) / 86400.0);
    if stride.Some? && NextPeriods(history, count).Ok? {
      LabelsAreShifts(history[|history| - 1], stride.value, count);
    }
  }

  /**
   * When the median gap names a calendar period, the labels that come out
   * follow that very rule from the last period on.
   */
  lemma ForecastLabelsFollowTheRule(history: seq<Moment>, count: nat, stride: nat, i: nat)
    requires |history| > 0 && i < count
    requires CalendarStride(InferStep(history) / 86400.0) == Some(stride)
    requires NextPeriods(history, count).Ok?
    ensures var labels := NextPeriods(history, count).value;
            var last := history[|history| - 1];
            && |labels| == count && labels[i].Calendar?
            && (i > 0 ==> labels[i - 1].Calendar?)
            && FollowsRule(last, stride, i, if i == 0 then last else labels[i - 1].at, labels[i].at)
  {
    hide FollowsRule;
    hide CalendarLabels;
    hide InferStep;
    CalendarLabelsAreSound(history[|history| - 1], stride, count, i);
  }
}
