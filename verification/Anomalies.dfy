/**
 * The residual-based anomaly detector of ml/anomalies.py.
 *
 * A point is flagged by |z| >= sensitivity, z = (residual - median) / spread.
 * The spread is 1.4826 * MAD or, when MAD is zero, the sample standard
 * deviation. Square roots are avoided by comparing squares; `ReachesIsTheScore`
 * shows that this is the same test.
 */
module Anomalies {
  import opened Options
  import opened Sorting
  import opened Regression
  import opened Statistics
  import opened Sequences

  const MIN_POINTS := 5
  const DEFAULT_SENSITIVITY := 3.0
  const MAD_SCALE := 1.4826

  datatype Point = Point(period: int, value: real)
  datatype Verdict = Normal | Warning | Serious
  datatype Anomaly = Anomaly(point: Point, expected: real, deviation: real, ratio: real,
                             above: bool, severity: Verdict)
  datatype Error = LengthMismatch

  predicate Earlier(a: Point, b: Point) {
    a.period <= b.period
  }

  // ----- the score -------------------------------------------------------------

  /** |dev| / sqrt(spread2) >= threshold. */
  predicate Reaches(dev: real, spread2: real, threshold: real) {
    threshold <= 0.0 || Square(threshold) * spread2 <= Square(dev)
  }

  /** The spread estimate, squared. */
  function Spread2(residuals: seq<real>): real
    requires |residuals| > 1
  {
    var mad := MedianAbsoluteDeviation(residuals);
    if mad > 0.0 then Square(mad * MAD_SCALE) else Variance(residuals)
  }

  function Score(dev: real, spread2: real, sensitivity: real): Verdict {
    if !Reaches(dev, spread2, sensitivity) then Normal
    else if Reaches(dev, spread2, sensitivity * 1.5) then Serious
    else Warning
  }

  /** The verdict on one point of a series in time order. */
  function Judge(series: seq<real>, sensitivity: real, i: nat): Verdict
    requires |series| > 1 && i < |series|
  {
    var residuals := Residuals(series, LeastSquares(series));
    if Spread2(residuals) <= 0.0 then Normal
    else Score(residuals[i] - Median(residuals), Spread2(residuals), sensitivity)
  }

  // ----- the report ------------------------------------------------------------

  function Values(points: seq<Point>): (r: seq<real>)
    ensures |r| == |points|
  {
    seq(|points|, i requires 0 <= i < |points| => points[i].value)
  }

  /** The deviation relative to the size of the expected value. */
  function Ratio(deviation: real, predicted: real): real {
    if predicted != 0.0 then deviation / Abs(predicted) else 0.0
  }

  function Describe(points: seq<Point>, sensitivity: real, i: nat): Anomaly
    requires |points| > 1 && i < |points|
  {
    var predicted := Expected(LeastSquares(Values(points)), i);
    var deviation := points[i].value - predicted;
    Anomaly(points[i], predicted, deviation,
            Ratio(deviation, predicted), deviation > 0.0, Judge(Values(points), sensitivity, i))
  }

  /** What a reader is told about the first k points: one entry per point not judged normal. */
  function ReportUpTo(points: seq<Point>, sensitivity: real, k: nat): seq<Anomaly>
    requires |points| > 1 && k <= |points|
  {
    if k == 0 then []
    else
      ReportUpTo(points, sensitivity, k - 1)
      + if Judge(Values(points), sensitivity, k - 1) == Normal then []
        else [Describe(points, sensitivity, k - 1)]
  }

  function Report(points: seq<Point>, sensitivity: real): seq<Anomaly> {
    if |points| < MIN_POINTS then [] else ReportUpTo(points, sensitivity, |points|)
  }

  function Present(periods: seq<int>, values: seq<Option<real>>): seq<Point>
    requires |periods| == |values|
  {
    if |periods| == 0 then []
    else
      var n := |periods| - 1;
      Present(periods[..n], values[..n]) + if values[n].Some? then [Point(periods[n], values[n].value)] else []
  }

  /** The points are the periods with a value, in their order. */
  lemma {:induction false} PointsArePresent(periods: seq<int>, values: seq<Option<real>>) returns (at: seq<nat>)
    requires |periods| == |values|
    ensures Follows(Present(periods, values), at, Zip(periods, values),
                    (p: (int, Option<real>)) => p.1.Some?,
                    (x: Point, p: (int, Option<real>)) => x.period == p.0 && Some(x.value) == p.1)
  {
    at := [];
    if |periods| != 0 {
      var n := |periods| - 1;
      at := PointsArePresent(periods[..n], values[..n]);
      ZipFront(periods, values);
      var front := Present(periods[..n], values[..n]);
      var point := Point(periods[n], if values[n].Some? then values[n].value else 0.0);
      assert Present(periods, values) == if values[n].Some? then front + [point] else front;
      FollowsOneMore(front, at, Zip(periods, values), point,
                     (p: (int, Option<real>)) => p.1.Some?,
                     (x: Point, p: (int, Option<real>)) => x.period == p.0 && Some(x.value) == p.1);
      hide *;
      if values[n].Some? {
        at := at + [n];
      }
    }
  }

  /** The series the detector judges: missing values dropped, in time order. */
  function History(periods: seq<int>, values: seq<Option<real>>): seq<Point>
    requires |periods| == |values|
  {
    SortBy(Present(periods, values), Earlier)
  }

  /** In order of time, the points there were. */
  lemma HistoryIsInOrder(periods: seq<int>, values: seq<Option<real>>)
    requires |periods| == |values|
    ensures var h := History(periods, values);
            && multiset(h) == multiset(Present(periods, values))
            && forall i, j :: 0 <= i < j < |h| ==> h[i].period <= h[j].period
  {
    PointsHaveAnOrder();
    SortByIsSorted(Present(periods, values), Earlier);
  }

  lemma PointsHaveAnOrder()
    ensures TotalPreorder(Earlier)
  {
  }

  /** One more point adds its entry if its score reaches the sensitivity, and nothing otherwise. */
  lemma OnePointMore(points: seq<Point>, sensitivity: real, i: nat)
    requires |points| > 1 && i < |points|
    ensures var fit := LeastSquares(Values(points));
            var residuals := Residuals(Values(points), fit);
            var dev, predicted := residuals[i] - Median(residuals), Expected(fit, i);
            var deviation := points[i].value - predicted;
            Spread2(residuals) > 0.0 ==>
              ReportUpTo(points, sensitivity, i + 1)
                == ReportUpTo(points, sensitivity, i)
                 + if !Reaches(dev, Spread2(residuals), sensitivity) then []
                   else [Anomaly(points[i], predicted, deviation, Ratio(deviation, predicted), deviation > 0.0,
                                 if Reaches(dev, Spread2(residuals), sensitivity * 1.5) then Serious else Warning)]
  {
    hide LeastSquares;
    hide Median;
    hide Spread2;
    hide Reaches;
    hide Residuals;
    hide Expected;
    hide Ratio;
  }

  /** A series without spread has no anomalies by construction. */
  lemma NoSpreadNoReport(points: seq<Point>, sensitivity: real)
    requires |points| > 1 && Spread2(Residuals(Values(points), LeastSquares(Values(points)))) <= 0.0
    ensures ReportUpTo(points, sensitivity, |points|) == []
  {
    hide LeastSquares;
    hide Median;
    hide Spread2;
    hide Residuals;
    hide Values;
    hide ReportUpTo;
    AllNormalEmptyReport(points, sensitivity, |points|);
  }

  method Detect(periods: seq<int>, values: seq<Option<real>>, sensitivity: real)
    returns (result: Result<seq<Anomaly>, Error>)
    ensures result.Ok? <==> |periods| == |values|
    ensures result.Ok? ==> result.value == Report(History(periods, values), sensitivity)
  {
    hide LeastSquares;
    hide Median;
    hide MedianAbsoluteDeviation;
    hide Variance;
    hide Reaches;
    hide Residuals;
    hide Expected;
    hide SortBy;
    if |periods| != |values| {
      return Err(LengthMismatch);
    }
    var pairs := Present(periods, values);
    if |pairs| < MIN_POINTS {
      return Ok([]);
    }
    pairs := SortBy(pairs, Earlier);
    var series := Values(pairs);
    var fit := LeastSquares(series);
    var residuals := Residuals(series, fit);
    var medianResidual := Median(residuals);
    var mad := MedianAbsoluteDeviation(residuals);
    var spread2 := if mad > 0.0 then Square(mad * MAD_SCALE) else Variance(residuals);
    assert spread2 == Spread2(residuals);
    hide Spread2;
    hide Square;
    hide Judge;
    hide Describe;
    hide Values;
    if spread2 <= 0.0 {
      NoSpreadNoReport(pairs, sensitivity);
      return Ok([]);
    }
    var found: seq<Anomaly> := [];
    for i := 0 to |pairs|
      invariant found == ReportUpTo(pairs, sensitivity, i)
    {
      OnePointMore(pairs, sensitivity, i);
      hide *;
      var dev := residuals[i] - medianResidual;
      if !Reaches(dev, spread2, sensitivity) {
        continue;
      }
      var predicted := Expected(fit, i);
      var deviation := pairs[i].value - predicted;
      var ratio := Ratio(deviation, predicted);
      var severity := if Reaches(dev, spread2, sensitivity * 1.5) then Serious else Warning;
      found := found + [Anomaly(pairs[i], predicted, deviation, ratio, deviation > 0.0, severity)];
    }
    return Ok(found);
  }

  lemma {:induction false} AllNormalEmptyReport(points: seq<Point>, sensitivity: real, k: nat)
    requires |points| > 1 && k <= |points|
    requires forall i :: 0 <= i < |points| ==> Judge(Values(points), sensitivity, i) == Normal
    ensures ReportUpTo(points, sensitivity, k) == []
  {
    if k != 0 {
      AllNormalEmptyReport(points, sensitivity, k - 1);
    }
  }

  // ----- the score is the code's z-test --------------------------------------------

  lemma ReachesIsTheScore(dev: real, spread: real, threshold: real)
    requires spread > 0.0
    ensures Reaches(dev, Square(spread), threshold) <==> Abs(dev / spread) >= threshold
  {
    var z := dev / spread;
    assert dev == z * spread;
    if threshold > 0.0 {
      assert Square(dev) == Square(z) * Square(spread);
      SquareOfAbs(z);
      SquareOrder(threshold, Abs(z));
      SquarePositive(spread);
      TimesOrder(Square(spread), Square(threshold), Square(z));
    }
  }

  /** With the spread itself in hand, the verdict is the code's: |z| against the sensitivity and 1.5 times it. */
  lemma JudgeIsTheZScore(series: seq<real>, sensitivity: real, i: nat, spread: real)
    requires |series| > 1 && i < |series| && spread > 0.0
    requires Square(spread) == Spread2(Residuals(series, LeastSquares(series)))
    ensures var residuals := Residuals(series, LeastSquares(series));
            var z := (residuals[i] - Median(residuals)) / spread;
            Judge(series, sensitivity, i)
              == if Abs(z) < sensitivity then Normal else if Abs(z) >= sensitivity * 1.5 then Serious else Warning
  {
    hide LeastSquares;
    hide Median;
    hide Spread2;
    hide Reaches;
    var residuals := Residuals(series, LeastSquares(series));
    var dev := residuals[i] - Median(residuals);
    SquarePositive(spread);
    ReachesIsTheScore(dev, spread, sensitivity);
    ReachesIsTheScore(dev, spread, sensitivity * 1.5);
  }

  /**
   * The spread the score divides by: 1.4826 times the median distance of the
   * residuals from their median or, when that is zero, the sample deviation.
   */
  lemma SpreadIs(residuals: seq<real>, spread: real)
    requires |residuals| > 1 && spread > 0.0 && Square(spread) == Spread2(residuals)
    ensures var distances := seq(|residuals|, i requires 0 <= i < |residuals| =>
                                   Abs(residuals[i] - Median(residuals)));
            var mad, n := Median(distances), |residuals| as real;
            if mad > 0.0 then spread == 1.4826 * mad
            else (n - 1.0) * (spread * spread) == Sum(Squares(residuals, Mean(residuals)))
  {
    assert Deviations(residuals, Median(residuals))
        == seq(|residuals|, i requires 0 <= i < |residuals| => Abs(residuals[i] - Median(residuals)));
    hide Median;
    hide Deviations;
    hide Abs;
    var mad := MedianAbsoluteDeviation(residuals);
    if mad > 0.0 {
      RootIs(spread, mad * MAD_SCALE);
    } else {
      DeviationIs(residuals, spread);
    }
    hide *;
  }

  lemma DeviationIs(residuals: seq<real>, spread: real)
    requires |residuals| > 1 && Square(spread) == Variance(residuals)
    ensures (|residuals| as real - 1.0) * (spread * spread) == Sum(Squares(residuals, Mean(residuals)))
  {
    hide *;
    SquareIs(spread);
    MeanAndVarianceAre(residuals);
    assert (|residuals| - 1) as real == |residuals| as real - 1.0;
  }

  lemma RootIs(a: real, b: real)
    requires a > 0.0 && b > 0.0 && Square(a) == Square(b)
    ensures a == b
  {
    hide Square;
    SquareOrder(a, b);
    SquareOrder(b, a);
  }

  lemma SquareIs(a: real)
    ensures Square(a) == a * a
  {
  }

  /** What an entry says: the trend's value, the distance from it, that distance as a share, and its direction. */
  lemma DescriptionIs(points: seq<Point>, sensitivity: real, i: nat)
    requires |points| > 1 && i < |points|
    ensures var a, fit := Describe(points, sensitivity, i), LeastSquares(Values(points));
            && a.point == points[i] && a.expected == fit.intercept + fit.slope * (i as real)
            && a.deviation == points[i].value - a.expected
            && (if a.expected == 0.0 then a.ratio == 0.0 else a.ratio * Abs(a.expected) == a.deviation)
            && (a.above <==> points[i].value > a.expected)
            && a.severity == Judge(Values(points), sensitivity, i)
  {
    hide LeastSquares;
    hide Judge;
    var fit := LeastSquares(Values(points));
    assert Expected(fit, i) == fit.intercept + fit.slope * (i as real);
    var predicted := Expected(fit, i);
    if predicted != 0.0 {
      var d := points[i].value - predicted;
      assert d / Abs(predicted) * Abs(predicted) == d;
    }
  }

  /** The entries are those of the points not judged normal, in the order of the points. */
  lemma {:induction false} ReportIsInOrder(points: seq<Point>, sensitivity: real, k: nat) returns (at: seq<nat>)
    requires |points| > 1 && k <= |points|
    ensures |at| == |ReportUpTo(points, sensitivity, k)|
    ensures forall i, j :: 0 <= i < j < |at| ==> at[i] < at[j]
    ensures forall i: int :: i in at <==> 0 <= i < k && Judge(Values(points), sensitivity, i) != Normal
    ensures forall i :: 0 <= i < |at| ==>
              at[i] < k && ReportUpTo(points, sensitivity, k)[i] == Describe(points, sensitivity, at[i])
  {
    at := [];
    if k != 0 {
      at := ReportIsInOrder(points, sensitivity, k - 1);
      var before, entry := ReportUpTo(points, sensitivity, k - 1), Describe(points, sensitivity, k - 1);
      var quiet := Judge(Values(points), sensitivity, k - 1) == Normal;
      assert ReportUpTo(points, sensitivity, k) == if quiet then before else before + [entry];
      hide *;
      assert forall i :: 0 <= i < |at| ==> at[i] in at;
      if !quiet {
        at := at + [k - 1];
      }
    }
  }

  /** Fewer than five points make no report. */
  lemma ReportNeedsFivePoints(points: seq<Point>, sensitivity: real)
    ensures |points| < 5 ==> Report(points, sensitivity) == []
    ensures |points| >= 5 ==> Report(points, sensitivity) == ReportUpTo(points, sensitivity, |points|)
  {
    hide ReportUpTo;
  }

  /** The report holds one entry for each point judged not normal, and nothing else. */
  lemma {:induction false} ReportedExactlyWhenJudged(points: seq<Point>, sensitivity: real, k: nat, a: Anomaly)
    requires |points| > 1 && k <= |points|
    ensures a in ReportUpTo(points, sensitivity, k)
       <==> exists i :: 0 <= i < k && Judge(Values(points), sensitivity, i) != Normal
                     && a == Describe(points, sensitivity, i)
  {
    hide Judge;
    hide Describe;
    if k != 0 {
      ReportedExactlyWhenJudged(points, sensitivity, k - 1, a);
    }
  }

  // ----- departures from trend only -----------------------------------------------

  /** Adding any line a + b * index changes no verdict. */
  lemma TiltChangesNoVerdict(series: seq<real>, a: real, b: real, sensitivity: real, i: nat)
    requires |series| > 1 && i < |series|
    ensures Judge(Tilted(series, a, b), sensitivity, i) == Judge(series, sensitivity, i)
  {
    hide LeastSquares;
    TiltMovesTheFit(series, a, b);
  }

  lemma Spread2Scales(c: real, residuals: seq<real>)
    requires c > 0.0 && |residuals| > 1
    ensures Spread2(Scaled(c, residuals)) == Times(Square(c), Spread2(residuals))
  {
    hide Variance;
    hide MedianAbsoluteDeviation;
    MadScales(c, residuals);
    VarianceScales(c, residuals);
    var mad := MedianAbsoluteDeviation(residuals);
    ScaleOrder(c, mad, 0.0);
    assert Times(c, 0.0) == 0.0;
    if mad > 0.0 {
      assert Times(c, mad) * MAD_SCALE == c * (mad * MAD_SCALE);
      SquareOfProduct(c, mad * MAD_SCALE);
    }
  }

  lemma ReachesScales(c: real, dev: real, spread2: real, threshold: real)
    requires c > 0.0
    ensures Reaches(Times(c, dev), Times(Square(c), spread2), threshold) <==> Reaches(dev, spread2, threshold)
  {
    SquareOfProduct(c, dev);
    SquarePositive(c);
    var t := Square(threshold) * spread2;
    assert Square(threshold) * (Square(c) * spread2) == Square(c) * t;
    ScaleOrder(Square(c), t, Square(dev));
    assert Times(Square(c), t) == Square(c) * t;
    assert Times(Square(c), Square(dev)) == Square(c) * Square(dev);
  }

  /** Multiplying every value by a positive factor changes no verdict. */
  lemma ScaleChangesNoVerdict(series: seq<real>, c: real, sensitivity: real, i: nat)
    requires |series| > 1 && i < |series| && c > 0.0
    ensures Judge(Scaled(c, series), sensitivity, i) == Judge(series, sensitivity, i)
  {
    hide LeastSquares;
    hide Median;
    hide Spread2;
    hide Times;
    hide Reaches;
    hide Square;
    ScaleMovesTheFit(series, c);
    var r := Residuals(series, LeastSquares(series));
    var dev := r[i] - Median(r);
    var t := Scaled(c, series);
    var rt := Residuals(t, LeastSquares(t));
    assert rt == Scaled(c, r);
    assert rt[i] == Times(c, r[i]);
    MedianScales(c, r);
    Spread2Scales(c, r);
    TimesDifference(c, r[i], Median(r));
    assert rt[i] - Median(rt) == Times(c, dev);
    SquarePositive(c);
    PositiveFactor(Square(c), Spread2(r));
    ReachesScales(c, dev, Spread2(r), sensitivity);
    ReachesScales(c, dev, Spread2(r), sensitivity * 1.5);
  }

  lemma TimesDifference(c: real, a: real, b: real)
    ensures Times(c, a) - Times(c, b) == Times(c, a - b)
  {
  }

  lemma PositiveFactor(p: real, a: real)
    requires p > 0.0
    ensures Times(p, a) <= 0.0 <==> a <= 0.0
  {
    ScaleOrder(p, a, 0.0);
  }

  /** A series that lies on a line has no anomalies, whatever the sensitivity. */
  lemma LineHasNoAnomalies(series: seq<real>, g: Fit, sensitivity: real, i: nat)
    requires |series| > 1 && i < |series|
    requires forall k :: 0 <= k < |series| ==> series[k] == Expected(g, k)
    ensures Judge(series, sensitivity, i) == Normal
  {
    ExactFitIsFound(series, g);
    var r := Residuals(series, g);
    MedianOfConstant(r, 0.0);
    MedianOfConstant(Deviations(r, 0.0), 0.0);
    assert Mean(r) == 0.0 by {
      DotZero(r, Ones(|r|));
    }
    DotZero(Centred(r), Centred(r));
  }

  lemma LineHasEmptyReport(points: seq<Point>, g: Fit, sensitivity: real)
    requires forall k :: 0 <= k < |points| ==> points[k].value == Expected(g, k)
    ensures Report(points, sensitivity) == []
  {
    hide Judge;
    if |points| >= MIN_POINTS {
      forall i | 0 <= i < |points|
        ensures Judge(Values(points), sensitivity, i) == Normal
      {
        LineHasNoAnomalies(Values(points), g, sensitivity, i);
      }
      AllNormalEmptyReport(points, sensitivity, |points|);
    }
  }

  // ----- the same at the level of the report ------------------------------------------

  datatype Flag = Flag(period: int, above: bool, severity: Verdict)

  /** What a report says apart from the quoted amounts. */
  function Flags(report: seq<Anomaly>): (r: seq<Flag>)
    ensures |r| == |report|
  {
    seq(|report|, i requires 0 <= i < |report| =>
      Flag(report[i].point.period, report[i].above, report[i].severity))
  }

  function WithValues(points: seq<Point>, values: seq<real>): (r: seq<Point>)
    requires |points| == |values|
    ensures |r| == |points| && Values(r) == values
  {
    seq(|points|, i requires 0 <= i < |points| => Point(points[i].period, values[i]))
  }

  lemma {:induction false} SameVerdictsSameFlags(p: seq<Point>, q: seq<Point>, sensitivity: real, k: nat)
    requires |p| == |q| > 1 && k <= |p|
    requires forall i :: 0 <= i < |p| ==> p[i].period == q[i].period
    requires forall i :: 0 <= i < |p| ==>
               Judge(Values(p), sensitivity, i) == Judge(Values(q), sensitivity, i)
    requires forall i :: 0 <= i < |p| ==>
               Describe(p, sensitivity, i).above == Describe(q, sensitivity, i).above
    ensures Flags(ReportUpTo(p, sensitivity, k)) == Flags(ReportUpTo(q, sensitivity, k))
  {
    hide Judge;
    if k != 0 {
      SameVerdictsSameFlags(p, q, sensitivity, k - 1);
      var rp, rq := ReportUpTo(p, sensitivity, k - 1), ReportUpTo(q, sensitivity, k - 1);
      if Judge(Values(p), sensitivity, k - 1) != Normal {
        FlagsAppend(rp, Describe(p, sensitivity, k - 1));
        FlagsAppend(rq, Describe(q, sensitivity, k - 1));
      } else {
        assert rp + [] == rp && rq + [] == rq;
      }
    }
  }

  lemma FlagsAppend(report: seq<Anomaly>, a: Anomaly)
    ensures Flags(report + [a]) == Flags(report) + [Flag(a.point.period, a.above, a.severity)]
  {
  }

  /** Anomalies measure departure from trend: the flags survive any added line. */
  lemma ReportIgnoresTrend(points: seq<Point>, a: real, b: real, sensitivity: real)
    ensures Flags(Report(WithValues(points, Tilted(Values(points), a, b)), sensitivity))
         == Flags(Report(points, sensitivity))
  {
    hide LeastSquares;
    hide Judge;
    if |points| >= MIN_POINTS {
      var y := Values(points);
      var t := Tilted(y, a, b);
      var moved := WithValues(points, t);
      TiltMovesTheFit(y, a, b);
      forall i | 0 <= i < |points|
        ensures Judge(t, sensitivity, i) == Judge(y, sensitivity, i)
        ensures Describe(moved, sensitivity, i).above == Describe(points, sensitivity, i).above
      {
        TiltChangesNoVerdict(y, a, b, sensitivity, i);
        assert moved[i].value == t[i];
        assert Residuals(t, LeastSquares(t))[i] == Residuals(y, LeastSquares(y))[i];
      }
      SameVerdictsSameFlags(moved, points, sensitivity, |points|);
    }
  }

  /** ... and any change of unit. */
  lemma ReportIgnoresScale(points: seq<Point>, c: real, sensitivity: real)
    requires c > 0.0
    ensures Flags(Report(WithValues(points, Scaled(c, Values(points))), sensitivity))
         == Flags(Report(points, sensitivity))
  {
    hide LeastSquares;
    hide Judge;
    hide Times;
    if |points| >= MIN_POINTS {
      var y := Values(points);
      var t := Scaled(c, y);
      var moved := WithValues(points, t);
      ScaleMovesTheFit(y, c);
      forall i | 0 <= i < |points|
        ensures Judge(t, sensitivity, i) == Judge(y, sensitivity, i)
        ensures Describe(moved, sensitivity, i).above == Describe(points, sensitivity, i).above
      {
        ScaleChangesNoVerdict(y, c, sensitivity, i);
        assert moved[i].value == t[i];
        assert Residuals(t, LeastSquares(t))[i] == Times(c, Residuals(y, LeastSquares(y))[i]);
        PositiveFactor(c, Residuals(y, LeastSquares(y))[i]);
      }
      SameVerdictsSameFlags(moved, points, sensitivity, |points|);
    }
  }

  // ----- at most half of the points are flagged --------------------------------------

  lemma FlaggedBeyondMad(residuals: seq<real>, sensitivity: real, i: nat)
    requires |residuals| > 1 && i < |residuals|
    requires sensitivity * MAD_SCALE > 1.0
    requires Spread2(residuals) > 0.0
    requires Reaches(residuals[i] - Median(residuals), Spread2(residuals), sensitivity)
    ensures Deviations(residuals, Median(residuals))[i] > MedianAbsoluteDeviation(residuals)
  {
    hide Variance;
    hide Median;
    var mad, dev := MedianAbsoluteDeviation(residuals), residuals[i] - Median(residuals);
    MadNonNegative(residuals);
    SquareOfAbs(dev);
    if mad > 0.0 {
      var reach := sensitivity * (mad * MAD_SCALE);
      SquareOfProduct(sensitivity, mad * MAD_SCALE);
      ProductPositive(sensitivity * MAD_SCALE - 1.0, mad, reach - mad);
      SquareOrder(reach, Abs(dev));
    } else {
      SquarePositive(sensitivity);
      ProductPositive(Square(sensitivity), Spread2(residuals), Square(sensitivity) * Spread2(residuals));
      assert Square(0.0) == 0.0;
    }
  }

  lemma {:induction false} CountAppend(s: seq<real>, x: real, bound: real)
    ensures CountAtMost(s + [x], bound) == CountAtMost(s, bound) + if x <= bound then 1 else 0
  {
    if |s| == 0 {
      assert s + [x] == [x];
    } else {
      CountAppend(s[1..], x, bound);
      assert (s + [x])[1..] == s[1..] + [x];
    }
  }

  lemma {:induction false} FlaggedAndCovered(points: seq<Point>, sensitivity: real, k: nat)
    requires |points| > 1 && k <= |points|
    requires sensitivity * MAD_SCALE > 1.0
    ensures var r := Residuals(Values(points), LeastSquares(Values(points)));
            |ReportUpTo(points, sensitivity, k)|
              + CountAtMost(Deviations(r, Median(r))[..k], MedianAbsoluteDeviation(r)) <= k
  {
    hide LeastSquares;
    hide Median;
    hide Spread2;
    hide Reaches;
    hide MedianAbsoluteDeviation;
    hide Deviations;
    if k != 0 {
      var series := Values(points);
      var r := Residuals(series, LeastSquares(series));
      var devs := Deviations(r, Median(r));
      FlaggedAndCovered(points, sensitivity, k - 1);
      assert devs[..k] == devs[..k - 1] + [devs[k - 1]];
      CountAppend(devs[..k - 1], devs[k - 1], MedianAbsoluteDeviation(r));
      if Judge(series, sensitivity, k - 1) != Normal {
        FlaggedBeyondMad(r, sensitivity, k - 1);
      }
    }
  }

  /** Whatever the size of the outliers, at most half of the periods are flagged. */
  lemma AtMostHalfFlagged(points: seq<Point>, sensitivity: real)
    requires sensitivity * MAD_SCALE > 1.0
    ensures |Report(points, sensitivity)| <= |points| / 2
  {
    hide LeastSquares;
    hide Median;
    if |points| >= MIN_POINTS {
      var r := Residuals(Values(points), LeastSquares(Values(points)));
      var devs := Deviations(r, Median(r));
      FlaggedAndCovered(points, sensitivity, |points|);
      assert devs[..|points|] == devs;
      MedianCoversHalf(devs);
    }
  }

  lemma AtMostHalfFlaggedByDefault(points: seq<Point>)
    ensures |Report(points, DEFAULT_SENSITIVITY)| <= |points| / 2
  {
    AtMostHalfFlagged(points, DEFAULT_SENSITIVITY);
  }
}
