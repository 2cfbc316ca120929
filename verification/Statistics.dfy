/**
 * Medians, counts and spreads of real series, as numpy computes them
 * (`np.median`, `np.std(ddof=1)`), over exact reals.
 */
module Statistics {
  import opened Sorting
  import opened Regression

  predicate RealLe(a: real, b: real) {
    a <= b
  }

  lemma RealLeIsTotalPreorder()
    ensures TotalPreorder(RealLe)
  {
  }

  function Abs(a: real): real {
    if a < 0.0 then -a else a
  }

  // ----- counting -----------------------------------------------------------

  function CountAtMost(s: seq<real>, bound: real): nat {
    if |s| == 0 then 0
    else (if s[0] <= bound then 1 else 0) + CountAtMost(s[1..], bound)
  }

  lemma {:induction false} CountInsert(x: real, s: seq<real>, bound: real)
    ensures CountAtMost(Insert(x, s, RealLe), bound)
         == (if x <= bound then 1 else 0) + CountAtMost(s, bound)
  {
    if |s| == 0 || x <= s[0] {
      assert ([x] + s)[1..] == s;
    } else {
      CountInsert(x, s[1..], bound);
    }
  }

  lemma {:induction false} CountIgnoresOrder(s: seq<real>, bound: real)
    ensures CountAtMost(SortBy(s, RealLe), bound) == CountAtMost(s, bound)
  {
    if |s| != 0 {
      CountIgnoresOrder(s[1..], bound);
      CountInsert(s[0], SortBy(s[1..], RealLe), bound);
    }
  }

  lemma {:induction false} CountPrefix(s: seq<real>, bound: real, k: nat)
    requires k <= |s| && forall i :: 0 <= i < k ==> s[i] <= bound
    ensures CountAtMost(s, bound) >= k
  {
    if k != 0 {
      CountPrefix(s[1..], bound, k - 1);
    }
  }

  // ----- the median -----------------------------------------------------------

  function Median(s: seq<real>): real
    requires |s| > 0
  {
    Middle(SortBy(s, RealLe))
  }

  function Middle(t: seq<real>): real
    requires |t| > 0
  {
    var half := |t| / 2;
    if |t| % 2 == 1 then t[half] else (t[half - 1] + t[half]) / 2.0
  }

  lemma MedianAboveLowerHalf(t: seq<real>, k: nat)
    requires SortedBy(t, RealLe) && 0 < k <= |t|
    ensures forall i :: 0 <= i < k ==> t[i] <= t[k - 1]
  {
    forall i | 0 <= i < k
      ensures t[i] <= t[k - 1]
    {
      assert i == k - 1 || RealLe(t[i], t[k - 1]);
    }
  }

  lemma MiddleAboveLower(t: seq<real>, k: nat)
    requires |t| > 0 && k == (|t| - 1) / 2 && SortedBy(t, RealLe)
    ensures t[k] <= Middle(t)
  {
    if |t| % 2 == 0 {
      assert RealLe(t[k], t[k + 1]);
      MidpointAbove(t[k], t[k + 1]);
    }
  }

  lemma MidpointAbove(a: real, b: real)
    requires a <= b
    ensures a <= (a + b) / 2.0
  {
  }

  /** At least half of the values are at most the median. */
  lemma MedianCoversHalf(s: seq<real>)
    requires |s| > 0
    ensures 2 * CountAtMost(s, Median(s)) >= |s|
  {
    hide SortBy;
    hide Middle;
    hide CountAtMost;
    var t, k := SortBy(s, RealLe), (|s| - 1) / 2;
    RealLeIsTotalPreorder();
    SortByIsSorted(s, RealLe);
    CountIgnoresOrder(s, Median(s));
    MedianAboveLowerHalf(t, k + 1);
    MiddleAboveLower(t, k);
    CountPrefix(t, Median(s), k + 1);
  }

  lemma MedianOfConstant(s: seq<real>, c: real)
    requires |s| > 0 && forall i :: 0 <= i < |s| ==> s[i] == c
    ensures Median(s) == c
  {
    var t := SortBy(s, RealLe);
    forall i | 0 <= i < |t|
      ensures t[i] == c
    {
      MembershipPreserved(s, RealLe);
      assert t[i] in t;
    }
  }

  lemma SameLeast(a: seq<real>, b: seq<real>)
    requires |a| > 0 && |b| > 0 && multiset(a) == multiset(b)
    requires forall i, j :: 0 <= i < j < |a| ==> a[i] <= a[j]
    requires forall i, j :: 0 <= i < j < |b| ==> b[i] <= b[j]
    ensures a[0] == b[0]
  {
    assert a[0] in multiset(b) && b[0] in multiset(a);
    var i :| 0 <= i < |b| && b[i] == a[0];
    var j :| 0 <= j < |a| && a[j] == b[0];
  }

  lemma RestOf(a: seq<real>)
    requires |a| > 0
    ensures multiset(a[1..]) == multiset(a) - multiset{a[0]} && a == [a[0]] + a[1..]
  {
    assert a == [a[0]] + a[1..];
  }

  /** A list has one ordering. */
  lemma {:induction false} OneOrdering(a: seq<real>, b: seq<real>)
    requires multiset(a) == multiset(b)
    requires forall i, j :: 0 <= i < j < |a| ==> a[i] <= a[j]
    requires forall i, j :: 0 <= i < j < |b| ==> b[i] <= b[j]
    ensures a == b
  {
    assert |a| == |multiset(a)| == |multiset(b)| == |b|;
    if |a| != 0 {
      SameLeast(a, b);
      RestOf(a);
      RestOf(b);
      OneOrdering(a[1..], b[1..]);
    }
  }

  lemma SortIsTheOrdering(s: seq<real>, t: seq<real>)
    requires multiset(t) == multiset(s) && forall i, j :: 0 <= i < j < |t| ==> t[i] <= t[j]
    ensures SortBy(s, RealLe) == t && |t| == |s|
  {
    assert |t| == |multiset(t)| == |multiset(s)| == |s|;
    var u := SortBy(s, RealLe);
    RealLeIsTotalPreorder();
    SortByIsSorted(s, RealLe);
    assert forall i, j :: 0 <= i < j < |u| ==> RealLe(u[i], u[j]);
    hide SortBy;
    OneOrdering(t, u);
  }

  /** The median is midway between the two middle values, in whatever way the values are put in order. */
  lemma MedianIsTheMiddle(s: seq<real>, t: seq<real>)
    requires |s| > 0 && multiset(t) == multiset(s)
    requires forall i, j :: 0 <= i < j < |t| ==> t[i] <= t[j]
    ensures |t| == |s|
    ensures 2.0 * Median(s) == t[(|s| - 1) / 2] + t[|s| / 2]
  {
    hide SortBy;
    hide Middle;
    SortIsTheOrdering(s, t);
    MiddleIs(t);
  }

  lemma MiddleIs(t: seq<real>)
    requires |t| > 0
    ensures 2.0 * Middle(t) == t[(|t| - 1) / 2] + t[|t| / 2]
  {
    if |t| % 2 == 1 {
      assert (|t| - 1) / 2 == |t| / 2;
    }
  }

  // ----- scaling --------------------------------------------------------------

  lemma ScaleOrder(c: real, a: real, b: real)
    requires c > 0.0
    ensures Times(c, a) <= Times(c, b) <==> a <= b
  {
    if a < b {
      ProductPositive(c, b - a, Times(c, b) - Times(c, a));
    } else if a > b {
      ProductPositive(c, a - b, Times(c, a) - Times(c, b));
    }
  }

  lemma SquareOrder(a: real, b: real)
    requires a >= 0.0 && b >= 0.0
    ensures a <= b <==> Square(a) <= Square(b)
  {
    var d := Square(b) - Square(a);
    assert d == (b - a) * (b + a);
    if a < b {
      ProductPositive(b - a, b + a, d);
    } else if b < a {
      assert -d == (a - b) * (b + a);
      ProductPositive(a - b, b + a, -d);
    }
  }

  lemma SquareOfAbs(a: real)
    ensures Square(Abs(a)) == Square(a)
  {
  }

  lemma TimesOrder(p: real, a: real, b: real)
    requires p > 0.0
    ensures a <= b <==> a * p <= b * p
  {
    ScaleOrder(p, a, b);
    assert Times(p, a) == a * p && Times(p, b) == b * p;
  }

  lemma SquareOfProduct(a: real, b: real)
    ensures Square(a * b) == Square(a) * Square(b)
  {
    assert (a * b) * (a * b) == (a * a) * (b * b);
  }

  lemma ScaledTail(c: real, s: seq<real>)
    requires |s| > 0
    ensures Scaled(c, s) == [Times(c, s[0])] + Scaled(c, s[1..])
    ensures Scaled(c, s)[1..] == Scaled(c, s[1..])
  {
    hide Times;
  }

  lemma ScaledCons(c: real, x: real, s: seq<real>)
    ensures Scaled(c, [x] + s) == [Times(c, x)] + Scaled(c, s)
  {
    hide Times;
    ScaledTail(c, [x] + s);
    assert ([x] + s)[1..] == s;
  }

  lemma {:induction false} ScaledInsert(c: real, x: real, s: seq<real>)
    requires c > 0.0
    ensures Insert(Times(c, x), Scaled(c, s), RealLe) == Scaled(c, Insert(x, s, RealLe))
  {
    hide Times;
    if |s| == 0 {
      ScaledCons(c, x, s);
    } else {
      ScaleOrder(c, x, s[0]);
      ScaledTail(c, s);
      if x <= s[0] {
        ScaledCons(c, x, s);
      } else {
        ScaledInsert(c, x, s[1..]);
        ScaledCons(c, s[0], Insert(x, s[1..], RealLe));
      }
    }
  }

  lemma {:induction false} ScaledSort(c: real, s: seq<real>)
    requires c > 0.0
    ensures SortBy(Scaled(c, s), RealLe) == Scaled(c, SortBy(s, RealLe))
  {
    hide Times;
    if |s| != 0 {
      ScaledTail(c, s);
      ScaledSort(c, s[1..]);
      ScaledInsert(c, s[0], SortBy(s[1..], RealLe));
    }
  }

  lemma MedianScales(c: real, s: seq<real>)
    requires c > 0.0 && |s| > 0
    ensures Median(Scaled(c, s)) == Times(c, Median(s))
  {
    hide Times;
    hide SortBy;
    hide Middle;
    ScaledSort(c, s);
    MiddleScales(c, SortBy(s, RealLe));
  }

  lemma MiddleScales(c: real, t: seq<real>)
    requires |t| > 0
    ensures Middle(Scaled(c, t)) == Times(c, Middle(t))
  {
    hide Times;
    var half := |t| / 2;
    if |t| % 2 == 0 {
      TimesHalf(c, t[half - 1], t[half]);
    }
  }

  lemma TimesHalf(c: real, a: real, b: real)
    ensures (Times(c, a) + Times(c, b)) / 2.0 == Times(c, (a + b) / 2.0)
  {
  }

  // ----- spread -----------------------------------------------------------------

  /** |s[i] - m| for every i. */
  function Deviations(s: seq<real>, m: real): (r: seq<real>)
    ensures |r| == |s|
  {
    seq(|s|, i requires 0 <= i < |s| => Abs(s[i] - m))
  }

  function MedianAbsoluteDeviation(s: seq<real>): real
    requires |s| > 0
  {
    Median(Deviations(s, Median(s)))
  }

  function Mean(s: seq<real>): real
    requires |s| > 0
  {
    Dot(s, Ones(|s|)) / (|s| as real)
  }

  function Centred(s: seq<real>): (r: seq<real>)
    requires |s| > 0
    ensures |r| == |s|
  {
    seq(|s|, i requires 0 <= i < |s| => s[i] - Mean(s))
  }

  /** The sample variance: the square of `np.std(s, ddof=1)`. */
  function Variance(s: seq<real>): real
    requires |s| > 1
  {
    Dot(Centred(s), Centred(s)) / ((|s| - 1) as real)
  }

  lemma DeviationsScale(c: real, s: seq<real>, m: real)
    requires c > 0.0
    ensures Deviations(Scaled(c, s), Times(c, m)) == Scaled(c, Deviations(s, m))
  {
    forall i | 0 <= i < |s|
      ensures Deviations(Scaled(c, s), Times(c, m))[i] == Scaled(c, Deviations(s, m))[i]
    {
      AbsScales(c, s[i], m);
    }
  }

  lemma AbsScales(c: real, a: real, b: real)
    requires c > 0.0
    ensures Abs(Times(c, a) - Times(c, b)) == Times(c, Abs(a - b))
  {
    ScaleOrder(c, a, b);
    assert Times(c, a - b) == Times(c, a) - Times(c, b);
    assert Times(c, b - a) == Times(c, b) - Times(c, a);
  }

  lemma MadScales(c: real, s: seq<real>)
    requires c > 0.0 && |s| > 0
    ensures MedianAbsoluteDeviation(Scaled(c, s)) == Times(c, MedianAbsoluteDeviation(s))
  {
    hide Times;
    hide Median;
    MedianScales(c, s);
    DeviationsScale(c, s, Median(s));
    MedianScales(c, Deviations(s, Median(s)));
  }

  lemma MeanScales(c: real, s: seq<real>)
    requires |s| > 0
    ensures Mean(Scaled(c, s)) == c * Mean(s)
  {
    hide Dot;
    var one, zero := Ones(|s|), Scaled(0.0, Ones(|s|));
    forall i | 0 <= i < |s|
      ensures Scaled(c, s)[i] == Axpy(zero, c, s)[i]
    {
    }
    assert Scaled(c, s) == Axpy(zero, c, s);
    DotAxpy(zero, c, s, one);
    DotZero(zero, one);
    var total, n := Dot(s, one), |s| as real;
    assert (c * total) / n == c * (total / n);
  }

  lemma VarianceScales(c: real, s: seq<real>)
    requires |s| > 1
    ensures Variance(Scaled(c, s)) == Square(c) * Variance(s)
  {
    hide Dot;
    MeanScales(c, s);
    forall i | 0 <= i < |s|
      ensures Centred(Scaled(c, s))[i] == Scaled(c, Centred(s))[i]
    {
      assert c * (s[i] - Mean(s)) == c * s[i] - c * Mean(s);
    }
    assert Centred(Scaled(c, s)) == Scaled(c, Centred(s));
    DotScaled(c, Centred(s));
    var total, n := Dot(Centred(s), Centred(s)), (|s| - 1) as real;
    assert (Square(c) * total) / n == Square(c) * (total / n);
  }

  // ----- sums -------------------------------------------------------------------

  function Sum(s: seq<real>): real {
    if |s| == 0 then 0.0 else Sum(s[..|s| - 1]) + s[|s| - 1]
  }

  function Squares(s: seq<real>, m: real): (r: seq<real>)
    ensures |r| == |s|
  {
    seq(|s|, i requires 0 <= i < |s| => Square(s[i] - m))
  }

  lemma {:induction false} DotIsSum(s: seq<real>)
    ensures Dot(s, Ones(|s|)) == Sum(s)
  {
    if |s| != 0 {
      var n := |s| - 1;
      assert Ones(|s|)[..n] == Ones(n);
      DotIsSum(s[..n]);
    }
  }

  lemma {:induction false} DotIsSumOfSquares(c: seq<real>, s: seq<real>, m: real)
    requires |c| == |s| && forall i :: 0 <= i < |s| ==> c[i] == s[i] - m
    ensures Dot(c, c) == Sum(Squares(s, m))
  {
    if |s| != 0 {
      var n := |s| - 1;
      DotIsSumOfSquares(c[..n], s[..n], m);
      assert Squares(s, m)[..n] == Squares(s[..n], m);
    }
  }

  lemma MeanIs(s: seq<real>)
    requires |s| > 0
    ensures (|s| as real) * Mean(s) == Sum(s)
  {
    hide Dot;
    hide Sum;
    DotIsSum(s);
    DividedBack(Dot(s, Ones(|s|)), |s| as real);
  }

  lemma VarianceIs(s: seq<real>)
    requires |s| > 1
    ensures ((|s| - 1) as real) * Variance(s) == Sum(Squares(s, Mean(s)))
  {
    hide Dot;
    hide Sum;
    hide Squares;
    hide Mean;
    DotIsSumOfSquares(Centred(s), s, Mean(s));
    hide Centred;
    DividedBack(Dot(Centred(s), Centred(s)), (|s| - 1) as real);
  }

  /** n times the mean is the sum; n - 1 times the variance is the sum of squared distances from the mean. */
  lemma MeanAndVarianceAre(s: seq<real>)
    requires |s| > 0
    ensures (|s| as real) * Mean(s) == Sum(s)
    ensures |s| > 1 ==> ((|s| - 1) as real) * Variance(s) == Sum(Squares(s, Mean(s)))
  {
    hide *;
    MeanIs(s);
    if |s| > 1 {
      VarianceIs(s);
    }
  }

  lemma DividedBack(total: real, n: real)
    requires n != 0.0
    ensures n * (total / n) == total
  {
  }

  lemma VarianceNonNegative(s: seq<real>)
    requires |s| > 1
    ensures Variance(s) >= 0.0
  {
    DotSelf(Centred(s));
  }

  lemma MedianNonNegative(s: seq<real>)
    requires |s| > 0 && forall i :: 0 <= i < |s| ==> s[i] >= 0.0
    ensures Median(s) >= 0.0
  {
    var t := SortBy(s, RealLe);
    MembershipPreserved(s, RealLe);
    forall i | 0 <= i < |t|
      ensures t[i] >= 0.0
    {
      assert t[i] in t;
    }
    hide SortBy;
  }

  lemma MadNonNegative(s: seq<real>)
    requires |s| > 0
    ensures MedianAbsoluteDeviation(s) >= 0.0
  {
    hide Median;
    MedianNonNegative(Deviations(s, Median(s)));
  }
}
