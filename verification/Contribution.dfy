/**
 * Change decomposition: `explain` and `best_explanation` of data/contribution.py
 * and the verdict that services/investigation.py draws from them.
 */
module Contribution {
  import opened Options
  import opened Sorting
  import opened Statistics

  const MAX_SEGMENTS := 8
  const CONCENTRATION_THRESHOLD := 0.5
  const OFFSET_RATIO := 2.0

  datatype Row = Row(segment: string, current: real, previous: real)
  datatype Change = Change(segment: string, current: real, previous: real, delta: real, share: Option<real>)

  datatype Explanation = Explanation(dimension: string, totalDelta: real, grossMovement: real,
                                     concentration: real, segments: seq<Change>)
  {
    predicate Concentrated() {
      concentration > CONCENTRATION_THRESHOLD
    }

    predicate Offsetting() {
      grossMovement > OFFSET_RATIO * Abs(totalDelta)
    }

    function Leader(): Option<Change> {
      if |segments| > 0 then Some(segments[0]) else None
    }

    function Riser(): Option<Change> {
      var gains := Where(segments, (c: Change) => c.delta > 0.0);
      if |gains| > 0 then Some(gains[FirstLeast(gains, (a: Change, b: Change) => a.delta >= b.delta)]) else None
    }

    function Faller(): Option<Change> {
      var losses := Where(segments, (c: Change) => c.delta < 0.0);
      if |losses| > 0 then Some(losses[FirstLeast(losses, (a: Change, b: Change) => a.delta <= b.delta)]) else None
    }
  }

  function Where<T(!new)>(s: seq<T>, keep: T -> bool): (r: seq<T>)
    ensures forall x :: x in r <==> x in s && keep(x)
    ensures |r| <= |s|
  {
    if |s| == 0 then [] else (if keep(s[0]) then [s[0]] else []) + Where(s[1..], keep)
  }

  // ----- explain --------------------------------------------------------------------

  predicate MovesMore(a: Change, b: Change) {
    Abs(a.delta) >= Abs(b.delta)
  }

  function ToChange(row: Row): Change {
    Change(row.segment, row.current, row.previous, row.current - row.previous, None)
  }

  function Changes(rows: seq<Row>): (r: seq<Change>)
    ensures |r| == |rows|
    ensures forall i :: 0 <= i < |rows| ==> r[i] == ToChange(rows[i])
  {
    seq(|rows|, i requires 0 <= i < |rows| => ToChange(rows[i]))
  }

  function Net(changes: seq<Change>): real {
    if |changes| == 0 then 0.0 else Net(changes[..|changes| - 1]) + changes[|changes| - 1].delta
  }

  function Gross(changes: seq<Change>): real {
    if |changes| == 0 then 0.0 else Gross(changes[..|changes| - 1]) + Abs(changes[|changes| - 1].delta)
  }

  function Ranked(rows: seq<Row>): (r: seq<Change>)
    ensures |r| == |rows|
  {
    SortBy(Changes(rows), MovesMore)
  }

  function Concentration(ranked: seq<Change>, gross: real): real {
    if gross != 0.0 && |ranked| > 0 then Abs(ranked[0].delta) / gross else 0.0
  }

  function WithShare(c: Change, total: real): Change {
    c.(share := if total != 0.0 then Some(c.delta / total) else None)
  }

  function Top(ranked: seq<Change>): (k: nat)
    ensures k <= |ranked| && k <= MAX_SEGMENTS
    ensures k == |ranked| || k == MAX_SEGMENTS
  {
    if |ranked| < MAX_SEGMENTS then |ranked| else MAX_SEGMENTS
  }

  function Explained(rows: seq<Row>, dimension: string): Explanation {
    var changes, ranked := Changes(rows), Ranked(rows);
    Explanation(dimension, Net(changes), Gross(changes), Concentration(ranked, Gross(changes)),
                seq(Top(ranked), i requires 0 <= i < Top(ranked) => WithShare(ranked[i], Net(changes))))
  }

  lemma EmptySums()
    ensures Net([]) == 0.0 && Gross([]) == 0.0
  {
  }

  lemma OneChangeMore(rows: seq<Row>, k: nat)
    requires k < |rows|
    ensures var before, after := Changes(rows[..k]), Changes(rows[..k + 1]);
            && after == before + [ToChange(rows[k])]
            && Net(after) == Net(before) + ToChange(rows[k]).delta
            && Gross(after) == Gross(before) + Abs(ToChange(rows[k]).delta)
  {
    var before, after := Changes(rows[..k]), Changes(rows[..k + 1]);
    assert after[..k] == before;
  }

  method Explain(rows: seq<Row>, dimension: string) returns (e: Explanation)
    ensures e == Explained(rows, dimension)
  {
    var changes: seq<Change> := [];
    var totalDelta, grossMovement := 0.0, 0.0;
    hide Abs;
    hide Net;
    hide Gross;
    hide SortBy;
    EmptySums();
    for k := 0 to |rows|
      invariant changes == Changes(rows[..k])
      invariant totalDelta == Net(changes) && grossMovement == Gross(changes)
    {
      var change := Change(rows[k].segment, rows[k].current, rows[k].previous,
                           rows[k].current - rows[k].previous, None);
      OneChangeMore(rows, k);
      changes := changes + [change];
      totalDelta := totalDelta + change.delta;
      grossMovement := grossMovement + Abs(change.delta);
    }
    assert rows[..|rows|] == rows;
    changes := SortBy(changes, MovesMore);
    var concentration := if grossMovement != 0.0 then Abs(changes[0].delta) / grossMovement else 0.0;
    var ranked: seq<Change> := [];
    for k := 0 to Top(changes)
      invariant |ranked| == k
      invariant forall i :: 0 <= i < k ==> ranked[i] == WithShare(changes[i], totalDelta)
    {
      var share := if totalDelta != 0.0 then Some(changes[k].delta / totalDelta) else None;
      ranked := ranked + [changes[k].(share := share)];
    }
    e := Explanation(dimension, totalDelta, grossMovement, concentration, ranked);
  }

  // ----- totals do not depend on the order of the rows ----------------------------------

  lemma {:induction false} RemoveOne(s: seq<Change>, i: nat)
    requires i < |s|
    ensures Net(s) == Net(s[..i] + s[i + 1..]) + s[i].delta
    ensures Gross(s) == Gross(s[..i] + s[i + 1..]) + Abs(s[i].delta)
  {
    hide Abs;
    var n := |s| - 1;
    var shorter := s[..i] + s[i + 1..];
    if i == n {
      assert shorter == s[..n];
    } else {
      RemoveOne(s[..n], i);
      assert shorter[..n - 1] == s[..n][..i] + s[..n][i + 1..];
      assert shorter[n - 1] == s[n];
    }
  }

  lemma Without<T>(t: seq<T>, i: nat)
    requires i < |t|
    ensures multiset(t[..i] + t[i + 1..]) == multiset(t) - multiset{t[i]}
  {
    assert t == t[..i] + [t[i]] + t[i + 1..];
  }

  lemma {:induction false} SumsIgnoreOrder(s: seq<Change>, t: seq<Change>)
    requires multiset(s) == multiset(t)
    ensures Net(s) == Net(t) && Gross(s) == Gross(t)
  {
    if |s| == 0 {
      assert |multiset(t)| == |t|;
    } else {
      var n := |s| - 1;
      assert s == s[..n] + [s[n]];
      assert s[n] in multiset(t);
      var i :| 0 <= i < |t| && t[i] == s[n];
      Without(t, i);
      assert multiset(t[..i] + t[i + 1..]) == multiset(s[..n]);
      SumsIgnoreOrder(s[..n], t[..i] + t[i + 1..]);
      RemoveOne(t, i);
    }
  }

  lemma MovesMoreIsTotalPreorder()
    ensures TotalPreorder(MovesMore)
  {
  }

  /** No segment moves more than the first of the ranking. */
  lemma LeaderMovesMost(rows: seq<Row>)
    ensures forall i :: 0 <= i < |rows| ==> Abs(Ranked(rows)[0].delta) >= Abs(rows[i].current - rows[i].previous)
  {
    MovesMoreIsTotalPreorder();
    SortByIsSorted(Changes(rows), MovesMore);
    MembershipPreserved(Changes(rows), MovesMore);
    var ranked := Ranked(rows);
    forall i | 0 <= i < |rows|
      ensures Abs(ranked[0].delta) >= Abs(rows[i].current - rows[i].previous)
    {
      assert Changes(rows)[i] in ranked;
      var k :| 0 <= k < |ranked| && ranked[k] == Changes(rows)[i];
      assert k == 0 || MovesMore(ranked[0], ranked[k]);
    }
  }

  /** Total, gross and concentration do not depend on the order of the rows. */
  lemma StatisticsIgnoreRowOrder(rows: seq<Row>, other: seq<Row>, dimension: string)
    requires multiset(rows) == multiset(other)
    ensures var e, f := Explained(rows, dimension), Explained(other, dimension);
            && e.totalDelta == f.totalDelta
            && e.grossMovement == f.grossMovement
            && e.concentration == f.concentration
  {
    ChangesFollowMultiset(rows, other);
    SumsIgnoreOrder(Changes(rows), Changes(other));
    assert |rows| == |multiset(rows)| == |other|;
    if |rows| > 0 {
      SameLargestMove(rows, other);
      SameLargestMove(other, rows);
    }
  }

  lemma SameLargestMove(rows: seq<Row>, other: seq<Row>)
    requires |rows| > 0 && |other| > 0 && multiset(rows) == multiset(other)
    ensures Abs(Ranked(rows)[0].delta) <= Abs(Ranked(other)[0].delta)
  {
    MembershipPreserved(Changes(rows), MovesMore);
    assert Ranked(rows)[0] in Changes(rows);
    var i :| 0 <= i < |rows| && Changes(rows)[i] == Ranked(rows)[0];
    assert rows[i] in multiset(other);
    var j :| 0 <= j < |other| && other[j] == rows[i];
    LeaderMovesMost(other);
  }

  lemma ChangesWithout(rows: seq<Row>, i: nat)
    requires i < |rows|
    ensures Changes(rows[..i] + rows[i + 1..]) == Changes(rows)[..i] + Changes(rows)[i + 1..]
  {
  }

  lemma AddBack<T>(a: multiset<T>, b: multiset<T>, x: T)
    requires x in a && x in b && a - multiset{x} == b - multiset{x}
    ensures a == b
  {
    assert a == (a - multiset{x}) + multiset{x};
    assert b == (b - multiset{x}) + multiset{x};
  }

  lemma ChangesDrop(rows: seq<Row>, i: nat)
    requires i < |rows|
    ensures multiset(Changes(rows[..i] + rows[i + 1..])) == multiset(Changes(rows)) - multiset{ToChange(rows[i])}
    ensures ToChange(rows[i]) in multiset(Changes(rows))
  {
    ChangesWithout(rows, i);
    Without(Changes(rows), i);
    assert Changes(rows)[i] in Changes(rows);
  }

  lemma {:induction false} ChangesFollowMultiset(rows: seq<Row>, other: seq<Row>)
    requires multiset(rows) == multiset(other)
    ensures multiset(Changes(rows)) == multiset(Changes(other))
  {
    hide Changes;
    assert |rows| == |multiset(rows)| == |other|;
    if |rows| == 0 {
      assert rows == other;
    } else {
      var i := SameRowIn(rows, other);
      var a, b := rows[..0] + rows[1..], other[..i] + other[i + 1..];
      ChangesFollowMultiset(a, b);
      ChangesDrop(rows, 0);
      ChangesDrop(other, i);
      AddBack(multiset(Changes(rows)), multiset(Changes(other)), ToChange(rows[0]));
    }
  }

  lemma SameRowIn(rows: seq<Row>, other: seq<Row>) returns (i: nat)
    requires |rows| > 0 && multiset(rows) == multiset(other)
    ensures i < |other| && other[i] == rows[0]
    ensures multiset(rows[..0] + rows[1..]) == multiset(other[..i] + other[i + 1..])
  {
    assert rows[0] in multiset(other);
    i :| 0 <= i < |other| && other[i] == rows[0];
    Without(rows, 0);
    Without(other, i);
  }

  // ----- what a concentrated dimension means -----------------------------------------------

  lemma {:induction false} GrossBoundsNet(s: seq<Change>)
    ensures Gross(s) >= 0.0 && Abs(Net(s)) <= Gross(s)
    ensures forall i :: 0 <= i < |s| ==> Abs(s[i].delta) <= Gross(s)
  {
    if |s| > 0 {
      var n := |s| - 1;
      GrossBoundsNet(s[..n]);
      forall i | 0 <= i < |s|
        ensures Abs(s[i].delta) <= Gross(s)
      {
        assert i < n ==> s[..n][i] == s[i];
      }
    }
  }

  /** |net| <= gross, and concentration is a share. */
  lemma BasicBounds(rows: seq<Row>, dimension: string)
    ensures var e := Explained(rows, dimension);
            && Abs(e.totalDelta) <= e.grossMovement
            && 0.0 <= e.concentration <= 1.0
            && (e.grossMovement > 0.0 <==> e.concentration > 0.0)
  {
    var e, ranked := Explained(rows, dimension), Ranked(rows);
    GrossBoundsNet(Changes(rows));
    if |rows| > 0 {
      MembershipPreserved(Changes(rows), MovesMore);
      assert ranked[0] in Changes(rows);
      LeaderMovesMost(rows);
      if e.grossMovement > 0.0 {
        if Abs(ranked[0].delta) == 0.0 {
          StillMeansNoGross(Changes(rows));
        }
        ShareOf(Abs(ranked[0].delta), e.grossMovement);
      }
    }
  }

  lemma {:induction false} StillMeansNoGross(s: seq<Change>)
    requires forall i :: 0 <= i < |s| ==> s[i].delta == 0.0
    ensures Gross(s) == 0.0
  {
    if |s| > 0 {
      StillMeansNoGross(s[..|s| - 1]);
    }
  }

  lemma ShareOf(part: real, whole: real)
    requires 0.0 < part <= whole
    ensures 0.0 < part / whole <= 1.0
  {
  }

  lemma ShareComparison(part: real, smaller: real, larger: real)
    requires part >= 0.0 && 0.0 < smaller <= larger
    ensures part / larger <= part / smaller
  {
    assert part / smaller * smaller == part;
    assert part / larger * larger == part;
    var q := part / larger;
    assert q >= 0.0;
    assert q * smaller <= q * larger;
    TimesOrder(smaller, q, part / smaller);
  }

  /**
   * If a dimension is concentrated, its leader moved strictly more than all the
   * other segments together, the net change has the leader's sign, and the
   * leader's share of it is defined and at least the concentration.
   */
  lemma ConcentratedHasACause(rows: seq<Row>, dimension: string)
    requires Explained(rows, dimension).Concentrated()
    ensures var e := Explained(rows, dimension);
            && e.Leader().Some?
            && var leader := e.Leader().value;
               && Abs(leader.delta) > e.grossMovement - Abs(leader.delta)
               && (leader.delta > 0.0 ==> e.totalDelta > 0.0)
               && (leader.delta < 0.0 ==> e.totalDelta < 0.0)
               && e.totalDelta != 0.0
               && leader.share.Some? && leader.share.value >= e.concentration
  {
    var e, ranked := Explained(rows, dimension), Ranked(rows);
    var changes := Changes(rows);
    GrossBoundsNet(changes);
    var l := ranked[0];
    var lead := Abs(l.delta);
    assert lead / e.grossMovement * e.grossMovement == lead;
    HalfOf(lead, e.grossMovement);
    assert multiset(ranked) == multiset(changes);
    SumsIgnoreOrder(ranked, changes);
    RemoveOne(ranked, 0);
    var rest := ranked[..0] + ranked[1..];
    GrossBoundsNet(rest);
    assert e.totalDelta == Net(rest) + l.delta;
    assert e.grossMovement == Gross(rest) + lead;
    ShareComparison(lead, Abs(e.totalDelta), e.grossMovement);
    SameSignQuotient(l.delta, e.totalDelta);
  }

  lemma HalfOf(part: real, whole: real)
    requires whole > 0.0 && part / whole > 0.5
    ensures part > whole - part
  {
    TimesOrder(whole, part / whole, 0.5);
    assert part / whole * whole == part;
  }

  lemma SameSignQuotient(a: real, b: real)
    requires (a > 0.0 && b > 0.0) || (a < 0.0 && b < 0.0)
    ensures a / b == Abs(a) / Abs(b)
  {
    var q := a / b;
    assert q * b == a;
    if a < 0.0 {
      assert q * (-b) == -a;
    }
  }

  // ----- an explanation on its rows ---------------------------------------------------------------

  /** A quantity added up over the rows. */
  function Over(rows: seq<Row>, amount: Row -> real): real {
    Sum(seq(|rows|, i requires 0 <= i < |rows| => amount(rows[i])))
  }

  lemma OverOneMore(rows: seq<Row>, amount: Row -> real)
    ensures |rows| == 0 ==> Over(rows, amount) == 0.0
    ensures |rows| != 0 ==>
              Over(rows, amount) == Over(rows[..|rows| - 1], amount) + amount(rows[|rows| - 1])
  {
    if |rows| != 0 {
      var n := |rows| - 1;
      var all := seq(|rows|, i requires 0 <= i < |rows| => amount(rows[i]));
      assert all[..n] == seq(n, i requires 0 <= i < n => amount(rows[..n][i]));
    }
  }

  lemma {:induction false} SumsOverRows(rows: seq<Row>)
    ensures Net(Changes(rows)) == Over(rows, (r: Row) => r.current) - Over(rows, (r: Row) => r.previous)
    ensures Gross(Changes(rows)) == Over(rows, (r: Row) => Abs(r.current - r.previous))
    ensures Over(rows, (r: Row) => Rise(r)) >= 0.0 && Over(rows, (r: Row) => Rise(Turned(r))) >= 0.0
    ensures Net(Changes(rows)) == Over(rows, (r: Row) => Rise(r)) - Over(rows, (r: Row) => Rise(Turned(r)))
    ensures Gross(Changes(rows)) == Over(rows, (r: Row) => Rise(r)) + Over(rows, (r: Row) => Rise(Turned(r)))
  {
    OverOneMore(rows, (r: Row) => r.current);
    OverOneMore(rows, (r: Row) => r.previous);
    OverOneMore(rows, (r: Row) => Abs(r.current - r.previous));
    OverOneMore(rows, (r: Row) => Rise(r));
    OverOneMore(rows, (r: Row) => Rise(Turned(r)));
    hide Over;
    if |rows| != 0 {
      var n := |rows| - 1;
      assert Changes(rows)[..n] == Changes(rows[..n]);
      SumsOverRows(rows[..n]);
    }
  }

  /** How far a segment rose, if it did; turned round, how far it fell. */
  function Rise(r: Row): real {
    if r.current > r.previous then r.current - r.previous else 0.0
  }

  function Turned(r: Row): Row {
    Row(r.segment, r.previous, r.current)
  }

  /** A listed segment is its row, with its change and its share of the net change, if there is one. */
  ghost predicate ListsRow(c: Change, row: Row, net: real) {
    && c.segment == row.segment && c.current == row.current && c.previous == row.previous
    && c.delta == row.current - row.previous
    && if net == 0.0 then c.share.None? else c.share.Some? && c.share.value * net == c.delta
  }

  /** It lists the row that exactly k others outrank. */
  ghost predicate ListsRank(c: Change, rows: seq<Row>, k: nat, net: real) {
    exists i :: 0 <= i < |rows| && Outranking(rows, i, |rows|) == k && ListsRow(c, rows[i], net)
  }

  /**
   * What an explanation holds: the net and the gross change over all rows, and the
   * rows of the eight highest ranks, in that order.
   */
  lemma ExplanationIs(rows: seq<Row>, dimension: string)
    ensures var e := Explained(rows, dimension);
            && e.dimension == dimension
            && e.totalDelta == Over(rows, (r: Row) => r.current) - Over(rows, (r: Row) => r.previous)
            && e.grossMovement == Over(rows, (r: Row) => Abs(r.current - r.previous))
            && |e.segments| == (if |rows| < 8 then |rows| else 8)
            && forall k :: 0 <= k < |e.segments| ==> ListsRank(e.segments[k], rows, k, e.totalDelta)
  {
    hide Over;
    hide Net;
    hide Gross;
    hide Ranked;
    hide Abs;
    hide ListsRank;
    hide Changes;
    hide Concentration;
    SumsOverRows(rows);
    forall k | 0 <= k < |Explained(rows, dimension).segments|
      ensures var e := Explained(rows, dimension); ListsRank(e.segments[k], rows, k, e.totalDelta)
    {
      SegmentRow(rows, dimension, k);
    }
  }

  lemma SegmentRow(rows: seq<Row>, dimension: string, k: nat)
    requires k < |Explained(rows, dimension).segments|
    ensures var e := Explained(rows, dimension); ListsRank(e.segments[k], rows, k, e.totalDelta)
  {
    hide Net;
    hide Gross;
    hide Outranking;
    hide Ranked;
    var i := RankedRow(rows, k);
    ShareIs(ToChange(rows[i]).delta, Explained(rows, dimension).totalDelta);
  }

  lemma ShareIs(part: real, whole: real)
    ensures whole != 0.0 ==> part / whole * whole == part
  {
  }

  lemma RankedRow(rows: seq<Row>, k: nat) returns (i: nat)
    requires k < |rows|
    ensures i < |rows| && Outranking(rows, i, |rows|) == k && Ranked(rows)[k] == ToChange(rows[i])
  {
    MovesMoreIsTotalPreorder();
    i := RankIsOnto(Changes(rows), MovesMore, k);
    OutrankingIsRank(rows, i, |rows|);
    RankPlaces(Changes(rows), MovesMore, i);
  }

  /** Concentration is the share of the gross change that the segment that moved most made up. */
  lemma ConcentrationIs(rows: seq<Row>, dimension: string)
    ensures var e := Explained(rows, dimension);
            if e.grossMovement == 0.0 then e.concentration == 0.0
            else exists i :: 0 <= i < |rows| && e.concentration * e.grossMovement == Abs(Delta(rows[i]))
                          && forall j :: 0 <= j < |rows| ==> Abs(Delta(rows[j])) <= Abs(Delta(rows[i]))
  {
    if Explained(rows, dimension).grossMovement != 0.0 {
      var i := LeadingRow(rows, dimension);
    } else {
      hide Gross;
      hide Ranked;
    }
  }

  lemma LeadingRow(rows: seq<Row>, dimension: string) returns (i: nat)
    requires Explained(rows, dimension).grossMovement != 0.0
    ensures i < |rows| && forall j :: 0 <= j < |rows| ==> Abs(Delta(rows[j])) <= Abs(Delta(rows[i]))
    ensures var e := Explained(rows, dimension); e.concentration * e.grossMovement == Abs(Delta(rows[i]))
  {
    ConcentrationOf(rows, dimension);
    hide *;
    i := RankedRow(rows, 0);
    LeaderMovesMost(rows);
    DeltaIs(rows[i]);
    forall j | 0 <= j < |rows|
      ensures Abs(Delta(rows[j])) <= Abs(Delta(rows[i]))
    {
      DeltaIs(rows[j]);
    }
  }

  lemma DeltaIs(row: Row)
    ensures Delta(row) == row.current - row.previous == ToChange(row).delta
  {
  }

  lemma ConcentrationOf(rows: seq<Row>, dimension: string)
    requires Explained(rows, dimension).grossMovement != 0.0
    ensures |rows| > 0
    ensures var e := Explained(rows, dimension); e.concentration * e.grossMovement == Abs(Ranked(rows)[0].delta)
  {
    hide Ranked;
    hide Abs;
    hide Net;
    EmptySums();
    assert |rows| == 0 ==> Changes(rows) == [];
    hide Gross;
    ConcentrationTimes(Ranked(rows), Gross(Changes(rows)));
    hide Concentration;
  }

  lemma ConcentrationTimes(ranked: seq<Change>, gross: real)
    requires gross != 0.0 && |ranked| > 0
    ensures Concentration(ranked, gross) * gross == Abs(ranked[0].delta)
  {
    ShareIs(Abs(ranked[0].delta), gross);
    hide Abs;
  }

  /** A dimension is concentrated exactly when one segment moved more than all the others together. */
  lemma ConcentratedExactlyWhen(rows: seq<Row>, dimension: string)
    ensures var e := Explained(rows, dimension);
            e.Concentrated() <==> exists i :: 0 <= i < |rows| && 2.0 * Abs(Delta(rows[i])) > e.grossMovement
  {
    hide *;
    var e := Explained(rows, dimension);
    ConcentratedMeans(e);
    if e.grossMovement != 0.0 {
      var i := LeadingRow(rows, dimension);
      GrossIsNonNegative(rows, dimension);
      OverHalf(e.concentration, e.grossMovement, Abs(Delta(rows[i])));
    } else {
      NothingMoved(rows, dimension);
      BasicBounds(rows, dimension);
    }
  }

  lemma ConcentratedMeans(e: Explanation)
    ensures e.Concentrated() <==> e.concentration > 0.5
  {
  }

  lemma GrossIsNonNegative(rows: seq<Row>, dimension: string)
    ensures Explained(rows, dimension).grossMovement >= 0.0
  {
    GrossBoundsNet(Changes(rows));
    hide Gross;
  }

  lemma OverHalf(c: real, g: real, lead: real)
    requires g > 0.0 && c * g == lead
    ensures c > 0.5 <==> 2.0 * lead > g
  {
    TimesOrder(g, c, 0.5);
    TimesOrder(g, 0.5, c);
  }

  lemma NothingMoved(rows: seq<Row>, dimension: string)
    requires Explained(rows, dimension).grossMovement == 0.0
    ensures forall i :: 0 <= i < |rows| ==> Abs(Delta(rows[i])) <= 0.0
  {
    GrossBoundsNet(Changes(rows));
    forall i | 0 <= i < |rows|
      ensures Abs(Delta(rows[i])) <= 0.0
    {
      assert Changes(rows)[i].delta == Delta(rows[i]);
    }
  }

  /** Segments cancel out exactly when the smaller of what rose and what fell is over a third of the larger. */
  lemma OffsettingExactlyWhen(rows: seq<Row>, dimension: string)
    ensures var rose, fell := Over(rows, (r: Row) => Rise(r)), Over(rows, (r: Row) => Rise(Turned(r)));
            Explained(rows, dimension).Offsetting() <==> 3.0 * rose > fell && 3.0 * fell > rose
  {
    SumsOverRows(rows);
    hide Over;
    hide Net;
    hide Gross;
    hide Ranked;
  }

  // ----- riser and faller under the eight-segment cut -------------------------------------------

  function Delta(r: Row): real {
    r.current - r.previous
  }

  /** Every segment outside the cut moved no more than any segment inside it. */
  lemma CutKeepsTheLargest(rows: seq<Row>, dimension: string, c: Change, i: nat)
    requires c in Explained(rows, dimension).segments && i < |rows|
    ensures Abs(Delta(rows[i])) <= Abs(c.delta)
         || exists d :: d in Explained(rows, dimension).segments && d.delta == Delta(rows[i])
  {
    var e, ranked := Explained(rows, dimension), Ranked(rows);
    MovesMoreIsTotalPreorder();
    SortByIsSorted(Changes(rows), MovesMore);
    MembershipPreserved(Changes(rows), MovesMore);
    assert Changes(rows)[i] in ranked;
    var k :| 0 <= k < |ranked| && ranked[k] == Changes(rows)[i];
    var j :| 0 <= j < |e.segments| && e.segments[j] == c;
    if k < Top(ranked) {
      assert e.segments[k] in e.segments && e.segments[k].delta == Delta(rows[i]);
    } else {
      assert MovesMore(ranked[j], ranked[k]);
    }
  }

  lemma OrdersOnDelta()
    ensures TotalPreorder((a: Change, b: Change) => a.delta >= b.delta)
    ensures TotalPreorder((a: Change, b: Change) => a.delta <= b.delta)
  {
  }

  /** A reported riser is the largest increase over all segments, listed or not. */
  lemma RiserIsLargestIncrease(rows: seq<Row>, dimension: string)
    requires Explained(rows, dimension).Riser().Some?
    ensures var r := Explained(rows, dimension).Riser().value;
            && r in Explained(rows, dimension).segments && r.delta > 0.0
            && forall i :: 0 <= i < |rows| ==> Delta(rows[i]) <= r.delta
  {
    var e := Explained(rows, dimension);
    var gains := Where(e.segments, (c: Change) => c.delta > 0.0);
    var r := e.Riser().value;
    OrdersOnDelta();
    FirstLeastIsFirst(gains, (a: Change, b: Change) => a.delta >= b.delta);
    assert r in gains;
    forall i | 0 <= i < |rows|
      ensures Delta(rows[i]) <= r.delta
    {
      CutKeepsTheLargest(rows, dimension, r, i);
      if d :| d in e.segments && d.delta == Delta(rows[i]) && d.delta > 0.0 {
        assert d in gains;
        var k :| 0 <= k < |gains| && gains[k] == d;
      }
    }
  }

  /** A reported faller is the largest decrease over all segments. */
  lemma FallerIsLargestDecrease(rows: seq<Row>, dimension: string)
    requires Explained(rows, dimension).Faller().Some?
    ensures var f := Explained(rows, dimension).Faller().value;
            && f in Explained(rows, dimension).segments && f.delta < 0.0
            && forall i :: 0 <= i < |rows| ==> Delta(rows[i]) >= f.delta
  {
    var e := Explained(rows, dimension);
    var losses := Where(e.segments, (c: Change) => c.delta < 0.0);
    var f := e.Faller().value;
    OrdersOnDelta();
    FirstLeastIsFirst(losses, (a: Change, b: Change) => a.delta <= b.delta);
    assert f in losses;
    forall i | 0 <= i < |rows|
      ensures Delta(rows[i]) >= f.delta
    {
      CutKeepsTheLargest(rows, dimension, f, i);
      if d :| d in e.segments && d.delta == Delta(rows[i]) && d.delta < 0.0 {
        assert d in losses;
        var k :| 0 <= k < |losses| && losses[k] == d;
      }
    }
  }

  /** How many of the first k rows moved more than row i, or as much and come earlier. */
  function Outranking(rows: seq<Row>, i: nat, k: nat): (n: nat)
    requires i < |rows| && k <= |rows|
    ensures n <= k
  {
    if k == 0 then 0
    else
      Outranking(rows, i, k - 1)
      + if Abs(Delta(rows[k - 1])) > Abs(Delta(rows[i]))
           || (Abs(Delta(rows[k - 1])) == Abs(Delta(rows[i])) && k - 1 < i) then 1 else 0
  }

  /** Fewer than eight rows outrank it. */
  predicate MakesTheCut(rows: seq<Row>, i: nat)
    requires i < |rows|
  {
    Outranking(rows, i, |rows|) < MAX_SEGMENTS
  }

  lemma {:induction false} OutrankingIsRank(rows: seq<Row>, i: nat, k: nat)
    requires i < |rows| && k <= |rows|
    ensures Outranking(rows, i, k) == CountAhead(Changes(rows), MovesMore, i, k)
  {
    if k != 0 {
      OutrankingIsRank(rows, i, k - 1);
    }
  }

  lemma RowAtItsRank(rows: seq<Row>, i: nat)
    requires i < |rows|
    ensures var r := Outranking(rows, i, |rows|);
            r < |rows| && Ranked(rows)[r].delta == Delta(rows[i])
  {
    MovesMoreIsTotalPreorder();
    OutrankingIsRank(rows, i, |rows|);
    RankPlaces(Changes(rows), MovesMore, i);
  }

  lemma RowOfRank(rows: seq<Row>, k: nat) returns (i: nat)
    requires k < |rows|
    ensures i < |rows| && Outranking(rows, i, |rows|) == k && Ranked(rows)[k].delta == Delta(rows[i])
  {
    MovesMoreIsTotalPreorder();
    i := RankIsOnto(Changes(rows), MovesMore, k);
    OutrankingIsRank(rows, i, |rows|);
    RowAtItsRank(rows, i);
  }

  /** A riser is reported exactly when some row rose and fewer than eight rows outrank it. */
  lemma RiserReportedExactlyWhen(rows: seq<Row>, dimension: string)
    ensures Explained(rows, dimension).Riser().Some?
       <==> exists i :: 0 <= i < |rows| && Delta(rows[i]) > 0.0 && MakesTheCut(rows, i)
  {
    hide Explained;
    hide Explanation.Riser;
    hide Ranked;
    hide Outranking;
    RiserIsRanked(rows, dimension);
    if i :| 0 <= i < |rows| && Delta(rows[i]) > 0.0 && MakesTheCut(rows, i) {
      RowAtItsRank(rows, i);
      assert Outranking(rows, i, |rows|) < Top(Ranked(rows));
    }
    if k :| 0 <= k < Top(Ranked(rows)) && Ranked(rows)[k].delta > 0.0 {
      var i := RowOfRank(rows, k);
      assert MakesTheCut(rows, i);
    }
  }

  /** A faller is reported exactly when some row fell and fewer than eight rows outrank it. */
  lemma FallerReportedExactlyWhen(rows: seq<Row>, dimension: string)
    ensures Explained(rows, dimension).Faller().Some?
       <==> exists i :: 0 <= i < |rows| && Delta(rows[i]) < 0.0 && MakesTheCut(rows, i)
  {
    hide Explained;
    hide Explanation.Faller;
    hide Ranked;
    hide Outranking;
    FallerIsRanked(rows, dimension);
    if i :| 0 <= i < |rows| && Delta(rows[i]) < 0.0 && MakesTheCut(rows, i) {
      RowAtItsRank(rows, i);
      assert Outranking(rows, i, |rows|) < Top(Ranked(rows));
    }
    if k :| 0 <= k < Top(Ranked(rows)) && Ranked(rows)[k].delta < 0.0 {
      var i := RowOfRank(rows, k);
      assert MakesTheCut(rows, i);
    }
  }

  lemma RiserIsRanked(rows: seq<Row>, dimension: string)
    ensures Explained(rows, dimension).Riser().Some?
       <==> exists k :: 0 <= k < Top(Ranked(rows)) && Ranked(rows)[k].delta > 0.0
  {
    var e, ranked := Explained(rows, dimension), Ranked(rows);
    var gains := Where(e.segments, (c: Change) => c.delta > 0.0);
    if e.Riser().Some? {
      assert gains[0] in gains;
      var k :| 0 <= k < |e.segments| && e.segments[k] == gains[0];
      assert ranked[k].delta > 0.0;
    }
    if k :| 0 <= k < Top(ranked) && ranked[k].delta > 0.0 {
      assert e.segments[k] in e.segments;
      assert e.segments[k] in gains;
    }
  }

  /** Eight segments that moved by `most`, then one that moved by `least`. */
  function EightThenOne(most: real, least: real): (rows: seq<Row>)
    ensures |rows| == 9
    ensures forall i :: 0 <= i < 9 ==>
              rows[i].segment == ['a' + i as char] && Delta(rows[i]) == if i < 8 then most else least
  {
    seq(9, i requires 0 <= i < 9 => Row(['a' + i as char], 10.0 + if i < 8 then most else least, 10.0))
  }

  lemma EightGoFirst(most: real, least: real)
    requires Abs(most) >= Abs(least)
    ensures var rows := EightThenOne(most, least);
            && (forall i, j :: 0 <= i < j < |rows| ==> rows[i].segment != rows[j].segment)
            && (forall k :: 0 <= k < 8 ==> Ranked(rows)[k].delta == most)
  {
    hide EightThenOne;
    var rows := EightThenOne(most, least);
    assert forall i :: 0 <= i < 9 ==> Changes(rows)[i].delta == Delta(rows[i]);
    assert SortedBy(Changes(rows), MovesMore) by {
      hide Abs;
    }
    forall i, j | 0 <= i < j < |rows|
      ensures rows[i].segment != rows[j].segment
    {
      assert rows[i].segment[0] == 'a' + i as char && rows[j].segment[0] == 'a' + j as char;
    }
    SortedIsUnchanged(Changes(rows), MovesMore);
  }

  /**
   * "None if nothing rose" is not what the cut gives: after eight larger falls
   * a segment that did rise goes unreported.
   */
  lemma RiserCanBeMissed(dimension: string)
    ensures var rows := EightThenOne(-2.0, 1.0);
            && (forall i, j :: 0 <= i < j < |rows| ==> rows[i].segment != rows[j].segment)
            && Explained(rows, dimension).Riser().None?
            && Delta(rows[8]) > 0.0
  {
    hide Explained;
    hide Explanation.Riser;
    hide Ranked;
    hide EightThenOne;
    EightGoFirst(-2.0, 1.0);
    RiserIsRanked(EightThenOne(-2.0, 1.0), dimension);
  }

  /** And the other way round: after eight larger rises a segment that fell. */
  lemma FallerCanBeMissed(dimension: string)
    ensures var rows := EightThenOne(2.0, -1.0);
            && (forall i, j :: 0 <= i < j < |rows| ==> rows[i].segment != rows[j].segment)
            && Explained(rows, dimension).Faller().None?
            && Delta(rows[8]) < 0.0
  {
    hide Explained;
    hide Explanation.Faller;
    hide Ranked;
    hide EightThenOne;
    EightGoFirst(2.0, -1.0);
    FallerIsRanked(EightThenOne(2.0, -1.0), dimension);
  }

  /** With at most eight segments the documented reading is right. */
  lemma RiserMeansNothingRose(rows: seq<Row>, dimension: string)
    requires |rows| <= MAX_SEGMENTS
    ensures Explained(rows, dimension).Riser().None? <==> forall i :: 0 <= i < |rows| ==> Delta(rows[i]) <= 0.0
  {
    hide Explained;
    hide Explanation.Riser;
    var ranked := Ranked(rows);
    RiserIsRanked(rows, dimension);
    MembershipPreserved(Changes(rows), MovesMore);
    if i :| 0 <= i < |rows| && Delta(rows[i]) > 0.0 {
      assert Changes(rows)[i] in ranked;
      var k :| 0 <= k < |ranked| && ranked[k] == Changes(rows)[i];
      assert ranked[k].delta > 0.0;
    }
    if k :| 0 <= k < Top(ranked) && ranked[k].delta > 0.0 {
      assert ranked[k] in Changes(rows);
      var i :| 0 <= i < |rows| && Changes(rows)[i] == ranked[k];
      assert Delta(rows[i]) > 0.0;
    }
  }

  lemma FallerIsRanked(rows: seq<Row>, dimension: string)
    ensures Explained(rows, dimension).Faller().Some?
       <==> exists k :: 0 <= k < Top(Ranked(rows)) && Ranked(rows)[k].delta < 0.0
  {
    var e, ranked := Explained(rows, dimension), Ranked(rows);
    var losses := Where(e.segments, (c: Change) => c.delta < 0.0);
    if e.Faller().Some? {
      assert losses[0] in losses;
      var k :| 0 <= k < |e.segments| && e.segments[k] == losses[0];
      assert ranked[k].delta < 0.0;
    }
    if k :| 0 <= k < Top(ranked) && ranked[k].delta < 0.0 {
      assert e.segments[k] in e.segments;
      assert e.segments[k] in losses;
    }
  }

  // ----- which dimension is quoted ---------------------------------------------------------------

  predicate Sharper(a: Explanation, b: Explanation) {
    a.concentration >= b.concentration
  }

  function Moving(explanations: seq<Explanation>): seq<Explanation> {
    Where(explanations, (e: Explanation) => e.grossMovement > 0.0)
  }

  /** `best_explanation`: Python's `max` keeps the first of equals. */
  function BestExplanation(explanations: seq<Explanation>): Option<Explanation> {
    var candidates := Moving(explanations);
    if |candidates| == 0 then None else Some(candidates[FirstLeast(candidates, Sharper)])
  }

  /** At i stands the first of the dimensions that moved and are at least as concentrated as every other that did. */
  ghost predicate SharpestAt(s: seq<Explanation>, i: nat) {
    && i < |s| && s[i].grossMovement > 0.0
    && (forall j :: 0 <= j < |s| && s[j].grossMovement > 0.0 ==> s[j].concentration <= s[i].concentration)
    && (forall j :: 0 <= j < i && s[j].grossMovement > 0.0 ==> s[j].concentration < s[i].concentration)
  }

  lemma SharpestOfMore(s: seq<Explanation>, k: nat)
    requires |s| > 0 && SharpestAt(s[1..], k)
    ensures SharpestAt(s, if s[0].grossMovement > 0.0 && s[0].concentration >= s[k + 1].concentration then 0 else k + 1)
  {
    assert forall j :: 1 <= j < |s| ==> s[j] == s[1..][j - 1];
  }

  lemma OnlyFirstMoves(s: seq<Explanation>)
    requires |s| > 0 && s[0].grossMovement > 0.0 && Moving(s[1..]) == []
    ensures SharpestAt(s, 0)
  {
    forall j | 1 <= j < |s|
      ensures s[j].grossMovement <= 0.0
    {
      assert s[1..][j - 1] in s[1..] && s[1..][j - 1] !in Moving(s[1..]);
    }
  }

  lemma MovingStep(s: seq<Explanation>)
    requires |s| > 0
    ensures Moving(s) == if s[0].grossMovement > 0.0 then [s[0]] + Moving(s[1..]) else Moving(s[1..])
  {
  }

  lemma {:induction false} SharpestPlace(s: seq<Explanation>) returns (i: nat)
    requires |Moving(s)| > 0
    ensures SharpestAt(s, i) && Moving(s)[FirstLeast(Moving(s), Sharper)] == s[i]
  {
    var t := s[1..];
    MovingStep(s);
    if |Moving(t)| > 0 {
      var k := SharpestPlace(t);
      SharpestOfMore(s, k);
      hide Moving;
      hide SharpestAt;
      i := if s[0].grossMovement > 0.0 && s[0].concentration >= s[k + 1].concentration then 0 else k + 1;
      if s[0].grossMovement > 0.0 {
        assert Moving(s)[1..] == Moving(t);
      }
    } else {
      OnlyFirstMoves(s);
      hide Moving;
      i := 0;
    }
  }

  /** The dimension quoted is that one, if any moved. */
  lemma BestIsTheSharpest(explanations: seq<Explanation>)
    ensures var best := BestExplanation(explanations);
            && (best.None? <==> forall e :: e in explanations ==> e.grossMovement <= 0.0)
            && (best.Some? ==> exists i: nat :: SharpestAt(explanations, i) && best.value == explanations[i])
  {
    if |Moving(explanations)| > 0 {
      var i := SharpestPlace(explanations);
      hide *;
      assert explanations[i] in explanations && explanations[i].grossMovement > 0.0;
    } else {
      assert forall e :: e in explanations ==> e !in Moving(explanations);
    }
  }

  /** The dimensions are listed by falling concentration. */
  lemma DimensionsAreInOrder(explanations: seq<Explanation>)
    ensures multiset(SortBy(explanations, Sharper)) == multiset(explanations)
    ensures var listed := SortBy(explanations, Sharper);
            forall i, j :: 0 <= i < j < |listed| ==> listed[i].concentration >= listed[j].concentration
  {
    SharperIsTotalPreorder();
    SortByIsSorted(explanations, Sharper);
  }

  datatype Verdict = Verdict(best: Option<Explanation>, dimensions: seq<Explanation>)
  {
    predicate Concentrated() {
      best.Some? && best.value.Concentrated()
    }

    predicate Offsetting() {
      best.Some? && best.value.Offsetting()
    }
  }

  datatype Breakdown = Breakdown(dimension: string, rows: seq<Row>)

  function Explanations(breakdowns: seq<Breakdown>): (r: seq<Explanation>)
    ensures |r| == |breakdowns|
  {
    seq(|breakdowns|, i requires 0 <= i < |breakdowns| =>
      Explained(breakdowns[i].rows, breakdowns[i].dimension))
  }

  method Diagnose(breakdowns: seq<Breakdown>) returns (v: Verdict)
    ensures v.best == BestExplanation(Explanations(breakdowns))
    ensures v.dimensions == SortBy(Explanations(breakdowns), Sharper)
    ensures v.best.Some? ==> |v.dimensions| > 0 && v.dimensions[0] == v.best.value
  {
    var explanations: seq<Explanation> := [];
    for k := 0 to |breakdowns|
      invariant |explanations| == k
      invariant forall i :: 0 <= i < k ==>
                  explanations[i] == Explained(breakdowns[i].rows, breakdowns[i].dimension)
    {
      var e := Explain(breakdowns[k].rows, breakdowns[k].dimension);
      explanations := explanations + [e];
    }
    assert explanations == Explanations(breakdowns);
    HeadIsBest(breakdowns);
    v := Verdict(BestExplanation(explanations), SortBy(explanations, Sharper));
  }

  lemma SharperIsTotalPreorder()
    ensures TotalPreorder(Sharper)
  {
  }

  /** A still dimension has concentration zero, so it never hides a moving one. */
  lemma {:induction false} FirstSharpestMoves(s: seq<Explanation>)
    requires |s| > 0 && |Moving(s)| > 0
    requires forall e :: e in s ==> e.concentration >= 0.0 && (e.grossMovement > 0.0 <==> e.concentration > 0.0)
    ensures Moving(s)[FirstLeast(Moving(s), Sharper)] == s[FirstLeast(s, Sharper)]
  {
    if |s| > 1 {
      var t := s[1..];
      SharperIsTotalPreorder();
      FirstLeastIsFirst(t, Sharper);
      if |Moving(t)| > 0 {
        FirstSharpestMoves(t);
        if s[0].grossMovement > 0.0 {
          assert Moving(s) == [s[0]] + Moving(t);
          assert Moving(s)[1..] == Moving(t);
        } else {
          assert Moving(s) == Moving(t);
          var m := Moving(t)[FirstLeast(Moving(t), Sharper)];
          assert m in Moving(t);
        }
      } else {
        assert Moving(s) == [s[0]];
        assert t[FirstLeast(t, Sharper)].concentration <= 0.0 by {
          var m := t[FirstLeast(t, Sharper)];
          assert m in t && m !in Moving(t);
        }
      }
    }
  }

  /**
   * Whenever any dimension moved, the head of the sorted list is the dimension
   * `best_explanation` picks, ties included: the verdict and the segments quoted
   * first belong together.
   */
  lemma HeadIsBest(breakdowns: seq<Breakdown>)
    ensures var explanations := Explanations(breakdowns);
            BestExplanation(explanations).Some? ==>
              |explanations| > 0 && SortBy(explanations, Sharper)[0] == BestExplanation(explanations).value
  {
    var explanations := Explanations(breakdowns);
    if BestExplanation(explanations).Some? {
      forall e | e in explanations
        ensures e.concentration >= 0.0 && (e.grossMovement > 0.0 <==> e.concentration > 0.0)
      {
        var i :| 0 <= i < |explanations| && explanations[i] == e;
        BasicBounds(breakdowns[i].rows, breakdowns[i].dimension);
      }
      FirstSharpestMoves(explanations);
      SortHead(explanations, Sharper);
    }
  }
}
