/**
 * What services/investigation.py compares: the two periods it picks, and the
 * segment breakdown against the headline totals it quotes beside it
 * (the queries of data/contribution.py).
 */
module Investigation {
  import opened Options
  import opened Contribution

  // ----- the two periods --------------------------------------------------------------------

  datatype Refusal = TooFewPeriods(found: nat) | UnknownPeriod | NoPrecedingPeriod
  datatype Comparison = Comparison(current: int, previous: int)

  /** `SELECT DISTINCT ... ORDER BY 1 DESC`. */
  ghost predicate NewestFirst(periods: seq<int>) {
    forall i, j :: 0 <= i < j < |periods| ==> periods[i] > periods[j]
  }

  /** The latest period of the data before `current`. */
  ghost predicate Precedes(periods: seq<int>, previous: int, current: int) {
    && previous in periods && previous < current
    && forall p :: p in periods && p < current ==> p <= previous
  }

  /** The requested period, or the newest one, against the period before it. */
  method ChoosePeriods(periods: seq<int>, wanted: Option<int>) returns (result: Result<Comparison, Refusal>)
    requires NewestFirst(periods)
    ensures |periods| < 2 <==> result == Err(TooFewPeriods(|periods|))
    ensures |periods| >= 2 && wanted.None? ==>
              result.Ok? && forall p :: p in periods ==> p <= result.value.current
    ensures |periods| >= 2 && wanted.Some? ==>
              && (result == Err(UnknownPeriod) <==> wanted.value !in periods)
              && (result == Err(NoPrecedingPeriod) <==>
                    wanted.value in periods && forall p :: p in periods ==> wanted.value <= p)
              && (result.Ok? ==> result.value.current == wanted.value)
    ensures result.Ok? ==>
              result.value.current in periods && Precedes(periods, result.value.previous, result.value.current)
  {
    if |periods| < 2 {
      return Err(TooFewPeriods(|periods|));
    }
    var index := 0;
    if wanted.Some? {
      while index < |periods| && periods[index] != wanted.value
        invariant index <= |periods|
        invariant forall k :: 0 <= k < index ==> periods[k] != wanted.value
      {
        index := index + 1;
      }
      if index == |periods| {
        return Err(UnknownPeriod);
      }
      if index + 1 >= |periods| {
        return Err(NoPrecedingPeriod);
      }
      assert periods[index + 1] in periods && periods[index + 1] < periods[index];
    }
    return Ok(Comparison(periods[index], periods[index + 1]));
  }

  // ----- the breakdown and the headline --------------------------------------------------------

  /** A cleaned row as the queries see it; counting records is summing ones. */
  datatype Record = Record(segment: Option<string>, period: Option<int>, amount: Option<real>)

  function ValueIn(r: Record, p: int): real {
    if r.period == Some(p) && r.amount.Some? then r.amount.value else 0.0
  }

  function Kept(r: Record, keep: Record -> bool, p: int): real {
    if keep(r) then ValueIn(r, p) else 0.0
  }

  /** `COALESCE(sum(...) FILTER (WHERE period = p), 0)` over the records a test keeps. */
  function Total(records: seq<Record>, keep: Record -> bool, p: int): real {
    if |records| == 0 then 0.0
    else
      var n := |records| - 1;
      Total(records[..n], keep, p) + Kept(records[n], keep, p)
  }

  function Everything(): Record -> bool {
    (r: Record) => true
  }

  function Unsegmented(): Record -> bool {
    (r: Record) => r.segment.None?
  }

  function InSegment(s: string): Record -> bool {
    (r: Record) => r.segment == Some(s)
  }

  /** The change between the two periods of the records a test keeps. */
  function Moved(records: seq<Record>, keep: Record -> bool, c: Comparison): real {
    Total(records, keep, c.current) - Total(records, keep, c.previous)
  }

  /** One row per segment that has a dated record, in whatever order GROUP BY leaves them. */
  ghost predicate IsBreakdown(rows: seq<Row>, records: seq<Record>, c: Comparison) {
    && (forall i, j :: 0 <= i < j < |rows| ==> rows[i].segment != rows[j].segment)
    && (forall r :: r in records && r.segment.Some? && r.period.Some? ==>
          exists i :: 0 <= i < |rows| && rows[i].segment == r.segment.value)
    && forall i :: 0 <= i < |rows| ==>
         && rows[i].current == Total(records, InSegment(rows[i].segment), c.current)
         && rows[i].previous == Total(records, InSegment(rows[i].segment), c.previous)
  }

  ghost predicate Distinct(segments: seq<string>) {
    forall i, j :: 0 <= i < j < |segments| ==> segments[i] != segments[j]
  }

  function OverSegments(segments: seq<string>, records: seq<Record>, p: int): real {
    if |segments| == 0 then 0.0
    else
      var n := |segments| - 1;
      OverSegments(segments[..n], records, p) + Total(records, InSegment(segments[n]), p)
  }

  lemma TotalOfOneMore(records: seq<Record>, r: Record, keep: Record -> bool, p: int)
    ensures Total(records + [r], keep, p) == Total(records, keep, p) + Kept(r, keep, p)
  {
    assert (records + [r])[..|records|] == records;
  }

  lemma {:induction false} OneRecordMore(segments: seq<string>, records: seq<Record>, r: Record, p: int)
    requires Distinct(segments)
    ensures OverSegments(segments, records + [r], p)
         == OverSegments(segments, records, p)
          + if r.segment.Some? && r.segment.value in segments then ValueIn(r, p) else 0.0
  {
    if |segments| != 0 {
      var n := |segments| - 1;
      assert segments == segments[..n] + [segments[n]];
      OneRecordMore(segments[..n], records, r, p);
      TotalOfOneMore(records, r, InSegment(segments[n]), p);
    }
  }

  lemma {:induction false} NothingOverSegments(segments: seq<string>, p: int)
    ensures OverSegments(segments, [], p) == 0.0
  {
    if |segments| != 0 {
      NothingOverSegments(segments[..|segments| - 1], p);
    }
  }

  /** Segments and the rows without one make up the whole, period by period. */
  lemma {:induction false} SegmentsPartition(segments: seq<string>, records: seq<Record>, p: int)
    requires Distinct(segments)
    requires forall r :: r in records && r.segment.Some? && r.period.Some? ==> r.segment.value in segments
    ensures OverSegments(segments, records, p) + Total(records, Unsegmented(), p) == Total(records, Everything(), p)
  {
    if |records| == 0 {
      NothingOverSegments(segments, p);
    } else {
      var n := |records| - 1;
      var front, r := records[..n], records[n];
      assert records == front + [r];
      SegmentsPartition(segments, front, p);
      OneRecordMore(segments, front, r, p);
      assert r in records;
    }
  }

  function Segments(rows: seq<Row>): (r: seq<string>)
    ensures |r| == |rows|
  {
    seq(|rows|, i requires 0 <= i < |rows| => rows[i].segment)
  }

  lemma {:induction false} NetIsTheDifference(rows: seq<Row>, records: seq<Record>, c: Comparison)
    requires forall i :: 0 <= i < |rows| ==>
               && rows[i].current == Total(records, InSegment(rows[i].segment), c.current)
               && rows[i].previous == Total(records, InSegment(rows[i].segment), c.previous)
    ensures Net(Changes(rows))
         == OverSegments(Segments(rows), records, c.current) - OverSegments(Segments(rows), records, c.previous)
  {
    if |rows| != 0 {
      var n := |rows| - 1;
      NetIsTheDifference(rows[..n], records, c);
      assert Changes(rows)[..n] == Changes(rows[..n]);
      assert Segments(rows)[..n] == Segments(rows[..n]);
    }
  }

  /**
   * The headline change is what the segments moved plus what the rows without a
   * segment moved: nothing else is lost, and no row is counted twice.
   */
  lemma HeadlineIsSegmentsPlusTheRest(rows: seq<Row>, records: seq<Record>, c: Comparison, dimension: string)
    requires IsBreakdown(rows, records, c)
    ensures Moved(records, Everything(), c)
         == Explained(rows, dimension).totalDelta + Moved(records, Unsegmented(), c)
  {
    var segments := Segments(rows);
    forall r | r in records && r.segment.Some? && r.period.Some?
      ensures r.segment.value in segments
    {
      var i :| 0 <= i < |rows| && rows[i].segment == r.segment.value;
      assert segments[i] == r.segment.value;
    }
    SegmentsPartition(segments, records, c.current);
    SegmentsPartition(segments, records, c.previous);
    NetIsTheDifference(rows, records, c);
  }

  /** So a breakdown adds up to the headline exactly when the rows without a segment did not move. */
  lemma BreakdownAddsUpExactlyWhen(rows: seq<Row>, records: seq<Record>, c: Comparison, dimension: string)
    requires IsBreakdown(rows, records, c)
    ensures Explained(rows, dimension).totalDelta == Moved(records, Everything(), c)
       <==> Moved(records, Unsegmented(), c) == 0.0
  {
    HeadlineIsSegmentsPlusTheRest(rows, records, c, dimension);
  }

  /** The periods the records hold. */
  ghost predicate ArePeriodsOf(periods: seq<int>, records: seq<Record>) {
    forall p :: p in periods <==> exists r :: r in records && r.period == Some(p)
  }

  /** Two periods of sales; those of the north stood still, those without a region did not. */
  function UnevenSales(): seq<Record> {
    [Record(Some("north"), Some(1), Some(1.0)), Record(None, Some(1), Some(3.0)),
     Record(Some("north"), Some(2), Some(1.0)), Record(None, Some(2), Some(5.0))]
  }

  lemma TotalOfUneven(keep: Record -> bool, p: int)
    ensures var s := UnevenSales();
            Total(s, keep, p) == Kept(s[0], keep, p) + Kept(s[1], keep, p) + Kept(s[2], keep, p) + Kept(s[3], keep, p)
  {
    var s := UnevenSales();
    assert s == (([] + [s[0]]) + [s[1]]) + [s[2]] + [s[3]];
    TotalOfOneMore([], s[0], keep, p);
    TotalOfOneMore([] + [s[0]], s[1], keep, p);
    TotalOfOneMore([] + [s[0]] + [s[1]], s[2], keep, p);
    TotalOfOneMore([] + [s[0]] + [s[1]] + [s[2]], s[3], keep, p);
  }

  lemma UnevenBreakdown()
    ensures IsBreakdown([Row("north", 1.0, 1.0)], UnevenSales(), Comparison(2, 1))
  {
    var rows := [Row("north", 1.0, 1.0)];
    TotalOfUneven(InSegment("north"), 1);
    TotalOfUneven(InSegment("north"), 2);
    hide Total;
    forall r | r in UnevenSales() && r.segment.Some?
      ensures rows[0].segment == r.segment.value
    {
    }
  }

  lemma UnevenHeadline()
    ensures Moved(UnevenSales(), Everything(), Comparison(2, 1)) == 2.0
    ensures Moved(UnevenSales(), Unsegmented(), Comparison(2, 1)) == 2.0
  {
    TotalOfUneven(Everything(), 1);
    TotalOfUneven(Everything(), 2);
    TotalOfUneven(Unsegmented(), 1);
    TotalOfUneven(Unsegmented(), 2);
    hide Total;
  }

  /** The headline moved, no segment did. */
  lemma BreakdownCanMissTheHeadline(dimension: string)
    ensures var records, rows, c := UnevenSales(), [Row("north", 1.0, 1.0)], Comparison(2, 1);
            && ArePeriodsOf([2, 1], records) && NewestFirst([2, 1]) && Precedes([2, 1], c.previous, c.current)
            && IsBreakdown(rows, records, c)
            && Explained(rows, dimension).totalDelta == 0.0
            && Moved(records, Everything(), c) == 2.0
  {
    var records := UnevenSales();
    assert records[0] in records && records[2] in records;
    assert ArePeriodsOf([2, 1], records);
    UnevenBreakdown();
    UnevenHeadline();
    hide *;
    HeadlineIsSegmentsPlusTheRest([Row("north", 1.0, 1.0)], records, Comparison(2, 1), dimension);
  }
}
