/**
 * Future period labels of ml/forecasting.py: `_infer_step`, `_add_months` and
 * `_next_periods` on proleptic Gregorian dates.
 */
module Calendar {
  import opened Options
  import opened Statistics

  const MAX_YEAR := 9999
  const SECONDS_PER_DAY := 86400

  datatype Date = Date(year: int, month: int, day: int)
  /** A date and the seconds since its midnight, which month arithmetic carries along. */
  datatype DateTime = DateTime(date: Date, seconds: int)
  type Moment = t: DateTime | Valid(t.date) && 0 <= t.seconds < SECONDS_PER_DAY witness DateTime(Date(1, 1, 1), 0)

  datatype Label = Calendar(at: Moment) | Fixed(instant: real)
  datatype Error = YearOutOfRange

  // ----- the Gregorian calendar -------------------------------------------------

  /** A year is leap when 4 divides it, unless 100 does and 400 does not. */
  predicate IsLeap(year: int) {
    year % 4 == 0 && (year % 100 == 0 ==> year % 400 == 0)
  }

  function DaysInMonth(year: int, month: int): (d: int)
    requires 1 <= month <= 12
    ensures 28 <= d <= 31
  {
    if month == 2 then if IsLeap(year) then 29 else 28
    else if month in {4, 6, 9, 11} then 30
    else 31
  }

  predicate Valid(d: Date) {
    1 <= d.year <= MAX_YEAR && 1 <= d.month <= 12 && 1 <= d.day <= DaysInMonth(d.year, d.month)
  }

  function DaysBeforeYear(year: int): int {
    365 * (year - 1) + (year - 1) / 4 - (year - 1) / 100 + (year - 1) / 400
  }

  function DaysBeforeMonth(year: int, month: int): int
    requires 1 <= month <= 12
    decreases month
  {
    if month == 1 then 0 else DaysBeforeMonth(year, month - 1) + DaysInMonth(year, month - 1)
  }

  /** The ordinal of a date: 1 January of year 1 is day 1. */
  function DayNumber(d: Date): int
    requires 1 <= d.month <= 12
  {
    DaysBeforeYear(d.year) + DaysBeforeMonth(d.year, d.month) + d.day
  }

  function Instant(t: DateTime): int
    requires 1 <= t.date.month <= 12
  {
    DayNumber(t.date) * SECONDS_PER_DAY + t.seconds
  }

  lemma YearLength(year: int)
    ensures DaysBeforeYear(year + 1) - DaysBeforeYear(year) == if IsLeap(year) then 366 else 365
  {
    MultiplesPassed(year, 4);
    MultiplesPassed(year, 100);
    MultiplesPassed(year, 400);
    MultiplesOf400(year);
  }

  lemma MultiplesPassed(year: int, k: int)
    requires k > 1
    ensures year / k - (year - 1) / k == if year % k == 0 then 1 else 0
  {
    var q, r := year / k, year % k;
    if r == 0 {
      QuotientIs(year - 1, k, q - 1, k - 1);
    } else {
      QuotientIs(year - 1, k, q, r - 1);
    }
  }

  lemma QuotientIs(n: int, k: int, q: int, r: int)
    requires k > 0 && 0 <= r < k && n == q * k + r
    ensures n / k == q
  {
    var d := n / k - q;
    assert d * k == r - n % k;
    NoMultipleBetween(d, k);
  }

  lemma NoMultipleBetween(d: int, k: int)
    requires -k < d * k < k
    ensures d == 0
  {
    assert d >= 1 ==> d * k >= k;
    assert d <= -1 ==> d * k <= -k;
  }

  lemma MultiplesOf400(year: int)
    ensures year % 400 == 0 ==> year % 100 == 0
    ensures year % 100 == 0 ==> year % 4 == 0
  {
  }

  lemma MonthTable(year: int)
    ensures DaysBeforeMonth(year, 1) == 0 && DaysBeforeMonth(year, 2) == 31
    ensures var feb := if IsLeap(year) then 29 else 28;
            && DaysBeforeMonth(year, 3) == 31 + feb
            && DaysBeforeMonth(year, 4) == 62 + feb
            && DaysBeforeMonth(year, 5) == 92 + feb
            && DaysBeforeMonth(year, 6) == 123 + feb
            && DaysBeforeMonth(year, 7) == 153 + feb
            && DaysBeforeMonth(year, 8) == 184 + feb
            && DaysBeforeMonth(year, 9) == 215 + feb
            && DaysBeforeMonth(year, 10) == 245 + feb
            && DaysBeforeMonth(year, 11) == 276 + feb
            && DaysBeforeMonth(year, 12) == 306 + feb
  {
    assert DaysBeforeMonth(year, 3) == DaysBeforeMonth(year, 2) + DaysInMonth(year, 2);
    assert DaysBeforeMonth(year, 5) == DaysBeforeMonth(year, 4) + DaysInMonth(year, 4);
    assert DaysBeforeMonth(year, 7) == DaysBeforeMonth(year, 6) + DaysInMonth(year, 6);
    assert DaysBeforeMonth(year, 9) == DaysBeforeMonth(year, 8) + DaysInMonth(year, 8);
    assert DaysBeforeMonth(year, 11) == DaysBeforeMonth(year, 10) + DaysInMonth(year, 10);
  }

  // ----- month arithmetic ------------------------------------------------------------

  function Min(a: int, b: int): int {
    if a <= b then a else b
  }

  /** `_add_months` before the year is checked by `datetime.replace`. */
  function ShiftMonths(start: Date, months: nat): Date
    requires 1 <= start.month <= 12
  {
    var total := start.month - 1 + months;
    var year, month := start.year + total / 12, total % 12 + 1;
    var lastDay := [31, if year % 4 == 0 && (year % 100 != 0 || year % 400 == 0) then 29 else 28,
                    31, 30, 31, 30, 31, 31, 30, 31, 30, 31][month - 1];
    Date(year, month, Min(start.day, lastDay))
  }

  function AddMonths(start: Moment, months: nat): Result<Moment, Error> {
    var d := ShiftMonths(start.date, months);
    if d.year > MAX_YEAR then Err(YearOutOfRange) else Ok(DateTime(d, start.seconds))
  }

  /**
   * Clamping is never carried forward: the day is always the start day cut to
   * the length of the month landed in, and the month is the intended one.
   */
  lemma ShiftLandsInTheMonth(start: Date, months: nat)
    requires Valid(start)
    ensures var d := ShiftMonths(start, months);
            && 1 <= d.month <= 12
            && d.year * 12 + d.month == start.year * 12 + start.month + months
            && d.day == Min(start.day, DaysInMonth(d.year, d.month))
            && (d.year <= MAX_YEAR ==> Valid(d))
  {
  }

  lemma ShiftByNothing(start: Date)
    requires Valid(start)
    ensures ShiftMonths(start, 0) == start
  {
    hide ShiftMonths;
    ShiftLandsInTheMonth(start, 0);
  }

  /** Shifting month by month and shifting at once land in the same month. */
  lemma ShiftsCompose(start: Date, a: nat, b: nat)
    requires Valid(start) && ShiftMonths(start, a).year <= MAX_YEAR
    ensures var once, twice := ShiftMonths(start, a + b), ShiftMonths(ShiftMonths(start, a), b);
            && twice.year == once.year && twice.month == once.month && twice.day <= once.day
            && (start.day <= 28 ==> twice == once)
  {
    ShiftLandsInTheMonth(start, a);
    ShiftLandsInTheMonth(start, a + b);
    ShiftLandsInTheMonth(ShiftMonths(start, a), b);
  }

  /** The clamped date of `anchor` in a month. */
  function Clamped(year: int, month: int, anchor: int): Date
    requires 1 <= month <= 12
  {
    Date(year, month, Min(anchor, DaysInMonth(year, month)))
  }

  lemma MonthGap(year: int, month: int, anchor: int)
    requires 1 <= month <= 12 && 1 <= anchor <= 31
    ensures var next := if month == 12 then Clamped(year + 1, 1, anchor) else Clamped(year, month + 1, anchor);
            28 <= DayNumber(next) - DayNumber(Clamped(year, month, anchor)) <= 31
  {
    hide DaysBeforeYear;
    if month == 12 {
      YearLength(year);
      MonthTable(year);
    } else {
      assert DaysBeforeMonth(year, month + 1) == DaysBeforeMonth(year, month) + DaysInMonth(year, month);
    }
  }

  lemma QuarterGap(year: int, month: int, anchor: int)
    requires 1 <= month <= 12 && 1 <= anchor <= 31
    ensures var next := if month > 9 then Clamped(year + 1, month - 9, anchor)
                        else Clamped(year, month + 3, anchor);
            89 <= DayNumber(next) - DayNumber(Clamped(year, month, anchor)) <= 92
  {
    hide DaysBeforeYear;
    hide DaysBeforeMonth;
    YearLength(year);
    MonthTable(year);
    MonthTable(year + 1);
    LeapYearsAreApart(year);
  }

  lemma LeapYearsAreApart(year: int)
    ensures IsLeap(year) ==> !IsLeap(year + 1)
  {
  }

  lemma YearGap(year: int, month: int, anchor: int)
    requires 1 <= month <= 12 && 1 <= anchor <= 31
    ensures 365 <= DayNumber(Clamped(year + 1, month, anchor)) - DayNumber(Clamped(year, month, anchor)) <= 366
  {
    hide DaysBeforeYear;
    hide DaysBeforeMonth;
    YearLength(year);
    MonthTable(year);
    MonthTable(year + 1);
    LeapYearsAreApart(year);
  }

  // ----- the three calendar rules -------------------------------------------------------

  /** Months per step when the median gap, in days, names a calendar period. */
  function CalendarStride(days: real): Option<nat> {
    if 27.0 <= days <= 32.0 then Some(1)
    else if 88.0 <= days <= 95.0 then Some(3)
    else if 360.0 <= days <= 370.0 then Some(12)
    else None
  }

  /** The spacings in days that mean a month, a quarter or a year. */
  lemma StrideIs(days: real)
    ensures CalendarStride(days) == Some(1) <==> 27.0 <= days <= 32.0
    ensures CalendarStride(days) == Some(3) <==> 88.0 <= days <= 95.0
    ensures CalendarStride(days) == Some(12) <==> 360.0 <= days <= 370.0
    ensures CalendarStride(days) in {None, Some(1), Some(3), Some(12)}
  {
  }

  /** A gap of that many days selects the stride again. */
  predicate InBand(stride: nat, days: int) {
    CalendarStride(days as real) == Some(stride)
  }

  /** Every projected gap stays inside the band of day counts that selected the rule. */
  lemma StepStaysInBand(start: Date, stride: nat, i: nat)
    requires Valid(start) && stride in {1, 3, 12}
    ensures var a, b := ShiftMonths(start, stride * i), ShiftMonths(start, stride * (i + 1));
            && 1 <= a.month <= 12 && 1 <= b.month <= 12
            && InBand(stride, DayNumber(b) - DayNumber(a))
            && DayNumber(a) < DayNumber(b)
  {
    hide DaysBeforeYear;
    hide DaysBeforeMonth;
    hide DaysInMonth;
    hide ShiftMonths;
    var a, b := ShiftMonths(start, stride * i), ShiftMonths(start, stride * (i + 1));
    ShiftLandsInTheMonth(start, stride * i);
    ShiftLandsInTheMonth(start, stride * (i + 1));
    assert stride * (i + 1) == stride * i + stride;
    assert a == Clamped(a.year, a.month, start.day) && b == Clamped(b.year, b.month, start.day);
    match stride {
      case 1 => MonthGap(a.year, a.month, start.day);
      case 3 => QuarterGap(a.year, a.month, start.day);
      case 12 => YearGap(a.year, a.month, start.day);
    }
  }

  // ----- labels ---------------------------------------------------------------------------

  function Gaps(history: seq<Moment>): (r: seq<real>)
    requires |history| > 0
    ensures |r| == |history| - 1
  {
    seq(|history| - 1, i requires 0 <= i < |history| - 1 =>
      (Instant(history[i + 1]) - Instant(history[i])) as real)
  }

  /** `_infer_step`, in seconds. */
  function InferStep(history: seq<Moment>): real
    requires |history| > 0
  {
    if |history| < 2 then 30.0 * 86400.0 else Median(Gaps(history))
  }

  /** The step is midway between the two middle gaps, in seconds, or thirty days with no gap to go by. */
  lemma StepIs(history: seq<Moment>, ordered: seq<real>)
    requires |history| > 0 && multiset(ordered) == multiset(Gaps(history))
    requires forall i, j :: 0 <= i < j < |ordered| ==> ordered[i] <= ordered[j]
    ensures |ordered| == |history| - 1
    ensures |history| == 1 ==> InferStep(history) == 2_592_000.0
    ensures |history| > 1 ==>
              2.0 * InferStep(history) == ordered[(|ordered| - 1) / 2] + ordered[|ordered| / 2]
  {
    hide Median;
    hide Gaps;
    assert |ordered| == |multiset(ordered)| == |Gaps(history)|;
    if |history| > 1 {
      MedianIsTheMiddle(Gaps(history), ordered);
    }
  }

  function CalendarLabels(last: Moment, stride: nat, count: nat): Result<seq<Label>, Error>
  {
    if count == 0 then Ok([])
    else
      match CalendarLabels(last, stride, count - 1)
      case Err(e) => Err(e)
      case Ok(labels) =>
        match AddMonths(last, stride * count)
        case Err(e) => Err(e)
        case Ok(t) => Ok(labels + [Calendar(t)])
  }

  /** Whether the instant lies in the years 1 to 9999. */
  predicate Representable(instant: real) {
    SECONDS_PER_DAY as real <= instant < ((DaysBeforeYear(MAX_YEAR + 1) + 1) * SECONDS_PER_DAY) as real
  }

  /** From the first second of day one to the last of day 3652059, the end of the year 9999. */
  lemma RepresentableIs(instant: real)
    ensures Representable(instant) <==> 86_400.0 <= instant < 315_537_984_000.0
  {
    assert DaysBeforeYear(MAX_YEAR + 1) == 3_652_059;
    assert 3_652_060 * SECONDS_PER_DAY == 315_537_984_000;
  }

  function FixedLabels(start: real, step: real, count: nat): (r: seq<Label>)
    ensures |r| == count && forall i :: 0 <= i < count ==> r[i].Fixed?
  {
    seq(count, i requires 0 <= i < count => Fixed(start + step * ((i + 1) as real)))
  }

  function NextPeriods(history: seq<Moment>, count: nat): Result<seq<Label>, Error>
    requires |history| > 0
  {
    var step := InferStep(history);
    var last := history[|history| - 1];
    match CalendarStride(step / 86400.0)
    case Some(stride) => CalendarLabels(last, stride, count)
    case None =>
      var labels := FixedLabels(Instant(last) as real, step, count);
      if forall i :: 0 <= i < count ==> Representable(labels[i].instant) then Ok(labels) else Err(YearOutOfRange)
  }

  /** The labels as the anchor shifted; index 0 is the last period of the history. */
  function Anchor(last: Moment, stride: nat, i: nat): DateTime
  {
    DateTime(ShiftMonths(last.date, stride * i), last.seconds)
  }

  lemma AddMonthsIsTheAnchor(last: Moment, stride: nat, i: nat)
    ensures AddMonths(last, stride * i).Ok? ==> AddMonths(last, stride * i).value == Anchor(last, stride, i)
  {
    hide ShiftMonths;
  }

  lemma {:induction false} LabelsAreShifts(last: Moment, stride: nat, count: nat)
    ensures CalendarLabels(last, stride, count).Ok? ==>
              var labels := CalendarLabels(last, stride, count).value;
              && |labels| == count
              && forall i :: 0 <= i < count ==> labels[i].Calendar? && labels[i].at == Anchor(last, stride, i + 1)
  {
    hide AddMonths;
    hide Anchor;
    if count != 0 {
      LabelsAreShifts(last, stride, count - 1);
      AddMonthsIsTheAnchor(last, stride, count);
    }
  }

  /**
   * `here` follows `before` as step i of the rule `stride` started at `last`:
   * later, on the start day cut to its own month, the intended number of months
   * on, and with a gap in the band that selected the rule.
   */
  ghost predicate FollowsRule(last: DateTime, stride: nat, i: nat, before: DateTime, here: DateTime) {
    && 1 <= before.date.month <= 12 && 1 <= here.date.month <= 12
    && here.seconds == last.seconds
    && here.date.day == Min(last.date.day, DaysInMonth(here.date.year, here.date.month))
    && here.date.year * 12 + here.date.month == last.date.year * 12 + last.date.month + stride * (i + 1)
    && InBand(stride, DayNumber(here.date) - DayNumber(before.date))
    && Instant(before) < Instant(here)
  }

  lemma AnchorsFollowTheRule(last: Moment, stride: nat, i: nat)
    requires stride in {1, 3, 12}
    ensures Anchor(last, stride, 0) == last
    ensures FollowsRule(last, stride, i, Anchor(last, stride, i), Anchor(last, stride, i + 1))
  {
    hide DaysBeforeYear;
    hide DaysBeforeMonth;
    hide DaysInMonth;
    hide ShiftMonths;
    ShiftByNothing(last.date);
    ShiftLandsInTheMonth(last.date, stride * i);
    ShiftLandsInTheMonth(last.date, stride * (i + 1));
    StepStaysInBand(last.date, stride, i);
  }

  /**
   * Month, quarter and year labels are valid dates (their type says so), strictly
   * increasing from the last period on, each following the rule that was chosen.
   */
  lemma CalendarLabelsAreSound(last: Moment, stride: nat, count: nat, i: nat)
    requires stride in {1, 3, 12} && i < count
    requires CalendarLabels(last, stride, count).Ok?
    ensures var labels := CalendarLabels(last, stride, count).value;
            && |labels| == count && labels[i].Calendar?
            && (i > 0 ==> labels[i - 1].Calendar?)
            && FollowsRule(last, stride, i, if i == 0 then last else labels[i - 1].at, labels[i].at)
  {
    hide FollowsRule;
    hide Anchor;
    hide CalendarLabels;
    LabelsAreShifts(last, stride, count);
    AnchorsFollowTheRule(last, stride, i);
  }

  /** Labelling fails exactly when the furthest label leaves the calendar's last year. */
  lemma {:induction false} LabelsFailOnlyPastTheLastYear(last: Moment, stride: nat, count: nat)
    requires stride > 0
    ensures CalendarLabels(last, stride, count).Ok?
       <==> (last.date.year * 12 + last.date.month - 1 + stride * count) / 12 <= MAX_YEAR
  {
    hide ShiftMonths;
    if count != 0 {
      LabelsFailOnlyPastTheLastYear(last, stride, count - 1);
      assert stride * count == stride * (count - 1) + stride;
      ShiftLandsInTheMonth(last.date, stride * count);
    }
  }

  /** Any other spacing is projected by the median gap itself. */
  lemma FixedLabelsAreEvenlySpaced(start: real, step: real, count: nat, i: nat)
    requires i < count
    ensures var labels := FixedLabels(start, step, count);
            && labels[i].Fixed?
            && (i > 0 ==> labels[i - 1].Fixed?)
            && labels[i].instant - (if i == 0 then start else labels[i - 1].instant) == step
  {
    var k := i as real;
    assert (i + 1) as real == k + 1.0;
    assert step * (k + 1.0) == step * k + step;
  }

  // ----- labels a fixed step apart: range and dates ---------------------------------------------------

  ghost predicate InTimeOrder(history: seq<Moment>) {
    forall i, j :: 0 <= i < j < |history| ==> Instant(history[i]) <= Instant(history[j])
  }

  lemma StepNonNegative(history: seq<Moment>)
    requires |history| > 0 && InTimeOrder(history)
    ensures InferStep(history) >= 0.0
  {
    if |history| >= 2 {
      hide Instant;
      hide Median;
      MedianNonNegative(Gaps(history));
    }
  }

  lemma {:induction false} MonthsAreNonNegative(year: int, month: int)
    requires 1 <= month <= 12
    ensures DaysBeforeMonth(year, month) >= 0
  {
    if month > 1 {
      MonthsAreNonNegative(year, month - 1);
    }
  }

  lemma InstantsStartInYearOne(t: Moment)
    ensures Instant(t) >= SECONDS_PER_DAY
  {
    MonthsAreNonNegative(t.date.year, t.date.month);
  }

  lemma FixedLabelBetween(start: real, step: real, count: nat, i: nat)
    requires step >= 0.0 && i < count
    ensures var labels := FixedLabels(start, step, count);
            start <= labels[i].instant <= labels[count - 1].instant
  {
    var k, n := (i + 1) as real, count as real;
    OrderedProducts(step, k, n);
  }

  lemma OrderedProducts(step: real, k: real, n: real)
    requires step >= 0.0 && 0.0 <= k <= n
    ensures 0.0 <= step * k <= step * n
  {
    assert step * n - step * k == step * (n - k) >= 0.0;
  }

  lemma RepresentableBetween(a: real, b: real, c: real)
    requires SECONDS_PER_DAY as real <= a <= b <= c
    ensures Representable(c) ==> Representable(b)
  {
    hide DaysBeforeYear;
  }

  lemma FixedLabelsInRange(start: real, step: real, count: nat)
    requires step >= 0.0 && start >= SECONDS_PER_DAY as real
    ensures var labels := FixedLabels(start, step, count);
            (forall i :: 0 <= i < count ==> Representable(labels[i].instant))
            <==> count == 0 || Representable(labels[count - 1].instant)
  {
    hide Representable;
    hide FixedLabels;
    var labels := FixedLabels(start, step, count);
    forall i | 0 <= i < count
      ensures Representable(labels[count - 1].instant) ==> Representable(labels[i].instant)
    {
      FixedLabelBetween(start, step, count, i);
      RepresentableBetween(start, labels[i].instant, labels[count - 1].instant);
    }
  }

  /** With the history in time order, fixed-step labels fail exactly when the furthest one is past the last year. */
  lemma FixedLabelsFailOnlyPastTheLastYear(history: seq<Moment>, count: nat)
    requires |history| > 0 && InTimeOrder(history)
    requires CalendarStride(InferStep(history) / 86400.0).None?
    ensures var labels := FixedLabels(Instant(history[|history| - 1]) as real, InferStep(history), count);
            NextPeriods(history, count).Err? <==> count > 0 && !Representable(labels[count - 1].instant)
  {
    StepNonNegative(history);
    InstantsStartInYearOne(history[|history| - 1]);
    hide InferStep;
    hide Instant;
    hide Representable;
    hide FixedLabels;
    FixedLabelsInRange(Instant(history[|history| - 1]) as real, InferStep(history), count);
  }

  /** The day a label is cut to. */
  function DayOf(instant: real): int {
    (instant / 86400.0).Floor
  }

  /** Wherever it starts, one step leads to a later date. */
  ghost predicate AlwaysANewDate(step: real) {
    forall start: real {:trigger DayOf(start)} :: DayOf(start) < DayOf(start + step)
  }

  /** Which is so exactly for steps of a day or more. */
  lemma NewDateExactlyWhen(step: real)
    ensures AlwaysANewDate(step) <==> step >= 86400.0
  {
    if step >= 86400.0 {
      forall start: real
        ensures DayOf(start) < DayOf(start + step)
      {
        ADayLater(start, step);
      }
    } else {
      assert DayOf(0.0) == 0;
      assert 0.0 + step == step;
      assert step / 86400.0 < 1.0;
      assert DayOf(0.0 + step) <= 0;
    }
  }

  lemma ADayLater(start: real, step: real)
    requires step >= 86400.0
    ensures DayOf(start) < DayOf(start + step)
  {
    assert (start + step) / 86400.0 == start / 86400.0 + step / 86400.0;
  }

  /** So with a median gap of at least a day the emitted dates strictly increase from the last period on. */
  lemma FixedDatesIncrease(start: real, step: real, count: nat, i: nat)
    requires i < count && step >= 86400.0
    ensures var labels := FixedLabels(start, step, count);
            DayOf(if i == 0 then start else labels[i - 1].instant) < DayOf(labels[i].instant)
  {
    var labels := FixedLabels(start, step, count);
    hide DayOf;
    FixedLabelsAreEvenlySpaced(start, step, count, i);
    ADayLater(if i == 0 then start else labels[i - 1].instant, step);
  }

  /** The first four hours of 2024. */
  function FourHours(): seq<Moment> {
    seq(4, i requires 0 <= i < 4 => DateTime(Date(2024, 1, 1), 3600 * i))
  }

  lemma HourlyStep()
    ensures InTimeOrder(FourHours()) && InferStep(FourHours()) == 3600.0
    ensures CalendarStride(InferStep(FourHours()) / 86400.0).None?
  {
    hide DayNumber;
    var gaps := Gaps(FourHours());
    forall i | 0 <= i < |gaps|
      ensures gaps[i] == 3600.0
    {
      assert Instant(FourHours()[i + 1]) - Instant(FourHours()[i]) == 3600;
    }
    MedianOfConstant(gaps, 3600.0);
  }

  lemma NewYear2024()
    ensures DayNumber(Date(2024, 1, 1)) == 738886
    ensures forall x: real :: 738886.0 * 86400.0 <= x < 738887.0 * 86400.0 ==>
              Representable(x) && DayOf(x) == 738886
  {
    assert DaysBeforeYear(2024) == 738885;
    assert DaysBeforeYear(MAX_YEAR + 1) == 3652059;
    forall x: real | 738886.0 * 86400.0 <= x < 738887.0 * 86400.0
      ensures DayOf(x) == 738886
    {
      assert 738886.0 <= x / 86400.0 < 738887.0;
    }
  }

  /** An hourly history repeats a date: its first two labels fall on the day of its last period. */
  lemma HourlyLabelsRepeatADate()
    ensures var history := FourHours();
            && InTimeOrder(history)
            && NextPeriods(history, 2) == Ok(FixedLabels(Instant(history[3]) as real, 3600.0, 2))
            && forall i :: 0 <= i < 2 ==>
                 DayOf(NextPeriods(history, 2).value[i].instant) == DayNumber(history[3].date)
  {
    var history := FourHours();
    HourlyStep();
    NewYear2024();
    hide DayNumber;
    hide InferStep;
    hide Representable;
    hide DayOf;
    var start := Instant(history[3]) as real;
    var labels := FixedLabels(start, 3600.0, 2);
    assert start == 738886.0 * 86400.0 + 10800.0;
    assert labels[0].instant == start + 3600.0 && labels[1].instant == start + 7200.0;
  }
}
