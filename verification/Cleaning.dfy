/**
 * The cleaning compiler: the string profile of data/profiling.py, the plan and
 * the column expressions of data/cleaning.py, and the row counts of
 * services/pipeline.py. The engine's `trim`, `lower`, stripping and TRY_CASTs
 * are arbitrary functions.
 */
module Cleaning {
  import opened Options

  datatype ColumnType = StringType | IntegerType | DecimalType | BooleanType | DateType | TimestampType | UnknownType

  datatype Cell = Null | Text(s: string) | Bool(b: bool) | Date(day: int) | Number(x: real)

  datatype Engine = Engine(trim: string -> string, lower: string -> string, strip: string -> string,
                           tryDate: string -> Option<int>, tryNumber: string -> Option<real>)

  const NULL_TOKENS: set<string> :=
    {"", "na", "n/a", "n.a.", "null", "none", "nil", "-", "--", "?", "unknown"}
  const YES: set<string> := {"true", "yes", "y", "t", "1"}
  const NO: set<string> := {"false", "no", "n", "f", "0"}
  /** As the profile lists them, in one set. */
  const BOOLEAN_LIKE: set<string> := {"true", "false", "yes", "no", "y", "n", "t", "f", "1", "0"}

  // ----- SQL expressions ------------------------------------------------------------------

  datatype Expr =
    | Column
    | Trim(e: Expr)
    | BlankTokens(e: Expr)     // CASE WHEN lower(e) IN (tokens) THEN NULL ELSE e END
    | ToBoolean(e: Expr)       // CASE WHEN lower(e) IN (yes) THEN TRUE WHEN ... ELSE NULL END
    | ToDate(e: Expr)          // TRY_CAST(e AS DATE)
    | ToNumber(e: Expr)        // TRY_CAST(regexp_replace(e, ...) AS DOUBLE)

  function Eval(g: Engine, e: Expr, cell: Cell): Cell {
    match e
    case Column => cell
    case Trim(inner) =>
      (match Eval(g, inner, cell)
       case Text(s) => Text(g.trim(s))
       case other => other)
    case BlankTokens(inner) =>
      (match Eval(g, inner, cell)
       case Text(s) => if g.lower(s) in NULL_TOKENS then Null else Text(s)
       case other => other)
    case ToBoolean(inner) =>
      (match Eval(g, inner, cell)
       case Text(s) => if g.lower(s) in YES then Bool(true) else if g.lower(s) in NO then Bool(false) else Null
       case other => Null)
    case ToDate(inner) =>
      (match Eval(g, inner, cell)
       case Text(s) => if g.tryDate(s).Some? then Date(g.tryDate(s).value) else Null
       case other => Null)
    case ToNumber(inner) =>
      (match Eval(g, inner, cell)
       case Text(s) => if g.tryNumber(g.strip(s)).Some? then Number(g.tryNumber(g.strip(s)).value) else Null
       case other => Null)
  }

  // ----- the profile -----------------------------------------------------------------------

  function CountWhere(cells: seq<Cell>, p: Cell -> bool): (n: nat)
    ensures n <= |cells|
  {
    if |cells| == 0 then 0
    else CountWhere(cells[..|cells| - 1], p) + if p(cells[|cells| - 1]) then 1 else 0
  }

  predicate IsToken(g: Engine, c: Cell) {
    c.Text? && g.lower(g.trim(c.s)) in NULL_TOKENS
  }

  /** Neither NULL nor a placeholder. */
  predicate Real(g: Engine, c: Cell) {
    c.Text? && g.lower(g.trim(c.s)) !in NULL_TOKENS
  }

  predicate Padded(g: Engine, c: Cell) {
    c.Text? && c.s != g.trim(c.s)
  }

  predicate NumberLike(g: Engine, c: Cell) {
    Real(g, c) && g.tryNumber(g.strip(g.trim(c.s))).Some?
  }

  predicate DateLike(g: Engine, c: Cell) {
    Real(g, c) && g.tryDate(g.trim(c.s)).Some?
  }

  predicate BooleanLike(g: Engine, c: Cell) {
    Real(g, c) && g.lower(g.trim(c.s)) in BOOLEAN_LIKE
  }

  datatype Profile = Profile(rowCount: nat, nullCount: nat, isEmpty: bool,
                             nullTokenCount: Option<nat>, whitespaceCount: Option<nat>,
                             numericLike: Option<real>, dateLike: Option<real>, booleanLike: Option<real>)

  function Fraction(part: nat, whole: nat): Option<real> {
    if whole == 0 then None else Some(part as real / whole as real)
  }

  function Profiled(g: Engine, cells: seq<Cell>, columnType: ColumnType): Profile {
    var nulls := CountWhere(cells, (c: Cell) => c.Null?);
    var isEmpty := nulls == |cells| && |cells| > 0;
    if isEmpty || columnType != StringType then Profile(|cells|, nulls, isEmpty, None, None, None, None, None)
    else
      var real_ := CountWhere(cells, (c: Cell) => Real(g, c));
      Profile(|cells|, nulls, false,
              Some(CountWhere(cells, (c: Cell) => IsToken(g, c))),
              Some(CountWhere(cells, (c: Cell) => Padded(g, c))),
              Fraction(CountWhere(cells, (c: Cell) => NumberLike(g, c)), real_),
              Fraction(CountWhere(cells, (c: Cell) => DateLike(g, c)), real_),
              Fraction(CountWhere(cells, (c: Cell) => BooleanLike(g, c)), real_))
  }

  /** The record the profiler fills in place; absent statistics stay None. */
  class ColumnProfile {
    var rowCount: nat
    var nullCount: nat
    var isEmpty: bool
    var nullTokenCount: Option<nat>
    var whitespaceCount: Option<nat>
    var numericLike: Option<real>
    var dateLike: Option<real>
    var booleanLike: Option<real>

    constructor (rowCount: nat, nullCount: nat)
      ensures Snapshot() == Profile(rowCount, nullCount, nullCount == rowCount && rowCount > 0,
                                    None, None, None, None, None)
    {
      this.rowCount, this.nullCount := rowCount, nullCount;
      isEmpty := nullCount == rowCount && rowCount > 0;
      nullTokenCount, whitespaceCount := None, None;
      numericLike, dateLike, booleanLike := None, None, None;
    }

    function Snapshot(): Profile
      reads this
    {
      Profile(rowCount, nullCount, isEmpty, nullTokenCount, whitespaceCount, numericLike, dateLike, booleanLike)
    }

    method FillString(g: Engine, cells: seq<Cell>)
      requires Snapshot() == Profile(|cells|, CountWhere(cells, (c: Cell) => c.Null?), false,
                                     None, None, None, None, None)
      requires !(CountWhere(cells, (c: Cell) => c.Null?) == |cells| && |cells| > 0)
      modifies this
      ensures Snapshot() == Profiled(g, cells, StringType)
    {
      nullTokenCount := Some(CountWhere(cells, (c: Cell) => IsToken(g, c)));
      whitespaceCount := Some(CountWhere(cells, (c: Cell) => Padded(g, c)));
      var realValues := CountWhere(cells, (c: Cell) => Real(g, c));
      if realValues > 0 {
        numericLike := Some(CountWhere(cells, (c: Cell) => NumberLike(g, c)) as real / realValues as real);
        dateLike := Some(CountWhere(cells, (c: Cell) => DateLike(g, c)) as real / realValues as real);
        booleanLike := Some(CountWhere(cells, (c: Cell) => BooleanLike(g, c)) as real / realValues as real);
      }
    }
  }

  method ProfileColumn(g: Engine, cells: seq<Cell>, columnType: ColumnType) returns (profile: ColumnProfile)
    ensures fresh(profile) && profile.Snapshot() == Profiled(g, cells, columnType)
    ensures var p := Profiled(g, cells, columnType);
            && profile.rowCount == p.rowCount && profile.nullCount == p.nullCount && profile.isEmpty == p.isEmpty
            && profile.nullTokenCount == p.nullTokenCount && profile.whitespaceCount == p.whitespaceCount
            && profile.numericLike == p.numericLike && profile.dateLike == p.dateLike
            && profile.booleanLike == p.booleanLike
  {
    profile := new ColumnProfile(|cells|, CountWhere(cells, (c: Cell) => c.Null?));
    if profile.isEmpty {
      return;
    }
    if columnType == StringType {
      profile.FillString(g, cells);
    }
  }

  // ----- the plan ---------------------------------------------------------------------------

  datatype Action = TrimWhitespace | NormalizeNullTokens | CastToNumber | CastToDate | CastToBoolean
  datatype ColumnPlan = ColumnPlan(actions: seq<Action>, resultingType: ColumnType)

  const COERCION_THRESHOLD := 0.95

  predicate Reaches(fraction: Option<real>) {
    (if fraction.Some? then fraction.value else 0.0) >= COERCION_THRESHOLD
  }

  predicate Positive(count: Option<nat>) {
    count.Some? && count.value > 0
  }

  /** The cast a profile earns: booleans before dates before numbers. */
  function ChosenCast(p: Profile): Option<Action> {
    if Reaches(p.booleanLike) then Some(CastToBoolean)
    else if Reaches(p.dateLike) then Some(CastToDate)
    else if Reaches(p.numericLike) then Some(CastToNumber)
    else None
  }

  method PlanColumn(columnType: ColumnType, profile: Profile) returns (plan: ColumnPlan)
    ensures plan == Planned(columnType, profile)
  {
    var actions: seq<Action> := [];
    var resultingType := columnType;
    if columnType != StringType {
      return ColumnPlan([], columnType);
    }
    if Positive(profile.whitespaceCount) {
      actions := actions + [TrimWhitespace];
    }
    if Positive(profile.nullTokenCount) {
      if TrimWhitespace !in actions {
        actions := actions + [TrimWhitespace];
      }
      actions := actions + [NormalizeNullTokens];
    }
    if Reaches(profile.booleanLike) {
      actions := actions + [CastToBoolean];
      resultingType := BooleanType;
    } else if Reaches(profile.dateLike) {
      actions := actions + [CastToDate];
      resultingType := DateType;
    } else if Reaches(profile.numericLike) {
      actions := actions + [CastToNumber];
      resultingType := DecimalType;
    }
    return ColumnPlan(actions, resultingType);
  }

  function TypeAfter(cast: Option<Action>): ColumnType {
    match cast
    case Some(CastToBoolean) => BooleanType
    case Some(CastToDate) => DateType
    case Some(CastToNumber) => DecimalType
    case _ => StringType
  }

  function Planned(columnType: ColumnType, p: Profile): ColumnPlan {
    if columnType != StringType then ColumnPlan([], columnType)
    else
      var cast := ChosenCast(p);
      ColumnPlan((if Positive(p.whitespaceCount) || Positive(p.nullTokenCount) then [TrimWhitespace] else [])
                 + (if Positive(p.nullTokenCount) then [NormalizeNullTokens] else [])
                 + (if cast.Some? then [cast.value] else []),
                 TypeAfter(cast))
  }

  // ----- what the steps do to a cell ------------------------------------------------------------

  /** The one cast among the actions. */
  function CastIn(actions: seq<Action>): Option<Action> {
    if CastToBoolean in actions then Some(CastToBoolean)
    else if CastToDate in actions then Some(CastToDate)
    else if CastToNumber in actions then Some(CastToNumber)
    else None
  }

  function Stripped(g: Engine, actions: seq<Action>, cell: Cell): Cell {
    if cell.Text? && TrimWhitespace in actions then Text(g.trim(cell.s)) else cell
  }

  /** Absent to begin with, or a placeholder the plan removes. */
  predicate Blank(g: Engine, actions: seq<Action>, cell: Cell) {
    var c := Stripped(g, actions, cell);
    c.Null? || (c.Text? && NormalizeNullTokens in actions && g.lower(c.s) in NULL_TOKENS)
  }

  /** The value a cast recovers from a cell; only text can be cast. */
  function Recovered(g: Engine, cast: Action, cell: Cell): Cell {
    if !cell.Text? then Null
    else
      match cast
      case CastToBoolean =>
        if g.lower(cell.s) in YES then Bool(true) else if g.lower(cell.s) in NO then Bool(false) else Null
      case CastToDate => if g.tryDate(cell.s).Some? then Date(g.tryDate(cell.s).value) else Null
      case CastToNumber =>
        if g.tryNumber(g.strip(cell.s)).Some? then Number(g.tryNumber(g.strip(cell.s)).value) else Null
      case _ => cell
  }

  /** Trimmed if asked, blanked if asked, then put through the one cast. */
  function Cleaned(g: Engine, actions: seq<Action>, cell: Cell): Cell {
    if Blank(g, actions, cell) then Null
    else if CastIn(actions).Some? then Recovered(g, CastIn(actions).value, Stripped(g, actions, cell))
    else Stripped(g, actions, cell)
  }

  lemma ExpressionCleans(g: Engine, actions: seq<Action>, cell: Cell)
    ensures Eval(g, Expression(actions), cell) == Cleaned(g, actions, cell)
  {
    var trimmed := if TrimWhitespace in actions then Trim(Column) else Column;
    var blanked := if NormalizeNullTokens in actions then BlankTokens(trimmed) else trimmed;
    assert Eval(g, trimmed, cell) == Stripped(g, actions, cell);
    assert Eval(g, blanked, cell) == if Blank(g, actions, cell) then Null else Stripped(g, actions, cell);
  }

  method ColumnExpression(actions: seq<Action>) returns (expression: Expr)
    ensures expression == Expression(actions)
    ensures forall g: Engine, cell: Cell :: Eval(g, expression, cell) == Cleaned(g, actions, cell)
  {
    forall g: Engine, cell: Cell
      ensures Eval(g, Expression(actions), cell) == Cleaned(g, actions, cell)
    {
      ExpressionCleans(g, actions, cell);
    }
    expression := Column;
    if TrimWhitespace in actions {
      expression := Trim(expression);
    }
    if NormalizeNullTokens in actions {
      expression := BlankTokens(expression);
    }
    if CastToBoolean in actions {
      expression := ToBoolean(expression);
    } else if CastToDate in actions {
      expression := ToDate(expression);
    } else if CastToNumber in actions {
      expression := ToNumber(expression);
    }
  }

  function Expression(actions: seq<Action>): Expr {
    var trimmed := if TrimWhitespace in actions then Trim(Column) else Column;
    var blanked := if NormalizeNullTokens in actions then BlankTokens(trimmed) else trimmed;
    if CastToBoolean in actions then ToBoolean(blanked)
    else if CastToDate in actions then ToDate(blanked)
    else if CastToNumber in actions then ToNumber(blanked)
    else blanked
  }

  // ----- the plan against the reference -------------------------------------------------------

  /** Always trim, always blank out placeholders, then the cast. */
  function ReferenceExpression(cast: Option<Action>): Expr {
    var full := BlankTokens(Trim(Column));
    match cast
    case Some(CastToBoolean) => ToBoolean(full)
    case Some(CastToDate) => ToDate(full)
    case Some(CastToNumber) => ToNumber(full)
    case _ => full
  }

  ghost predicate TextColumn(cells: seq<Cell>) {
    forall i :: 0 <= i < |cells| ==> cells[i].Null? || cells[i].Text?
  }

  lemma {:induction false} NoneCounted(cells: seq<Cell>, p: Cell -> bool, i: nat)
    requires i < |cells| && CountWhere(cells, p) == 0
    ensures !p(cells[i])
  {
    var n := |cells| - 1;
    if i < n {
      NoneCounted(cells[..n], p, i);
    }
  }

  lemma {:induction false} AllCounted(cells: seq<Cell>, p: Cell -> bool, i: nat)
    requires i < |cells| && CountWhere(cells, p) == |cells|
    ensures p(cells[i])
  {
    var n := |cells| - 1;
    if i < n {
      AllCounted(cells[..n], p, i);
    }
  }

  lemma ActionsOf(p: Profile)
    ensures var actions := Planned(StringType, p).actions;
            && (TrimWhitespace in actions <==> Positive(p.whitespaceCount) || Positive(p.nullTokenCount))
            && (NormalizeNullTokens in actions <==> Positive(p.nullTokenCount))
            && (CastToBoolean in actions <==> ChosenCast(p) == Some(CastToBoolean))
            && (CastToDate in actions <==> ChosenCast(p) == Some(CastToDate))
            && (CastToNumber in actions <==> ChosenCast(p) == Some(CastToNumber))
  {
  }

  /** Skipping a step the profile calls idle changes no cell before the cast. */
  lemma SkippedStepsAreIdle(g: Engine, cells: seq<Cell>, i: nat)
    requires i < |cells| && TextColumn(cells)
    ensures var p := Profiled(g, cells, StringType);
            var trimmed := if Positive(p.whitespaceCount) || Positive(p.nullTokenCount) then Trim(Column) else Column;
            var blanked := if Positive(p.nullTokenCount) then BlankTokens(trimmed) else trimmed;
            Eval(g, blanked, cells[i]) == Eval(g, BlankTokens(Trim(Column)), cells[i])
  {
    var p := Profiled(g, cells, StringType);
    if p.isEmpty {
      AllCounted(cells, (c: Cell) => c.Null?, i);
    } else {
      if !Positive(p.whitespaceCount) {
        NoneCounted(cells, (c: Cell) => Padded(g, c), i);
      }
      if !Positive(p.nullTokenCount) {
        NoneCounted(cells, (c: Cell) => IsToken(g, c), i);
      }
    }
  }

  lemma CastsAgree(g: Engine, cast: Option<Action>, a: Expr, b: Expr, cell: Cell)
    requires Eval(g, a, cell) == Eval(g, b, cell)
    ensures Eval(g, ToBoolean(a), cell) == Eval(g, ToBoolean(b), cell)
    ensures Eval(g, ToDate(a), cell) == Eval(g, ToDate(b), cell)
    ensures Eval(g, ToNumber(a), cell) == Eval(g, ToNumber(b), cell)
  {
  }

  /** The profile-driven plan computes the same column as the reference. */
  lemma PlanComputesTheReference(g: Engine, cells: seq<Cell>, i: nat)
    requires i < |cells| && TextColumn(cells)
    ensures var p := Profiled(g, cells, StringType);
            Eval(g, Expression(Planned(StringType, p).actions), cells[i])
              == Eval(g, ReferenceExpression(ChosenCast(p)), cells[i])
  {
    var p := Profiled(g, cells, StringType);
    ActionsOf(p);
    SkippedStepsAreIdle(g, cells, i);
    var trimmed := if Positive(p.whitespaceCount) || Positive(p.nullTokenCount) then Trim(Column) else Column;
    var blanked := if Positive(p.nullTokenCount) then BlankTokens(trimmed) else trimmed;
    CastsAgree(g, ChosenCast(p), blanked, BlankTokens(Trim(Column)), cells[i]);
  }

  // ----- how much a cast can cost ---------------------------------------------------------------

  /** A real value the cleaned column turned into NULL. */
  predicate Lost(g: Engine, cast: Option<Action>, c: Cell) {
    Real(g, c) && Eval(g, ReferenceExpression(cast), c) == Null
  }

  predicate Kept(g: Engine, cast: Option<Action>, c: Cell) {
    match cast
    case Some(CastToBoolean) => BooleanLike(g, c)
    case Some(CastToDate) => DateLike(g, c)
    case Some(CastToNumber) => NumberLike(g, c)
    case _ => Real(g, c)
  }

  lemma BooleanListsAgree()
    ensures YES + NO == BOOLEAN_LIKE
    ensures YES !! NO
  {
    assert forall w :: w in YES + NO <==> w in BOOLEAN_LIKE;
  }

  /** A real value is either recognised by the profile or lost, never both. */
  lemma LostOrKept(g: Engine, cast: Option<Action>, c: Cell)
    ensures Real(g, c) ==> (Lost(g, cast, c) <==> !Kept(g, cast, c))
    ensures Kept(g, cast, c) ==> Real(g, c)
  {
    BooleanListsAgree();
    if Real(g, c) {
      assert Eval(g, Trim(Column), c) == Text(g.trim(c.s));
      assert Eval(g, BlankTokens(Trim(Column)), c) == Text(g.trim(c.s));
    }
  }

  lemma {:induction false} LostAndKeptAddUp(g: Engine, cast: Option<Action>, cells: seq<Cell>)
    ensures CountWhere(cells, (c: Cell) => Lost(g, cast, c)) + CountWhere(cells, (c: Cell) => Kept(g, cast, c))
         == CountWhere(cells, (c: Cell) => Real(g, c))
  {
    if |cells| > 0 {
      LostAndKeptAddUp(g, cast, cells[..|cells| - 1]);
      LostOrKept(g, cast, cells[|cells| - 1]);
    }
  }

  lemma {:induction false} SameCount(cells: seq<Cell>, p: Cell -> bool, q: Cell -> bool)
    requires forall i :: 0 <= i < |cells| ==> p(cells[i]) == q(cells[i])
    ensures CountWhere(cells, p) == CountWhere(cells, q)
  {
    if |cells| > 0 {
      SameCount(cells[..|cells| - 1], p, q);
    }
  }

  /** At most 5% of a column's real values become NULL, and none when no cast is chosen. */
  lemma CastCostsAtMostFivePercent(g: Engine, cells: seq<Cell>)
    requires TextColumn(cells)
    ensures var cast := ChosenCast(Profiled(g, cells, StringType));
            var lost := CountWhere(cells, (c: Cell) => Lost(g, cast, c));
            && 100 * lost <= 5 * CountWhere(cells, (c: Cell) => Real(g, c))
            && (cast.None? ==> lost == 0)
  {
    var p := Profiled(g, cells, StringType);
    var cast := ChosenCast(p);
    var total := CountWhere(cells, (c: Cell) => Real(g, c));
    var kept := CountWhere(cells, (c: Cell) => Kept(g, cast, c));
    LostAndKeptAddUp(g, cast, cells);
    match cast {
      case Some(CastToBoolean) => SameCount(cells, (c: Cell) => Kept(g, cast, c), (c: Cell) => BooleanLike(g, c));
      case Some(CastToDate) => SameCount(cells, (c: Cell) => Kept(g, cast, c), (c: Cell) => DateLike(g, c));
      case Some(CastToNumber) => SameCount(cells, (c: Cell) => Kept(g, cast, c), (c: Cell) => NumberLike(g, c));
      case _ => SameCount(cells, (c: Cell) => Kept(g, cast, c), (c: Cell) => Real(g, c));
    }
    if cast.Some? {
      assert total > 0 && kept as real / total as real >= COERCION_THRESHOLD;
      FractionBound(kept, total);
    }
  }

  lemma FractionBound(part: nat, whole: nat)
    requires whole > 0 && part as real / whole as real >= COERCION_THRESHOLD
    ensures 100 * part >= 95 * whole
  {
    var q := part as real / whole as real;
    assert q * (whole as real) == part as real;
    assert q * (whole as real) >= COERCION_THRESHOLD * (whole as real);
  }

  // ----- when a step is planned, on the cells --------------------------------------------------------

  lemma ReachesExactlyWhen(part: nat, whole: nat)
    ensures Reaches(Fraction(part, whole)) <==> whole > 0 && 100 * part >= 95 * whole
  {
    if whole > 0 {
      var q, w := part as real / whole as real, whole as real;
      assert q * w == part as real;
      ScaledOrder(q, 0.95, w);
    }
  }

  lemma ScaledOrder(a: real, b: real, w: real)
    requires w > 0.0
    ensures a >= b <==> a * w >= b * w
  {
    assert a * w - b * w == (a - b) * w;
    assert a < b ==> (b - a) * w > 0.0;
  }

  lemma {:induction false} PositiveExactlyWhen(cells: seq<Cell>, p: Cell -> bool)
    ensures CountWhere(cells, p) > 0 <==> exists i :: 0 <= i < |cells| && p(cells[i])
  {
    if |cells| > 0 {
      var n := |cells| - 1;
      PositiveExactlyWhen(cells[..n], p);
      if i :| 0 <= i < |cells| && p(cells[i]) {
        assert i < n ==> cells[..n][i] == cells[i];
      }
    }
  }

  /** At least 95 of a hundred of the column's real values are of the kind, and it has some. */
  ghost predicate Nearly(g: Engine, cells: seq<Cell>, kind: Cell -> bool) {
    var real_ := CountWhere(cells, (c: Cell) => Real(g, c));
    real_ > 0 && 100 * CountWhere(cells, kind) >= 95 * real_
  }

  lemma NothingNearly(g: Engine, cells: seq<Cell>)
    requires CountWhere(cells, (c: Cell) => c.Null?) == |cells|
    ensures CountWhere(cells, (c: Cell) => Real(g, c)) == 0
    ensures forall i :: 0 <= i < |cells| ==> cells[i].Null?
  {
    forall i | 0 <= i < |cells|
      ensures cells[i].Null?
    {
      AllCounted(cells, (c: Cell) => c.Null?, i);
    }
    PositiveExactlyWhen(cells, (c: Cell) => Real(g, c));
  }

  /**
   * A text column is cast to the first of boolean, date and number that nearly all
   * its real values can be read as, and to nothing otherwise; it is trimmed when
   * some value is padded or a placeholder, and rid of placeholders when it has any.
   */
  lemma PlannedExactlyWhen(g: Engine, cells: seq<Cell>)
    ensures var plan := Planned(StringType, Profiled(g, cells, StringType));
            var booleans := Nearly(g, cells, (c: Cell) => BooleanLike(g, c));
            var dates := Nearly(g, cells, (c: Cell) => DateLike(g, c)) && !booleans;
            var numbers := Nearly(g, cells, (c: Cell) => NumberLike(g, c)) && !booleans && !dates;
            var tokens := exists i :: 0 <= i < |cells| && IsToken(g, cells[i]);
            var padded := exists i :: 0 <= i < |cells| && Padded(g, cells[i]);
            && plan.actions == (if padded || tokens then [TrimWhitespace] else [])
                             + (if tokens then [NormalizeNullTokens] else [])
                             + (if booleans then [CastToBoolean] else if dates then [CastToDate]
                                else if numbers then [CastToNumber] else [])
            && plan.resultingType == if booleans then BooleanType else if dates then DateType
                                     else if numbers then DecimalType else StringType
  {
    var nulls := CountWhere(cells, (c: Cell) => c.Null?);
    var real_ := CountWhere(cells, (c: Cell) => Real(g, c));
    PositiveExactlyWhen(cells, (c: Cell) => IsToken(g, c));
    PositiveExactlyWhen(cells, (c: Cell) => Padded(g, c));
    if nulls == |cells| && |cells| > 0 {
      NothingNearly(g, cells);
    } else {
      ReachesExactlyWhen(CountWhere(cells, (c: Cell) => BooleanLike(g, c)), real_);
      ReachesExactlyWhen(CountWhere(cells, (c: Cell) => DateLike(g, c)), real_);
      ReachesExactlyWhen(CountWhere(cells, (c: Cell) => NumberLike(g, c)), real_);
    }
    hide CountWhere;
    hide Reaches;
    hide Fraction;
  }

  /**
   * The profile of a column: it is empty when it has rows and all are NULL; a text
   * column that is not has its placeholders and padded values counted, and each
   * kind's share of its real values, if it has any.
   */
  lemma ProfileIs(g: Engine, cells: seq<Cell>, columnType: ColumnType)
    ensures var p := Profiled(g, cells, columnType);
            var empty := |cells| > 0 && forall i :: 0 <= i < |cells| ==> cells[i].Null?;
            && p.rowCount == |cells| && p.nullCount == CountWhere(cells, (c: Cell) => c.Null?)
            && (p.isEmpty <==> empty)
            && (empty || columnType != StringType ==>
                  p.nullTokenCount.None? && p.whitespaceCount.None?
                  && p.numericLike.None? && p.dateLike.None? && p.booleanLike.None?)
            && (!empty && columnType == StringType ==>
                  && p.nullTokenCount == Some(CountWhere(cells, (c: Cell) => IsToken(g, c)))
                  && p.whitespaceCount == Some(CountWhere(cells, (c: Cell) => Padded(g, c)))
                  && IsShare(p.numericLike, g, cells, (c: Cell) => NumberLike(g, c))
                  && IsShare(p.dateLike, g, cells, (c: Cell) => DateLike(g, c))
                  && IsShare(p.booleanLike, g, cells, (c: Cell) => BooleanLike(g, c)))
  {
    hide CountWhere;
    hide Fraction;
    hide IsShare;
    AllNullExactlyWhen(cells);
    FractionIsShare(g, cells, (c: Cell) => NumberLike(g, c));
    FractionIsShare(g, cells, (c: Cell) => DateLike(g, c));
    FractionIsShare(g, cells, (c: Cell) => BooleanLike(g, c));
  }

  lemma AllNullExactlyWhen(cells: seq<Cell>)
    ensures CountWhere(cells, (c: Cell) => c.Null?) == |cells| <==> forall i :: 0 <= i < |cells| ==> cells[i].Null?
  {
    NullsAndOthers(cells);
    PositiveExactlyWhen(cells, (c: Cell) => !c.Null?);
    hide CountWhere;
  }

  /** The kind's share of the real values; none when there are none. */
  ghost predicate IsShare(share: Option<real>, g: Engine, cells: seq<Cell>, kind: Cell -> bool) {
    var real_ := CountWhere(cells, (c: Cell) => Real(g, c));
    && (share.None? <==> real_ == 0)
    && (share.Some? ==> share.value * real_ as real == CountWhere(cells, kind) as real)
  }

  lemma FractionIsShare(g: Engine, cells: seq<Cell>, kind: Cell -> bool)
    ensures IsShare(Fraction(CountWhere(cells, kind), CountWhere(cells, (c: Cell) => Real(g, c))), g, cells, kind)
  {
    hide CountWhere;
    var part, whole := CountWhere(cells, kind) as real, CountWhere(cells, (c: Cell) => Real(g, c)) as real;
    assert whole != 0.0 ==> part / whole * whole == part;
  }

  lemma {:induction false} NullsAndOthers(cells: seq<Cell>)
    ensures CountWhere(cells, (c: Cell) => c.Null?) + CountWhere(cells, (c: Cell) => !c.Null?) == |cells|
  {
    if |cells| > 0 {
      NullsAndOthers(cells[..|cells| - 1]);
    }
  }

  /** Columns the reader has typed are left alone. */
  lemma TypedColumnsAreLeftAlone(columnType: ColumnType, p: Profile)
    requires columnType != StringType
    ensures Planned(columnType, p) == ColumnPlan([], columnType)
  {
  }

  // ----- rows and duplicates -----------------------------------------------------------------------

  type TableRow = seq<Cell>

  /** SELECT DISTINCT: every row once, first occurrence kept. */
  function Distinct(rows: seq<TableRow>): (r: seq<TableRow>)
    ensures forall x :: x in r <==> x in rows
    ensures |r| <= |rows|
  {
    if |rows| == 0 then []
    else
      var n := |rows| - 1;
      var front := Distinct(rows[..n]);
      assert rows == rows[..n] + [rows[n]];
      if rows[n] in rows[..n] then front else front + [rows[n]]
  }

  function RowSet(rows: seq<TableRow>): set<TableRow> {
    set r | r in rows
  }

  lemma {:induction false} DistinctHasNoRepeats(rows: seq<TableRow>)
    ensures |Distinct(rows)| == |RowSet(rows)|
    ensures forall i, j :: 0 <= i < j < |Distinct(rows)| ==> Distinct(rows)[i] != Distinct(rows)[j]
  {
    if |rows| > 0 {
      var n := |rows| - 1;
      DistinctHasNoRepeats(rows[..n]);
      assert rows == rows[..n] + [rows[n]];
      assert RowSet(rows) == RowSet(rows[..n]) + {rows[n]};
    }
  }

  function Duplicates(rows: seq<TableRow>): nat {
    |rows| - |Distinct(rows)|
  }

  function ColumnOf(rows: seq<TableRow>, j: nat): (r: seq<Cell>)
    requires forall row :: row in rows ==> |row| > j
    ensures |r| == |rows|
  {
    seq(|rows|, i requires 0 <= i < |rows| => assert rows[i] in rows; rows[i][j])
  }

  function Shaped(rows: seq<TableRow>, width: nat): bool {
    forall row :: row in rows ==> |row| == width
  }

  function PlansFor(g: Engine, rows: seq<TableRow>, types: seq<ColumnType>): (r: seq<ColumnPlan>)
    requires Shaped(rows, |types|)
    ensures |r| == |types|
  {
    seq(|types|, j requires 0 <= j < |types| => Planned(types[j], Profiled(g, ColumnOf(rows, j), types[j])))
  }

  function CleanRow(g: Engine, plans: seq<ColumnPlan>, row: TableRow): (r: TableRow)
    requires |row| == |plans|
    ensures |r| == |row|
  {
    seq(|row|, j requires 0 <= j < |row| => Eval(g, Expression(plans[j].actions), row[j]))
  }

  function Projected(g: Engine, plans: seq<ColumnPlan>, rows: seq<TableRow>): (r: seq<TableRow>)
    requires Shaped(rows, |plans|)
    ensures |r| == |rows|
  {
    seq(|rows|, i requires 0 <= i < |rows| => assert rows[i] in rows; CleanRow(g, plans, rows[i]))
  }

  function CleanTable(g: Engine, plans: seq<ColumnPlan>, deduplicate: bool, rows: seq<TableRow>): seq<TableRow>
    requires Shaped(rows, |plans|)
  {
    if deduplicate then Distinct(Projected(g, plans, rows)) else Projected(g, plans, rows)
  }

  datatype Outcome = Outcome(plans: seq<ColumnPlan>, deduplicated: bool, clean: seq<TableRow>,
                             rawRows: nat, cleanRows: nat, duplicates: nat)

  /** Profiles every column, then plans every column. */
  method PlanCleaning(g: Engine, raw: seq<TableRow>, types: seq<ColumnType>) returns (plans: seq<ColumnPlan>)
    requires Shaped(raw, |types|)
    ensures plans == PlansFor(g, raw, types)
  {
    hide Profiled;
    hide Planned;
    var profiles: seq<Profile> := [];
    for j := 0 to |types|
      invariant |profiles| == j
      invariant forall k :: 0 <= k < j ==> profiles[k] == Profiled(g, ColumnOf(raw, k), types[k])
    {
      var profile := ProfileColumn(g, ColumnOf(raw, j), types[j]);
      profiles := profiles + [profile.Snapshot()];
    }
    plans := [];
    for j := 0 to |types|
      invariant |plans| == j
      invariant forall k :: 0 <= k < j ==> plans[k] == PlansFor(g, raw, types)[k]
    {
      var plan := PlanColumn(types[j], profiles[j]);
      plans := plans + [plan];
    }
  }

  method RunPipeline(g: Engine, raw: seq<TableRow>, types: seq<ColumnType>, deduplicate: bool) returns (o: Outcome)
    requires Shaped(raw, |types|)
    ensures o.plans == PlansFor(g, raw, types)
    ensures o.duplicates == Duplicates(raw) && o.rawRows == |raw|
    ensures o.deduplicated == (deduplicate && o.duplicates > 0)
    ensures o.clean == CleanTable(g, o.plans, o.deduplicated, raw) && o.cleanRows == |o.clean|
    ensures o.cleanRows <= o.rawRows - if o.deduplicated then o.duplicates else 0
    ensures !o.deduplicated ==> o.cleanRows == o.rawRows && o.clean == Projected(g, o.plans, raw)
    ensures o.deduplicated ==>
              && (forall row :: row in o.clean <==> row in Projected(g, o.plans, raw))
              && forall i, j :: 0 <= i < j < |o.clean| ==> o.clean[i] != o.clean[j]
  {
    hide Distinct;
    hide PlansFor;
    hide CleanRow;
    var duplicates := |raw| - |Distinct(raw)|;
    var plans := PlanCleaning(g, raw, types);
    var distinct := deduplicate && duplicates > 0;
    var clean := if distinct then Distinct(Projected(g, plans, raw)) else Projected(g, plans, raw);
    DistinctAfterCleaning(g, plans, raw);
    DistinctHasNoRepeats(Projected(g, plans, raw));
    return Outcome(plans, distinct, clean, |raw|, |clean|, duplicates);
  }

  /** Every cell of the clean table is the reference's, column by column. */
  lemma CleanTableIsTheReference(g: Engine, raw: seq<TableRow>, types: seq<ColumnType>, i: nat, j: nat)
    requires Shaped(raw, |types|) && i < |raw| && j < |types|
    requires types[j] == StringType ==> TextColumn(ColumnOf(raw, j))
    ensures var clean := Projected(g, PlansFor(g, raw, types), raw);
            var column := ColumnOf(raw, j);
            |clean[i]| == |types|
            && clean[i][j] == if types[j] != StringType then column[i]
                              else Eval(g, ReferenceExpression(ChosenCast(Profiled(g, column, StringType))), column[i])
  {
    assert raw[i] in raw;
    var column := ColumnOf(raw, j);
    if types[j] == StringType {
      PlanComputesTheReference(g, column, i);
    }
  }

  lemma ImageSize(a: set<TableRow>, f: TableRow -> TableRow)
    ensures |set x | x in a :: f(x)| <= |a|
    ensures |set x | x in a :: f(x)| == |a| <==> forall x, y :: x in a && y in a && f(x) == f(y) ==> x == y
  {
    if a != {} {
      var z :| z in a;
      var b := a - {z};
      var image, rest := set x | x in a :: f(x), set x | x in b :: f(x);
      ImageSize(b, f);
      assert image == rest + {f(z)};
      if f(z) in rest {
        var y :| y in b && f(y) == f(z);
        assert y in a && z in a && y != z;
        assert image == rest;
      } else {
        assert |image| == |rest| + 1;
        forall x, y | x in a && y in a && f(x) == f(y) && x != y
          ensures x in b && y in b
        {
          assert x == z ==> f(y) in rest;
          assert y == z ==> f(x) in rest;
        }
      }
    }
  }

  /** Cleaning merges distinct raw rows. */
  ghost predicate MergesRows(g: Engine, plans: seq<ColumnPlan>, raw: seq<TableRow>)
    requires Shaped(raw, |plans|)
  {
    exists x, y :: x in raw && y in raw && x != y && CleanRow(g, plans, x) == CleanRow(g, plans, y)
  }

  /**
   * DISTINCT on the cleaned rows leaves at most the distinct raw rows, and
   * exactly that many when cleaning merges none.
   */
  lemma DistinctAfterCleaning(g: Engine, plans: seq<ColumnPlan>, raw: seq<TableRow>)
    requires Shaped(raw, |plans|)
    ensures var clean := Distinct(Projected(g, plans, raw));
            && |clean| <= |raw| - Duplicates(raw)
            && (|clean| == |raw| - Duplicates(raw) <==> !MergesRows(g, plans, raw))
  {
    hide CleanRow;
    hide Distinct;
    DistinctHasNoRepeats(raw);
    DistinctHasNoRepeats(Projected(g, plans, raw));
    var f := (x: TableRow) => if |x| == |plans| then CleanRow(g, plans, x) else x;
    ImageSize(RowSet(raw), f);
    CleanedRowSet(g, plans, raw, f);
    assert MergesRows(g, plans, raw)
      <==> exists x, y :: x in RowSet(raw) && y in RowSet(raw) && f(x) == f(y) && x != y;
  }

  lemma CleanedRowSet(g: Engine, plans: seq<ColumnPlan>, raw: seq<TableRow>, f: TableRow -> TableRow)
    requires Shaped(raw, |plans|)
    requires forall x :: x in raw ==> f(x) == CleanRow(g, plans, x)
    ensures RowSet(Projected(g, plans, raw)) == set x | x in RowSet(raw) :: f(x)
  {
    hide CleanRow;
    var clean, image := Projected(g, plans, raw), set x | x in RowSet(raw) :: f(x);
    forall y | y in clean
      ensures y in image
    {
      var i :| 0 <= i < |clean| && clean[i] == y;
      assert raw[i] in raw && raw[i] in RowSet(raw) && f(raw[i]) == y;
    }
    forall y | y in image
      ensures y in clean
    {
      var x :| x in RowSet(raw) && f(x) == y;
      var i :| 0 <= i < |raw| && raw[i] == x;
      assert clean[i] == y;
    }
  }

  lemma DistinctIsDistinct(rows: seq<TableRow>)
    ensures Duplicates(Distinct(rows)) == 0
  {
    hide Distinct;
    DistinctHasNoRepeats(rows);
    DistinctHasNoRepeats(Distinct(rows));
    assert RowSet(Distinct(rows)) == RowSet(rows);
  }

  /**
   * Whether rows are deduplicated is decided on the raw table. So with
   * deduplication asked for, the clean table has repeats exactly when the raw
   * one had none and cleaning made some; without, when either is the case.
   */
  lemma CleanTableRepeatsExactlyWhen(g: Engine, plans: seq<ColumnPlan>, raw: seq<TableRow>, deduplicate: bool)
    requires Shaped(raw, |plans|)
    ensures var clean := CleanTable(g, plans, deduplicate && Duplicates(raw) > 0, raw);
            Duplicates(clean) > 0
            <==> if deduplicate then Duplicates(raw) == 0 && MergesRows(g, plans, raw)
                 else Duplicates(raw) > 0 || MergesRows(g, plans, raw)
  {
    DistinctAfterCleaning(g, plans, raw);
    DistinctIsDistinct(Projected(g, plans, raw));
    hide Distinct;
    hide MergesRows;
  }

  /** With deduplication asked for: the full line, and the rows that stay. */
  lemma RepeatsMadeByCleaningStay(g: Engine, plans: seq<ColumnPlan>, raw: seq<TableRow>)
    requires Shaped(raw, |plans|)
    ensures var clean := CleanTable(g, plans, Duplicates(raw) > 0, raw);
            && (Duplicates(raw) == 0 ==> |clean| == |raw|)
            && (Duplicates(clean) > 0 <==> Duplicates(raw) == 0 && MergesRows(g, plans, raw))
  {
    CleanTableRepeatsExactlyWhen(g, plans, raw, true);
  }

  // ----- which cells cleaning makes equal ---------------------------------------------------------------

  /** What a cast can read. */
  predicate Readable(g: Engine, cast: Action, s: string) {
    match cast
    case CastToBoolean => g.lower(s) in YES + NO
    case CastToDate => g.tryDate(s).Some?
    case CastToNumber => g.tryNumber(g.strip(s)).Some?
    case _ => true
  }

  /** Two readable texts on the same side, of the same day, or with the same number. */
  predicate SameReading(g: Engine, cast: Action, s: string, t: string) {
    match cast
    case CastToBoolean => g.lower(s) in YES <==> g.lower(t) in YES
    case CastToDate => g.tryDate(s) == g.tryDate(t)
    case CastToNumber => g.tryNumber(g.strip(s)) == g.tryNumber(g.strip(t))
    case _ => s == t
  }

  /** Blank, or nothing the column's cast can read. */
  predicate WithoutValue(g: Engine, actions: seq<Action>, cell: Cell) {
    var c := Stripped(g, actions, cell);
    || Blank(g, actions, cell)
    || (CastIn(actions).Some? && (!c.Text? || !Readable(g, CastIn(actions).value, c.s)))
  }

  /** Both without a value, or both with one: the same reading under a cast, else the same text once trimmed. */
  predicate CellsMeet(g: Engine, actions: seq<Action>, a: Cell, b: Cell) {
    var c, d := Stripped(g, actions, a), Stripped(g, actions, b);
    if WithoutValue(g, actions, a) || WithoutValue(g, actions, b) then
      WithoutValue(g, actions, a) && WithoutValue(g, actions, b)
    else if CastIn(actions).Some? then SameReading(g, CastIn(actions).value, c.s, d.s)
    else c == d
  }

  lemma NullExactlyWithoutValue(g: Engine, actions: seq<Action>, cell: Cell)
    ensures Cleaned(g, actions, cell) == Null <==> WithoutValue(g, actions, cell)
  {
  }

  lemma CellsMeetExactlyWhen(g: Engine, actions: seq<Action>, a: Cell, b: Cell)
    ensures Cleaned(g, actions, a) == Cleaned(g, actions, b) <==> CellsMeet(g, actions, a, b)
  {
    NullExactlyWithoutValue(g, actions, a);
    NullExactlyWithoutValue(g, actions, b);
    assert YES !! NO;
  }

  ghost predicate RowsMeet(g: Engine, plans: seq<ColumnPlan>, x: TableRow, y: TableRow) {
    |x| == |y| == |plans| && forall j :: 0 <= j < |plans| ==> CellsMeet(g, plans[j].actions, x[j], y[j])
  }

  lemma RowsMeetExactlyWhen(g: Engine, plans: seq<ColumnPlan>, x: TableRow, y: TableRow)
    requires |x| == |y| == |plans|
    ensures CleanRow(g, plans, x) == CleanRow(g, plans, y) <==> RowsMeet(g, plans, x, y)
  {
    hide Cleaned;
    hide CellsMeet;
    hide Expression;
    hide Eval;
    var p, q := CleanRow(g, plans, x), CleanRow(g, plans, y);
    forall j | 0 <= j < |plans|
      ensures p[j] == q[j] <==> CellsMeet(g, plans[j].actions, x[j], y[j])
    {
      ExpressionCleans(g, plans[j].actions, x[j]);
      ExpressionCleans(g, plans[j].actions, y[j]);
      CellsMeetExactlyWhen(g, plans[j].actions, x[j], y[j]);
    }
  }

  /** Cleaning merges raw rows exactly when two different ones meet in every cell. */
  lemma MergesExactlyWhen(g: Engine, plans: seq<ColumnPlan>, raw: seq<TableRow>)
    requires Shaped(raw, |plans|)
    ensures MergesRows(g, plans, raw)
       <==> exists x, y :: x in raw && y in raw && x != y && RowsMeet(g, plans, x, y)
  {
    hide CleanRow;
    hide RowsMeet;
    forall x, y | x in raw && y in raw
      ensures CleanRow(g, plans, x) == CleanRow(g, plans, y) <==> RowsMeet(g, plans, x, y)
    {
      RowsMeetExactlyWhen(g, plans, x, y);
    }
  }

  /** Two rows that differ in a leading space. */
  function Padding(): seq<TableRow> {
    [[Text(" a")], [Text("a")]]
  }

  lemma PaddedPlanTrims(g: Engine)
    requires g.trim(" a") == "a" == g.trim("a")
    ensures Shaped(Padding(), 1)
    ensures TrimWhitespace in PlansFor(g, Padding(), [StringType])[0].actions
  {
    assert Shaped(Padding(), 1);
    var cells := ColumnOf(Padding(), 0);
    assert cells == [Text(" a"), Text("a")];
    var p := Profiled(g, cells, StringType);
    assert Padded(g, cells[0]);
    SomeCounted(cells, (c: Cell) => Padded(g, c), 0);
    SomeMissed(cells, (c: Cell) => c.Null?, 0);
    ActionsOf(p);
  }

  lemma {:induction false} SomeMissed(cells: seq<Cell>, p: Cell -> bool, i: nat)
    requires i < |cells| && !p(cells[i])
    ensures CountWhere(cells, p) < |cells|
  {
    var n := |cells| - 1;
    if i < n {
      SomeMissed(cells[..n], p, i);
    }
  }

  lemma {:induction false} SomeCounted(cells: seq<Cell>, p: Cell -> bool, i: nat)
    requires i < |cells| && p(cells[i])
    ensures CountWhere(cells, p) > 0
  {
    var n := |cells| - 1;
    if i < n {
      SomeCounted(cells[..n], p, i);
    }
  }

  /** In any engine whose trim removes that space, they stay apart in the raw count and end up as repeats. */
  lemma PaddingLeavesRepeats(g: Engine)
    requires g.trim(" a") == "a" == g.trim("a")
    ensures Shaped(Padding(), 1) && Duplicates(Padding()) == 0
    ensures Duplicates(CleanTable(g, PlansFor(g, Padding(), [StringType]), Duplicates(Padding()) > 0, Padding())) > 0
  {
    PaddedPlanTrims(g);
    var raw, plans := Padding(), PlansFor(g, Padding(), [StringType]);
    assert raw[0] in raw && raw[1] in raw && raw[0] != raw[1];
    assert Stripped(g, plans[0].actions, raw[0][0]) == Text("a") == Stripped(g, plans[0].actions, raw[1][0]);
    assert RowsMeet(g, plans, raw[0], raw[1]);
    MergesExactlyWhen(g, plans, raw);
    PaddingHasNoDuplicates();
    CleanTableRepeatsExactlyWhen(g, plans, raw, true);
  }

  lemma PaddingHasNoDuplicates()
    ensures Duplicates(Padding()) == 0
  {
    var raw := Padding();
    assert raw[..1] == [raw[0]] && raw[..1][..0] == [];
    assert Distinct(raw[..1]) == [raw[0]];
    assert raw[1] !in raw[..1];
  }
}
