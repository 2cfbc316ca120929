/**
 * The star view of data/star.py: the compiler from a definition to a query, and
 * what the query means under SQL's NULL semantics.
 */
module StarSchema {
  import opened Options
  import opened Relational

  datatype Join = Join(dimensionTable: string, factColumn: string, dimensionColumn: string, columns: seq<string>)
  datatype Definition = Definition(factTable: string, factColumns: seq<string>, joins: seq<Join>)

  /** One SELECT item: `f.column`, or `d<index>.column AS name`. */
  datatype Item = FactItem(column: string) | DimensionItem(index: nat, column: string, name: string)
  /** `LEFT JOIN table d<index> ON f.factKey = d<index>.dimensionKey`. */
  datatype Clause = Clause(table: string, factKey: string, dimensionKey: string)
  datatype Query = Query(view: string, fact: string, projection: seq<Item>, clauses: seq<Clause>)
  datatype Error = UnsafeIdentifier(name: string)

  // ----- the compiler ----------------------------------------------------------------------

  function Prefixed(table: string, column: string): string {
    table + "_" + column
  }

  predicate SafeJoin(join: Join) {
    && Identifier(join.dimensionTable) && Identifier(join.factColumn) && Identifier(join.dimensionColumn)
    && forall c :: c in join.columns ==> Identifier(c)
  }

  predicate Safe(d: Definition) {
    && Identifier(d.factTable)
    && (forall c :: c in d.factColumns ==> Identifier(c))
    && forall j :: j in d.joins ==> SafeJoin(j)
  }

  function FactItems(columns: seq<string>): (r: seq<Item>)
    ensures |r| == |columns|
  {
    seq(|columns|, i requires 0 <= i < |columns| => FactItem(columns[i]))
  }

  function JoinItems(join: Join, index: nat): (r: seq<Item>)
    ensures |r| == |join.columns|
  {
    seq(|join.columns|, i requires 0 <= i < |join.columns| =>
      DimensionItem(index, join.columns[i], Prefixed(join.dimensionTable, join.columns[i])))
  }

  function DimensionItems(joins: seq<Join>): seq<Item> {
    if |joins| == 0 then []
    else DimensionItems(joins[..|joins| - 1]) + JoinItems(joins[|joins| - 1], |joins| - 1)
  }

  function Clauses(joins: seq<Join>): (r: seq<Clause>)
    ensures |r| == |joins|
  {
    seq(|joins|, i requires 0 <= i < |joins| =>
      Clause(joins[i].dimensionTable, joins[i].factColumn, joins[i].dimensionColumn))
  }

  function Compiled(d: Definition): Query {
    Query(d.factTable, d.factTable, FactItems(d.factColumns) + DimensionItems(d.joins), Clauses(d.joins))
  }

  lemma OneMoreJoin(joins: seq<Join>, k: nat)
    requires k < |joins|
    ensures DimensionItems(joins[..k + 1]) == DimensionItems(joins[..k]) + JoinItems(joins[k], k)
    ensures Clauses(joins[..k + 1])
         == Clauses(joins[..k]) + [Clause(joins[k].dimensionTable, joins[k].factColumn, joins[k].dimensionColumn)]
  {
    assert joins[..k + 1][..k] == joins[..k];
  }

  /** One pass of the loop over joins: the names are validated, then every column gets a prefixed item. */
  method ProjectDimension(join: Join, index: nat) returns (result: Result<seq<Item>, Error>)
    ensures result.Ok? <==> SafeJoin(join)
    ensures result.Ok? ==> result.value == JoinItems(join, index)
    ensures result.Err? ==> !Identifier(result.error.name)
    ensures result.Err? ==>
              result.error.name in {join.dimensionTable, join.factColumn, join.dimensionColumn}
              || result.error.name in join.columns
  {
    hide Identifier;
    if !Identifier(join.dimensionTable) {
      return Err(UnsafeIdentifier(join.dimensionTable));
    }
    if !Identifier(join.factColumn) {
      return Err(UnsafeIdentifier(join.factColumn));
    }
    if !Identifier(join.dimensionColumn) {
      return Err(UnsafeIdentifier(join.dimensionColumn));
    }
    var items: seq<Item> := [];
    for k := 0 to |join.columns|
      invariant forall m :: 0 <= m < k ==> Identifier(join.columns[m])
      invariant items == JoinItems(join, index)[..k]
    {
      if !Identifier(join.columns[k]) {
        return Err(UnsafeIdentifier(join.columns[k]));
      }
      items := items + [DimensionItem(index, join.columns[k], Prefixed(join.dimensionTable, join.columns[k]))];
    }
    return Ok(items);
  }

  /** Every name that goes into the SQL text. */
  ghost predicate Mentions(d: Definition, name: string) {
    || name == d.factTable || name in d.factColumns
    || exists j :: j in d.joins && (name == j.dimensionTable || name == j.factColumn || name == j.dimensionColumn
                                    || name in j.columns)
  }

  lemma SafeExactlyWhenItsNamesAre(d: Definition)
    ensures Safe(d) <==> forall name :: Mentions(d, name) ==> Identifier(name)
  {
    hide Identifier;
    if forall name :: Mentions(d, name) ==> Identifier(name) {
      assert Mentions(d, d.factTable);
      forall j | j in d.joins
        ensures SafeJoin(j)
      {
        assert Mentions(d, j.dimensionTable) && Mentions(d, j.factColumn) && Mentions(d, j.dimensionColumn);
        assert forall c :: c in j.columns ==> Mentions(d, c);
      }
      assert forall c :: c in d.factColumns ==> Mentions(d, c);
    }
  }

  method BuildStarSql(definition: Definition) returns (result: Result<Query, Error>)
    ensures result.Ok? <==> Safe(definition)
    ensures result.Ok? <==> forall name :: Mentions(definition, name) ==> Identifier(name)
    ensures result.Err? ==> Mentions(definition, result.error.name)
    ensures result.Ok? ==> result.value == Compiled(definition)
    ensures result.Err? ==> !Identifier(result.error.name)
  {
    hide Identifier;
    SafeExactlyWhenItsNamesAre(definition);
    var fact := definition.factTable;
    if !Identifier(fact) {
      return Err(UnsafeIdentifier(fact));
    }
    var projection: seq<Item> := [];
    for i := 0 to |definition.factColumns|
      invariant forall k :: 0 <= k < i ==> Identifier(definition.factColumns[k])
      invariant projection == FactItems(definition.factColumns[..i])
    {
      if !Identifier(definition.factColumns[i]) {
        return Err(UnsafeIdentifier(definition.factColumns[i]));
      }
      projection := projection + [FactItem(definition.factColumns[i])];
    }
    assert definition.factColumns[..|definition.factColumns|] == definition.factColumns;
    var clauses: seq<Clause> := [];
    assert definition.joins[..0] == [];
    hide FactItems;
    hide DimensionItems;
    hide Clauses;
    hide SafeJoin;
    for index := 0 to |definition.joins|
      invariant forall k :: 0 <= k < index ==> SafeJoin(definition.joins[k])
      invariant projection == FactItems(definition.factColumns) + DimensionItems(definition.joins[..index])
      invariant clauses == Clauses(definition.joins[..index])
    {
      var join := definition.joins[index];
      assert join in definition.joins;
      var items := ProjectDimension(join, index);
      if items.Err? {
        return Err(items.error);
      }
      OneMoreJoin(definition.joins, index);
      projection := projection + items.value;
      clauses := clauses + [Clause(join.dimensionTable, join.factColumn, join.dimensionColumn)];
    }
    assert definition.joins[..|definition.joins|] == definition.joins;
    return Ok(Query(fact, fact, projection, clauses));
  }

  // ----- what a query means --------------------------------------------------------------------

  /** A fact row with the dimension row each join so far attached, or none. */
  datatype Env = Env(fact: Row, dims: seq<Option<Row>>)

  function Matches(rows: seq<Row>, column: string, key: Cell): seq<Row> {
    if |rows| == 0 then []
    else (if SqlEquals(key, At(rows[0], column)) then [rows[0]] else []) + Matches(rows[1..], column, key)
  }

  function Attach(e: Env, rows: seq<Row>): (r: seq<Env>)
    ensures |r| == |rows|
  {
    seq(|rows|, i requires 0 <= i < |rows| => e.(dims := e.dims + [Some(rows[i])]))
  }

  /** LEFT JOIN of one row: every match, or the row with NULLs. */
  function JoinRow(e: Env, c: Clause, db: Database): seq<Env> {
    var found := Matches(RowsOf(db, c.table), c.dimensionKey, At(e.fact, c.factKey));
    if |found| == 0 then [e.(dims := e.dims + [None])] else Attach(e, found)
  }

  function LeftJoin(envs: seq<Env>, c: Clause, db: Database): seq<Env> {
    if |envs| == 0 then [] else JoinRow(envs[0], c, db) + LeftJoin(envs[1..], c, db)
  }

  function Chain(envs: seq<Env>, clauses: seq<Clause>, db: Database): seq<Env>
    decreases |clauses|
  {
    if |clauses| == 0 then envs else Chain(LeftJoin(envs, clauses[0], db), clauses[1..], db)
  }

  function Start(rows: seq<Row>): (r: seq<Env>)
    ensures |r| == |rows|
  {
    seq(|rows|, i requires 0 <= i < |rows| => Env(rows[i], []))
  }

  function Read(item: Item, e: Env): Cell {
    match item
    case FactItem(column) => At(e.fact, column)
    case DimensionItem(index, column, _) =>
      if index < |e.dims| && e.dims[index].Some? then At(e.dims[index].value, column) else Null
  }

  function Project(items: seq<Item>, e: Env): (r: seq<Cell>)
    ensures |r| == |items|
  {
    seq(|items|, i requires 0 <= i < |items| => Read(items[i], e))
  }

  function Output(envs: seq<Env>, items: seq<Item>): (r: seq<seq<Cell>>)
    ensures |r| == |envs|
  {
    seq(|envs|, i requires 0 <= i < |envs| => Project(items, envs[i]))
  }

  function Evaluate(q: Query, db: Database): seq<seq<Cell>> {
    Output(Chain(Start(RowsOf(db, q.fact)), q.clauses, db), q.projection)
  }

  function NameOf(item: Item): string {
    match item
    case FactItem(column) => column
    case DimensionItem(_, _, name) => name
  }

  function Header(items: seq<Item>): (r: seq<string>)
    ensures |r| == |items|
  {
    seq(|items|, i requires 0 <= i < |items| => NameOf(items[i]))
  }

  // ----- how many rows each fact row becomes ---------------------------------------------------------

  function Weight(f: Row, c: Clause, db: Database): nat {
    var m := |Matches(RowsOf(db, c.table), c.dimensionKey, At(f, c.factKey))|;
    if m == 0 then 1 else m
  }

  function FanOut(f: Row, clauses: seq<Clause>, db: Database): nat {
    if |clauses| == 0 then 1 else Weight(f, clauses[0], db) * FanOut(f, clauses[1..], db)
  }

  function TotalFanOut(rows: seq<Row>, clauses: seq<Clause>, db: Database): nat {
    if |rows| == 0 then 0 else FanOut(rows[0], clauses, db) + TotalFanOut(rows[1..], clauses, db)
  }

  /** No fact row meets two rows of one dimension. */
  ghost predicate SingleMatches(rows: seq<Row>, clauses: seq<Clause>, db: Database) {
    forall f, c :: f in rows && c in clauses ==>
      |Matches(RowsOf(db, c.table), c.dimensionKey, At(f, c.factKey))| <= 1
  }

  lemma {:induction false} LeftJoinAppend(a: seq<Env>, b: seq<Env>, c: Clause, db: Database)
    ensures LeftJoin(a + b, c, db) == LeftJoin(a, c, db) + LeftJoin(b, c, db)
  {
    hide JoinRow;
    if |a| == 0 {
      assert a + b == b;
    } else {
      LeftJoinAppend(a[1..], b, c, db);
      assert (a + b)[1..] == a[1..] + b;
    }
  }

  lemma {:induction false} ChainAppend(a: seq<Env>, b: seq<Env>, clauses: seq<Clause>, db: Database)
    ensures Chain(a + b, clauses, db) == Chain(a, clauses, db) + Chain(b, clauses, db)
    decreases |clauses|
  {
    if |clauses| != 0 {
      LeftJoinAppend(a, b, clauses[0], db);
      ChainAppend(LeftJoin(a, clauses[0], db), LeftJoin(b, clauses[0], db), clauses[1..], db);
    }
  }

  lemma {:induction false} LeftJoinOfOneFact(envs: seq<Env>, f: Row, c: Clause, db: Database)
    requires forall e :: e in envs ==> e.fact == f
    ensures |LeftJoin(envs, c, db)| == |envs| * Weight(f, c, db)
    ensures forall e :: e in LeftJoin(envs, c, db) ==> e.fact == f
  {
    if |envs| != 0 {
      LeftJoinOfOneFact(envs[1..], f, c, db);
      JoinRowOfFact(envs[0], c, db);
      hide JoinRow;
      hide Weight;
      OneMoreTimes(|envs| - 1, Weight(f, c, db));
      forall e | e in LeftJoin(envs, c, db)
        ensures e.fact == f
      {
        assert e in JoinRow(envs[0], c, db) || e in LeftJoin(envs[1..], c, db);
      }
    }
  }

  lemma OneMoreTimes(n: nat, w: nat)
    ensures (n + 1) * w == w + n * w
  {
  }

  lemma TimesAssociate(a: nat, b: nat, c: nat)
    ensures (a * b) * c == a * (b * c)
  {
  }

  lemma JoinRowOfFact(e: Env, c: Clause, db: Database)
    ensures |JoinRow(e, c, db)| == Weight(e.fact, c, db)
    ensures forall x :: x in JoinRow(e, c, db) ==> x.fact == e.fact
  {
  }

  /** The rows grown from one fact row all carry it, and there are as many as its fan-out. */
  lemma {:induction false} ChainOfOneFact(envs: seq<Env>, f: Row, clauses: seq<Clause>, db: Database)
    requires forall e :: e in envs ==> e.fact == f
    ensures |Chain(envs, clauses, db)| == |envs| * FanOut(f, clauses, db)
    ensures forall e :: e in Chain(envs, clauses, db) ==> e.fact == f
    decreases |clauses|
  {
    if |clauses| != 0 {
      hide LeftJoin;
      hide Weight;
      LeftJoinOfOneFact(envs, f, clauses[0], db);
      ChainOfOneFact(LeftJoin(envs, clauses[0], db), f, clauses[1..], db);
      TimesAssociate(|envs|, Weight(f, clauses[0], db), FanOut(f, clauses[1..], db));
    }
  }

  lemma ChainByFact(rows: seq<Row>, clauses: seq<Clause>, db: Database)
    requires |rows| > 0
    ensures var grown := Chain([Env(rows[0], [])], clauses, db);
            && Chain(Start(rows), clauses, db) == grown + Chain(Start(rows[1..]), clauses, db)
            && |grown| == FanOut(rows[0], clauses, db)
            && forall e :: e in grown ==> e.fact == rows[0]
  {
    assert Start(rows) == [Env(rows[0], [])] + Start(rows[1..]);
    ChainAppend([Env(rows[0], [])], Start(rows[1..]), clauses, db);
    ChainOfOneFact([Env(rows[0], [])], rows[0], clauses, db);
  }

  /** The view has exactly as many rows as the fan-outs add up to. */
  lemma {:induction false} ViewSize(rows: seq<Row>, clauses: seq<Clause>, db: Database)
    ensures |Chain(Start(rows), clauses, db)| == TotalFanOut(rows, clauses, db)
  {
    if |rows| != 0 {
      ChainByFact(rows, clauses, db);
      ViewSize(rows[1..], clauses, db);
    } else {
      ChainOfNothing(clauses, db);
    }
  }

  lemma {:induction false} ChainOfNothing(clauses: seq<Clause>, db: Database)
    ensures Chain([], clauses, db) == []
  {
    if |clauses| != 0 {
      ChainOfNothing(clauses[1..], db);
    }
  }

  lemma {:induction false} FanOutIsOne(f: Row, clauses: seq<Clause>, db: Database)
    ensures FanOut(f, clauses, db) >= 1
    ensures FanOut(f, clauses, db) == 1
       <==> forall c :: c in clauses ==> |Matches(RowsOf(db, c.table), c.dimensionKey, At(f, c.factKey))| <= 1
  {
    if |clauses| != 0 {
      FanOutIsOne(f, clauses[1..], db);
      var w, rest := Weight(f, clauses[0], db), FanOut(f, clauses[1..], db);
      assert w * rest >= 1 && (w * rest == 1 <==> w == 1 && rest == 1) by {
        OneFactorisation(w, rest);
      }
      assert clauses == [clauses[0]] + clauses[1..];
      assert forall c :: c in clauses <==> c == clauses[0] || c in clauses[1..];
    }
  }

  lemma OneFactorisation(a: nat, b: nat)
    requires a >= 1 && b >= 1
    ensures a * b >= 1 && (a * b == 1 <==> a == 1 && b == 1)
  {
    if a > 1 {
      assert a * b >= 2 * b;
    }
  }

  lemma {:induction false} TotalFanOutIsCount(rows: seq<Row>, clauses: seq<Clause>, db: Database)
    ensures TotalFanOut(rows, clauses, db) >= |rows|
    ensures TotalFanOut(rows, clauses, db) == |rows| <==> SingleMatches(rows, clauses, db)
  {
    if |rows| != 0 {
      FanOutIsOne(rows[0], clauses, db);
      TotalFanOutIsCount(rows[1..], clauses, db);
      SingleMatchesSplit(rows, clauses, db);
    }
  }

  lemma SingleMatchesSplit(rows: seq<Row>, clauses: seq<Clause>, db: Database)
    requires |rows| > 0
    ensures SingleMatches(rows, clauses, db)
       <==> SingleMatches(rows[1..], clauses, db)
            && forall c :: c in clauses ==>
                 |Matches(RowsOf(db, c.table), c.dimensionKey, At(rows[0], c.factKey))| <= 1
  {
    hide Matches;
    assert rows[0] in rows;
    forall f | f in rows
      ensures f == rows[0] || f in rows[1..]
    {
    }
    assert forall f :: f in rows[1..] ==> f in rows;
  }

  // ----- the view against its fact table ------------------------------------------------------------------

  /** The fact table as the view would show it. */
  function FactProjection(d: Definition, db: Database): seq<seq<Cell>> {
    Output(Start(RowsOf(db, d.factTable)), FactItems(d.factColumns))
  }

  /** The view cut back to its fact columns. */
  function CutToFact(d: Definition, view: seq<seq<Cell>>): (r: seq<seq<Cell>>)
    requires forall row :: row in view ==> |row| >= |d.factColumns|
    ensures |r| == |view|
  {
    seq(|view|, i requires 0 <= i < |view| => assert view[i] in view; view[i][..|d.factColumns|])
  }

  /** Rows are never dropped, and none is multiplied exactly when no fact row has two matches in one join. */
  lemma RowsMultiplyExactlyWhen(d: Definition, db: Database)
    ensures var rows, view := RowsOf(db, d.factTable), Evaluate(Compiled(d), db);
            && |view| >= |rows|
            && (|view| == |rows| <==> SingleMatches(rows, Clauses(d.joins), db))
  {
    ViewSize(RowsOf(db, d.factTable), Clauses(d.joins), db);
    TotalFanOutIsCount(RowsOf(db, d.factTable), Clauses(d.joins), db);
  }

  /** The dimension row a fact row's key names, if there is one. */
  function Lookup(f: Row, c: Clause, db: Database): Option<Row> {
    var found := Matches(RowsOf(db, c.table), c.dimensionKey, At(f, c.factKey));
    if |found| == 0 then None else Some(found[0])
  }

  function Lookups(f: Row, clauses: seq<Clause>, db: Database): (r: seq<Option<Row>>)
    ensures |r| == |clauses|
  {
    seq(|clauses|, i requires 0 <= i < |clauses| => Lookup(f, clauses[i], db))
  }

  /** The plain reading of the view: every fact row with what its keys look up. */
  function Denormalised(d: Definition, db: Database): (r: seq<seq<Cell>>)
    ensures |r| == |RowsOf(db, d.factTable)|
  {
    var rows := RowsOf(db, d.factTable);
    seq(|rows|, i requires 0 <= i < |rows| =>
      Project(Compiled(d).projection, Env(rows[i], Lookups(rows[i], Clauses(d.joins), db))))
  }

  lemma JoinRowLooksUp(e: Env, c: Clause, db: Database)
    requires |Matches(RowsOf(db, c.table), c.dimensionKey, At(e.fact, c.factKey))| <= 1
    ensures LeftJoin([e], c, db) == [Env(e.fact, e.dims + [Lookup(e.fact, c, db)])]
  {
    hide Matches;
    assert LeftJoin([e][1..], c, db) == [];
    assert JoinRow(e, c, db) == [Env(e.fact, e.dims + [Lookup(e.fact, c, db)])];
  }

  lemma LookupsSplit(f: Row, clauses: seq<Clause>, db: Database)
    requires |clauses| > 0
    ensures Lookups(f, clauses, db) == [Lookup(f, clauses[0], db)] + Lookups(f, clauses[1..], db)
  {
    hide Lookup;
  }

  lemma {:induction false} ChainLooksUp(e: Env, clauses: seq<Clause>, db: Database)
    requires forall c :: c in clauses ==>
               |Matches(RowsOf(db, c.table), c.dimensionKey, At(e.fact, c.factKey))| <= 1
    ensures Chain([e], clauses, db) == [Env(e.fact, e.dims + Lookups(e.fact, clauses, db))]
    decreases |clauses|
  {
    hide Matches;
    hide LeftJoin;
    hide Lookup;
    if |clauses| == 0 {
      assert e.dims + Lookups(e.fact, clauses, db) == e.dims;
    } else {
      var next := Env(e.fact, e.dims + [Lookup(e.fact, clauses[0], db)]);
      JoinRowLooksUp(e, clauses[0], db);
      assert forall c :: c in clauses[1..] ==> c in clauses;
      ChainLooksUp(next, clauses[1..], db);
      LookupsSplit(e.fact, clauses, db);
      hide Lookups;
      assert next.dims + Lookups(e.fact, clauses[1..], db) == e.dims + Lookups(e.fact, clauses, db);
    }
  }

  lemma {:induction false} EnvsFollowFacts(rows: seq<Row>, clauses: seq<Clause>, db: Database)
    requires SingleMatches(rows, clauses, db)
    ensures |Chain(Start(rows), clauses, db)| == |rows|
    ensures forall i :: 0 <= i < |rows| ==>
              Chain(Start(rows), clauses, db)[i] == Env(rows[i], Lookups(rows[i], clauses, db))
  {
    if |rows| != 0 {
      ChainByFact(rows, clauses, db);
      SingleMatchesSplit(rows, clauses, db);
      EnvsFollowFacts(rows[1..], clauses, db);
      ChainLooksUp(Env(rows[0], []), clauses, db);
      assert [] + Lookups(rows[0], clauses, db) == Lookups(rows[0], clauses, db);
    } else {
      ChainOfNothing(clauses, db);
    }
  }

  /** Without double matches the chain of joins is the plain reading, row for row. */
  lemma ViewIsDenormalised(d: Definition, db: Database)
    requires SingleMatches(RowsOf(db, d.factTable), Clauses(d.joins), db)
    ensures Evaluate(Compiled(d), db) == Denormalised(d, db)
  {
    EnvsFollowFacts(RowsOf(db, d.factTable), Clauses(d.joins), db);
  }

  /** Cut to the fact columns, it is the fact table, NULL and orphan keys included. */
  lemma ViewShowsTheFactTable(d: Definition, db: Database)
    requires SingleMatches(RowsOf(db, d.factTable), Clauses(d.joins), db)
    ensures var view := Evaluate(Compiled(d), db);
            && (forall row :: row in view ==> |row| >= |d.factColumns|)
            && CutToFact(d, view) == FactProjection(d, db)
  {
    ViewIsDenormalised(d, db);
    var view, items := Denormalised(d, db), Compiled(d).projection;
    forall row | row in view
      ensures |row| >= |d.factColumns|
    {
      var i :| 0 <= i < |view| && view[i] == row;
    }
    forall i | 0 <= i < |view|
      ensures CutToFact(d, view)[i] == FactProjection(d, db)[i]
    {
      assert view[i] in view;
      forall k | 0 <= k < |d.factColumns|
        ensures view[i][k] == FactProjection(d, db)[i][k]
      {
        assert items[k] == FactItem(d.factColumns[k]);
      }
    }
  }

  /** Where the k-th column of join j stands in the projection. */
  function Offset(joins: seq<Join>, j: nat): nat
    requires j <= |joins|
  {
    if j == 0 then 0 else Offset(joins, j - 1) + |joins[j - 1].columns|
  }

  lemma {:induction false} ItemAtOffset(joins: seq<Join>, n: nat, j: nat, k: nat)
    requires j < n <= |joins| && k < |joins[j].columns|
    ensures |DimensionItems(joins[..n])| == Offset(joins, n)
    ensures Offset(joins, j) + k < Offset(joins, n)
    ensures DimensionItems(joins[..n])[Offset(joins, j) + k]
         == DimensionItem(j, joins[j].columns[k], Prefixed(joins[j].dimensionTable, joins[j].columns[k]))
  {
    var front := joins[..n];
    assert front[..n - 1] == joins[..n - 1];
    OffsetIsLength(joins, n - 1);
    if j < n - 1 {
      ItemAtOffset(joins, n - 1, j, k);
    }
  }

  lemma {:induction false} OffsetIsLength(joins: seq<Join>, n: nat)
    requires n <= |joins|
    ensures |DimensionItems(joins[..n])| == Offset(joins, n)
  {
    if n != 0 {
      assert joins[..n][..n - 1] == joins[..n - 1];
      OffsetIsLength(joins, n - 1);
    }
  }

  /** A joined column shows the looked-up dimension row's cell, or NULL, under its prefixed name. */
  lemma JoinedColumnShowsTheLookup(d: Definition, db: Database, i: nat, j: nat, k: nat)
    requires SingleMatches(RowsOf(db, d.factTable), Clauses(d.joins), db)
    requires i < |RowsOf(db, d.factTable)| && j < |d.joins| && k < |d.joins[j].columns|
    ensures var view, at := Evaluate(Compiled(d), db), |d.factColumns| + Offset(d.joins, j) + k;
            var found := Lookup(RowsOf(db, d.factTable)[i], Clauses(d.joins)[j], db);
            && i < |view| && at < |view[i]|
            && view[i][at] == (if found.Some? then At(found.value, d.joins[j].columns[k]) else Null)
            && Header(Compiled(d).projection)[at] == Prefixed(d.joins[j].dimensionTable, d.joins[j].columns[k])
  {
    hide Chain;
    hide Lookup;
    ViewIsDenormalised(d, db);
    assert d.joins[..|d.joins|] == d.joins;
    ItemAtOffset(d.joins, |d.joins|, j, k);
    hide DimensionItems;
    hide Offset;
    var items, at := Compiled(d).projection, |d.factColumns| + Offset(d.joins, j) + k;
    assert items[at] == DimensionItem(j, d.joins[j].columns[k],
                                      Prefixed(d.joins[j].dimensionTable, d.joins[j].columns[k]));
    var rows, clauses := RowsOf(db, d.factTable), Clauses(d.joins);
    assert Evaluate(Compiled(d), db)[i] == Project(items, Env(rows[i], Lookups(rows[i], clauses, db)));
  }

  /** A fact column shows the fact row's own cell. */
  lemma FactColumnShowsTheCell(d: Definition, db: Database, i: nat, k: nat)
    requires SingleMatches(RowsOf(db, d.factTable), Clauses(d.joins), db)
    requires i < |RowsOf(db, d.factTable)| && k < |d.factColumns|
    ensures var view := Evaluate(Compiled(d), db);
            && i < |view| && k < |view[i]|
            && view[i][k] == At(RowsOf(db, d.factTable)[i], d.factColumns[k])
  {
    hide Chain;
    hide Lookups;
    ViewIsDenormalised(d, db);
    assert Compiled(d).projection[k] == FactItem(d.factColumns[k]);
  }

  lemma {:induction false} MatchesAreRows(rows: seq<Row>, column: string, key: Cell)
    ensures forall r :: r in Matches(rows, column, key) <==> r in rows && SqlEquals(key, At(r, column))
  {
    if |rows| != 0 {
      MatchesAreRows(rows[1..], column, key);
      assert forall r :: r in rows <==> r == rows[0] || r in rows[1..];
    }
  }

  /** A lookup finds a dimension row with the fact row's key, exactly when there is one; NULL finds none. */
  lemma LookupFindsTheMatch(f: Row, c: Clause, db: Database)
    ensures var rows, key, found := RowsOf(db, c.table), At(f, c.factKey), Lookup(f, c, db);
            && (found.Some? <==> exists r :: r in rows && SqlEquals(key, At(r, c.dimensionKey)))
            && (found.Some? ==> found.value in rows && At(found.value, c.dimensionKey) == key)
            && (key.Null? ==> found.None?)
  {
    var found := Matches(RowsOf(db, c.table), c.dimensionKey, At(f, c.factKey));
    MatchesAreRows(RowsOf(db, c.table), c.dimensionKey, At(f, c.factKey));
    assert |found| > 0 ==> found[0] in found;
  }

  lemma {:induction false} NoMatches(rows: seq<Row>, column: string, key: Cell)
    requires forall i :: 0 <= i < |rows| ==> !SqlEquals(key, At(rows[i], column))
    ensures Matches(rows, column, key) == []
  {
    if |rows| != 0 {
      NoMatches(rows[1..], column, key);
    }
  }

  lemma {:induction false} KeyMatchesOnce(rows: seq<Row>, column: string, key: Cell)
    requires IsKey(rows, column)
    ensures |Matches(rows, column, key)| <= 1
  {
    if |rows| != 0 {
      var tail := rows[1..];
      assert IsKey(tail, column) by {
        forall i, j | 0 <= i < j < |tail|
          ensures !SqlEquals(At(tail[i], column), At(tail[j], column))
        {
          assert tail[i] == rows[i + 1] && tail[j] == rows[j + 1];
        }
      }
      KeyMatchesOnce(tail, column, key);
      if SqlEquals(key, At(rows[0], column)) {
        forall i | 0 <= i < |tail|
          ensures !SqlEquals(key, At(tail[i], column))
        {
          assert !SqlEquals(At(rows[0], column), At(rows[i + 1], column));
        }
        NoMatches(tail, column, key);
      }
    }
  }

  /** Every join goes to a column that is a key of its table today. */
  ghost predicate JoinsOnKeys(d: Definition, db: Database) {
    forall j :: j in d.joins ==> IsKey(RowsOf(db, j.dimensionTable), j.dimensionColumn)
  }

  lemma KeysGiveSingleMatches(d: Definition, db: Database)
    requires JoinsOnKeys(d, db)
    ensures SingleMatches(RowsOf(db, d.factTable), Clauses(d.joins), db)
  {
    forall f, c | f in RowsOf(db, d.factTable) && c in Clauses(d.joins)
      ensures |Matches(RowsOf(db, c.table), c.dimensionKey, At(f, c.factKey))| <= 1
    {
      var i :| 0 <= i < |d.joins| && Clauses(d.joins)[i] == c;
      assert d.joins[i] in d.joins;
      KeyMatchesOnce(RowsOf(db, c.table), c.dimensionKey, At(f, c.factKey));
    }
  }

  /** The star view keeps the fact table: one row per fact row, its columns untouched. */
  lemma StarPreservesFacts(d: Definition, db: Database)
    requires JoinsOnKeys(d, db)
    ensures var view := Evaluate(Compiled(d), db);
            && |view| == |RowsOf(db, d.factTable)|
            && (forall row :: row in view ==> |row| >= |d.factColumns|)
            && CutToFact(d, view) == FactProjection(d, db)
            && multiset(CutToFact(d, view)) == multiset(FactProjection(d, db))
  {
    KeysGiveSingleMatches(d, db);
    RowsMultiplyExactlyWhen(d, db);
    ViewShowsTheFactTable(d, db);
  }

  /** A filtered sum over a table. */
  function SumWhere(rows: seq<seq<Cell>>, keep: seq<Cell> -> bool, amount: seq<Cell> -> real): real {
    if |rows| == 0 then 0.0
    else (if keep(rows[0]) then amount(rows[0]) else 0.0) + SumWhere(rows[1..], keep, amount)
  }

  /** So every filtered sum over fact columns reads the same from the view as from the table. */
  lemma TotalsAreUnchanged(d: Definition, db: Database, keep: seq<Cell> -> bool, amount: seq<Cell> -> real)
    requires JoinsOnKeys(d, db)
    ensures var view := Evaluate(Compiled(d), db);
            && (forall row :: row in view ==> |row| >= |d.factColumns|)
            && SumWhere(CutToFact(d, view), keep, amount) == SumWhere(FactProjection(d, db), keep, amount)
  {
    StarPreservesFacts(d, db);
  }

  // ----- grouping by a joined column -------------------------------------------------------------------

  function GroupTotal(rows: seq<seq<Cell>>, at: nat, key: Cell, amount: seq<Cell> -> real): real {
    SumWhere(rows, (row: seq<Cell>) => at < |row| && row[at] == key, amount)
  }

  /** The group totals of a result, added up. */
  function OverGroups(keys: seq<Cell>, rows: seq<seq<Cell>>, at: nat, amount: seq<Cell> -> real): real {
    if |keys| == 0 then 0.0 else GroupTotal(rows, at, keys[0], amount) + OverGroups(keys[1..], rows, at, amount)
  }

  function Total(rows: seq<seq<Cell>>, amount: seq<Cell> -> real): real {
    SumWhere(rows, (row: seq<Cell>) => true, amount)
  }

  ghost predicate DistinctKeys(keys: seq<Cell>) {
    forall i, j :: 0 <= i < j < |keys| ==> keys[i] != keys[j]
  }

  lemma {:induction false} OneRowInGroups(keys: seq<Cell>, rows: seq<seq<Cell>>, at: nat, amount: seq<Cell> -> real)
    requires |rows| > 0 && at < |rows[0]| && DistinctKeys(keys)
    ensures OverGroups(keys, rows, at, amount)
         == OverGroups(keys, rows[1..], at, amount) + if rows[0][at] in keys then amount(rows[0]) else 0.0
  {
    if |keys| != 0 {
      assert keys == [keys[0]] + keys[1..];
      OneRowInGroups(keys[1..], rows, at, amount);
    }
  }

  lemma {:induction false} NothingInGroups(keys: seq<Cell>, at: nat, amount: seq<Cell> -> real)
    ensures OverGroups(keys, [], at, amount) == 0.0
  {
    if |keys| != 0 {
      NothingInGroups(keys[1..], at, amount);
    }
  }

  lemma {:induction false} GroupsAddUp(keys: seq<Cell>, rows: seq<seq<Cell>>, at: nat, amount: seq<Cell> -> real)
    requires DistinctKeys(keys)
    requires forall i :: 0 <= i < |rows| ==> at < |rows[i]| && rows[i][at] in keys
    ensures OverGroups(keys, rows, at, amount) == Total(rows, amount)
  {
    if |rows| == 0 {
      NothingInGroups(keys, at, amount);
    } else {
      OneRowInGroups(keys, rows, at, amount);
      GroupsAddUp(keys, rows[1..], at, amount);
    }
  }

  /** An amount read from the fact columns, on a row of the view. */
  function OnFactColumns(n: nat, amount: seq<Cell> -> real): seq<Cell> -> real {
    (row: seq<Cell>) => if |row| >= n then amount(row[..n]) else 0.0
  }

  lemma {:induction false} TotalOfCut(wide: seq<seq<Cell>>, narrow: seq<seq<Cell>>, n: nat, amount: seq<Cell> -> real)
    requires |wide| == |narrow|
    requires forall i :: 0 <= i < |wide| ==> |wide[i]| >= n && narrow[i] == wide[i][..n]
    ensures Total(wide, OnFactColumns(n, amount)) == Total(narrow, amount)
  {
    if |wide| != 0 {
      TotalOfCut(wide[1..], narrow[1..], n, amount);
    }
  }

  /**
   * What the view is for: break a fact amount down by any of its columns, joined
   * ones included. Over the groups, the one of NULL among them, it adds up to the
   * fact table's own total.
   */
  lemma BreakdownConservesTheTotal(d: Definition, db: Database, at: nat, keys: seq<Cell>, amount: seq<Cell> -> real)
    requires JoinsOnKeys(d, db) && at < |Compiled(d).projection| && DistinctKeys(keys)
    requires forall row :: row in Evaluate(Compiled(d), db) && at < |row| ==> row[at] in keys
    ensures OverGroups(keys, Evaluate(Compiled(d), db), at, OnFactColumns(|d.factColumns|, amount))
         == Total(FactProjection(d, db), amount)
  {
    var view, n := Evaluate(Compiled(d), db), |d.factColumns|;
    StarPreservesFacts(d, db);
    var cut := CutToFact(d, view);
    forall i | 0 <= i < |view|
      ensures at < |view[i]| && view[i][at] in keys
      ensures |view[i]| >= n && cut[i] == view[i][..n]
    {
      assert view[i] in view;
    }
    hide Evaluate;
    hide CutToFact;
    hide FactProjection;
    GroupsAddUp(keys, view, at, OnFactColumns(n, amount));
    TotalOfCut(view, cut, n, amount);
  }

  /** A dimension column that is not a key, met by a fact row, does inflate the view. */
  lemma RepeatedTargetInflates(d: Definition, db: Database, f: Row, j: Join)
    requires f in RowsOf(db, d.factTable) && j in d.joins
    requires |Matches(RowsOf(db, j.dimensionTable), j.dimensionColumn, At(f, j.factColumn))| > 1
    ensures |Evaluate(Compiled(d), db)| > |RowsOf(db, d.factTable)|
  {
    RowsMultiplyExactlyWhen(d, db);
    var i :| 0 <= i < |d.joins| && d.joins[i] == j;
    assert Clauses(d.joins)[i] in Clauses(d.joins);
  }

  // ----- when two joined columns share a name -----------------------------------------------------------

  /** `longer` is `shorter` followed by an underscore and `middle`. */
  predicate Extends(longer: string, shorter: string, middle: string) {
    longer == shorter + "_" + middle
  }

  /**
   * Column c of table t and column d of table u are one column, or one table's
   * name continues the other's across an underscore that the columns make up for.
   */
  ghost predicate NamesMeet(t: string, c: string, u: string, d: string) {
    || (t == u && c == d)
    || (exists m :: Extends(t, u, m) && d == m + "_" + c)
    || (exists m :: Extends(u, t, m) && c == m + "_" + d)
  }

  /**
   * The prefix separates columns of different dimensions unless one dimension's
   * name continues the other's across an underscore that the columns make up for.
   */
  lemma PrefixedNamesMeetExactlyWhen(t: string, c: string, u: string, d: string)
    ensures Prefixed(t, c) == Prefixed(u, d) <==> NamesMeet(t, c, u, d)
  {
    var a, b := Prefixed(t, c), Prefixed(u, d);
    if a == b {
      assert a[..|t|] == t && b[..|u|] == u && a[|t| + 1..] == c && b[|u| + 1..] == d;
      assert a[|t|] == '_' && b[|u|] == '_';
      if |t| > |u| {
        var m := a[|u| + 1..|t|];
        assert t == u + "_" + m && d == m + "_" + c;
        assert Extends(t, u, m);
      } else if |t| < |u| {
        var m := a[|t| + 1..|u|];
        assert u == t + "_" + m && c == m + "_" + d;
        assert Extends(u, t, m);
      }
    }
    if m :| Extends(t, u, m) && d == m + "_" + c {
      assert u + "_" + m + "_" + c == u + "_" + (m + "_" + c);
    }
    if m :| Extends(u, t, m) && c == m + "_" + d {
      assert t + "_" + m + "_" + d == t + "_" + (m + "_" + d);
    }
  }

  /**
   * The prefix names the dimension, not the join: two joins into one dimension
   * (say, by a billing and a shipping key) give every shared column one name twice.
   */
  lemma OneDimensionTwiceRepeatsNames(d: Definition, i: nat, j: nat, k: nat, l: nat)
    requires i < j < |d.joins| && k < |d.joins[i].columns| && l < |d.joins[j].columns|
    requires d.joins[i].dimensionTable == d.joins[j].dimensionTable
    requires d.joins[i].columns[k] == d.joins[j].columns[l]
    ensures var header := Header(Compiled(d).projection);
            var first := |d.factColumns| + Offset(d.joins, i) + k;
            var second := |d.factColumns| + Offset(d.joins, j) + l;
            first < second < |header| && header[first] == header[second]
  {
    hide DimensionItems;
    hide Offset;
    assert d.joins[..|d.joins|] == d.joins;
    ItemAtOffset(d.joins, |d.joins|, i, k);
    ItemAtOffset(d.joins, |d.joins|, j, l);
    ItemAtOffset(d.joins, j, i, k);
    var items := Compiled(d).projection;
    assert items[|d.factColumns| + Offset(d.joins, i) + k] == DimensionItems(d.joins)[Offset(d.joins, i) + k];
    assert items[|d.factColumns| + Offset(d.joins, j) + l] == DimensionItems(d.joins)[Offset(d.joins, j) + l];
  }

  /** The names one join adds. */
  function NamesOf(j: Join): (r: seq<string>)
    ensures |r| == |j.columns|
  {
    seq(|j.columns|, i requires 0 <= i < |j.columns| => Prefixed(j.dimensionTable, j.columns[i]))
  }

  /** The names the view adds, in projection order. */
  function AddedNames(joins: seq<Join>): seq<string> {
    if |joins| == 0 then []
    else
      var n := |joins| - 1;
      AddedNames(joins[..n]) + NamesOf(joins[n])
  }

  /** The view's header is the fact's columns, then the added names. */
  lemma {:induction false} HeaderIsFactThenAdded(d: Definition, n: nat)
    requires n <= |d.joins|
    ensures Header(DimensionItems(d.joins[..n])) == AddedNames(d.joins[..n])
    ensures n == |d.joins| ==> Header(Compiled(d).projection) == d.factColumns + AddedNames(d.joins)
  {
    if n != 0 {
      HeaderIsFactThenAdded(d, n - 1);
      assert d.joins[..n][..n - 1] == d.joins[..n - 1];
      HeaderAppend(DimensionItems(d.joins[..n - 1]), JoinItems(d.joins[n - 1], n - 1));
    }
    if n == |d.joins| {
      assert d.joins[..n] == d.joins;
      HeaderAppend(FactItems(d.factColumns), DimensionItems(d.joins));
      assert Header(FactItems(d.factColumns)) == d.factColumns;
    }
  }

  lemma HeaderAppend(a: seq<Item>, b: seq<Item>)
    ensures Header(a + b) == Header(a) + Header(b)
  {
  }

  // ----- when a name of the view is ambiguous ------------------------------------------------------------

  ghost predicate NoRepeats(names: seq<string>) {
    forall i, j :: 0 <= i < j < |names| ==> names[i] != names[j]
  }

  /** A fact column already bears the name of a table, an underscore and a column it exposes. */
  ghost predicate FactClashes(d: Definition, j: Join) {
    exists f, c :: f in d.factColumns && c in j.columns && f == j.dimensionTable + "_" + c
  }

  ghost predicate JoinsClash(a: Join, b: Join) {
    exists c, e :: c in a.columns && e in b.columns && NamesMeet(a.dimensionTable, c, b.dimensionTable, e)
  }

  /** A definition whose view names every column once. */
  ghost predicate Unambiguous(d: Definition) {
    && NoRepeats(d.factColumns)
    && (forall i :: 0 <= i < |d.joins| ==> NoRepeats(d.joins[i].columns) && !FactClashes(d, d.joins[i]))
    && forall i, j :: 0 <= i < j < |d.joins| ==> !JoinsClash(d.joins[i], d.joins[j])
  }

  lemma NoRepeatsAppend(a: seq<string>, b: seq<string>)
    ensures NoRepeats(a + b) <==> NoRepeats(a) && NoRepeats(b) && forall x :: x in a ==> x !in b
  {
    var s := a + b;
    if NoRepeats(s) {
      forall i, j | 0 <= i < j < |b|
        ensures b[i] != b[j]
      {
        assert s[|a| + i] == b[i] && s[|a| + j] == b[j];
      }
      forall i, k | 0 <= i < |a| && 0 <= k < |b|
        ensures a[i] != b[k]
      {
        assert s[i] == a[i] && s[|a| + k] == b[k];
      }
      assert forall i :: 0 <= i < |a| ==> s[i] == a[i];
    }
    if NoRepeats(a) && NoRepeats(b) && forall x :: x in a ==> x !in b {
      forall i, j | 0 <= i < j < |s|
        ensures s[i] != s[j]
      {
        assert i < |a| ==> a[i] in a;
        assert j >= |a| ==> b[j - |a|] in b;
      }
    }
  }

  lemma SamePrefix(t: string, c: string, d: string)
    ensures Prefixed(t, c) == Prefixed(t, d) <==> c == d
  {
    if Prefixed(t, c) == Prefixed(t, d) {
      assert c == Prefixed(t, c)[|t| + 1..] == Prefixed(t, d)[|t| + 1..] == d;
    }
  }

  lemma NamesRepeatAsColumnsDo(j: Join)
    ensures NoRepeats(NamesOf(j)) <==> NoRepeats(j.columns)
  {
    forall i, k | 0 <= i < |j.columns| && 0 <= k < |j.columns|
      ensures NamesOf(j)[i] == NamesOf(j)[k] <==> j.columns[i] == j.columns[k]
    {
      SamePrefix(j.dimensionTable, j.columns[i], j.columns[k]);
    }
  }

  lemma NameInJoin(x: string, j: Join)
    ensures x in NamesOf(j) <==> exists c :: c in j.columns && x == Prefixed(j.dimensionTable, c)
  {
    if x in NamesOf(j) {
      var i :| 0 <= i < |j.columns| && NamesOf(j)[i] == x;
      assert j.columns[i] in j.columns;
    }
    if c :| c in j.columns && x == Prefixed(j.dimensionTable, c) {
      var i :| 0 <= i < |j.columns| && j.columns[i] == c;
      assert NamesOf(j)[i] == x;
    }
  }

  lemma {:induction false} NameInJoins(x: string, joins: seq<Join>)
    ensures x in AddedNames(joins) <==> exists i :: 0 <= i < |joins| && x in NamesOf(joins[i])
  {
    if |joins| != 0 {
      var n := |joins| - 1;
      NameInJoins(x, joins[..n]);
      hide NamesOf;
      AddedNamesStep(joins);
      if i :| 0 <= i < |joins| && x in NamesOf(joins[i]) {
        assert i < n ==> joins[..n][i] == joins[i];
      }
    }
  }

  lemma AddedNamesStep(joins: seq<Join>)
    requires |joins| > 0
    ensures AddedNames(joins) == AddedNames(joins[..|joins| - 1]) + NamesOf(joins[|joins| - 1])
  {
  }

  lemma JoinsShareAName(a: Join, b: Join)
    ensures JoinsClash(a, b) <==> exists x :: x in NamesOf(a) && x in NamesOf(b)
  {
    hide NamesOf;
    hide NamesMeet;
    if c, e :| c in a.columns && e in b.columns && NamesMeet(a.dimensionTable, c, b.dimensionTable, e) {
      PrefixedNamesMeetExactlyWhen(a.dimensionTable, c, b.dimensionTable, e);
      NameInJoin(Prefixed(a.dimensionTable, c), a);
      NameInJoin(Prefixed(a.dimensionTable, c), b);
    }
    if x :| x in NamesOf(a) && x in NamesOf(b) {
      NameInJoin(x, a);
      NameInJoin(x, b);
      var c :| c in a.columns && x == Prefixed(a.dimensionTable, c);
      var e :| e in b.columns && x == Prefixed(b.dimensionTable, e);
      PrefixedNamesMeetExactlyWhen(a.dimensionTable, c, b.dimensionTable, e);
    }
  }

  lemma {:induction false} AddedNamesRepeatExactlyWhen(joins: seq<Join>)
    ensures NoRepeats(AddedNames(joins))
       <==> && (forall i :: 0 <= i < |joins| ==> NoRepeats(joins[i].columns))
            && (forall i, j :: 0 <= i < j < |joins| ==> !JoinsClash(joins[i], joins[j]))
  {
    if |joins| != 0 {
      var n := |joins| - 1;
      var front := joins[..n];
      AddedNamesRepeatExactlyWhen(front);
      AddedNamesStep(joins);
      NoRepeatsAppend(AddedNames(front), NamesOf(joins[n]));
      NamesRepeatAsColumnsDo(joins[n]);
      LastJoinClashes(joins);
      hide *;
      assert forall i :: 0 <= i < n ==> front[i] == joins[i];
    }
  }

  lemma LastJoinClashes(joins: seq<Join>)
    requires |joins| > 0
    ensures var n := |joins| - 1;
            (forall x :: x in AddedNames(joins[..n]) ==> x !in NamesOf(joins[n]))
            <==> (forall i :: 0 <= i < n ==> !JoinsClash(joins[i], joins[n]))
  {
    hide NamesOf;
    hide AddedNames;
    hide JoinsClash;
    var n := |joins| - 1;
    var front := joins[..n];
    forall i | 0 <= i < n
      ensures JoinsClash(joins[i], joins[n]) <==> exists x :: x in NamesOf(front[i]) && x in NamesOf(joins[n])
    {
      JoinsShareAName(joins[i], joins[n]);
    }
    forall x
      ensures x in AddedNames(front) <==> exists i :: 0 <= i < n && x in NamesOf(front[i])
    {
      NameInJoins(x, front);
    }
  }

  lemma FactMeetsAdded(d: Definition)
    ensures (forall x :: x in d.factColumns ==> x !in AddedNames(d.joins))
       <==> forall i :: 0 <= i < |d.joins| ==> !FactClashes(d, d.joins[i])
  {
    hide AddedNames;
    hide NamesOf;
    forall x
      ensures x in AddedNames(d.joins) <==> exists i :: 0 <= i < |d.joins| && x in NamesOf(d.joins[i])
    {
      NameInJoins(x, d.joins);
    }
    forall i | 0 <= i < |d.joins|
      ensures FactClashes(d, d.joins[i]) <==> exists x :: x in d.factColumns && x in NamesOf(d.joins[i])
    {
      FactMeetsJoin(d, d.joins[i]);
    }
  }

  lemma FactMeetsJoin(d: Definition, j: Join)
    ensures FactClashes(d, j) <==> exists x :: x in d.factColumns && x in NamesOf(j)
  {
    hide NamesOf;
    if f, c :| f in d.factColumns && c in j.columns && f == j.dimensionTable + "_" + c {
      NameInJoin(f, j);
      assert f == Prefixed(j.dimensionTable, c);
    }
    if x :| x in d.factColumns && x in NamesOf(j) {
      NameInJoin(x, j);
      var c :| c in j.columns && x == Prefixed(j.dimensionTable, c);
    }
  }

  /**
   * No two columns of the view share a name exactly when the fact's columns are
   * distinct, each join's are, no fact column already reads like a prefixed one,
   * and no two joins meet: in one dimension with a shared column, or across an
   * underscore.
   */
  lemma HeaderRepeatsExactlyWhen(d: Definition)
    ensures NoRepeats(Header(Compiled(d).projection)) <==> Unambiguous(d)
  {
    hide Header;
    hide Compiled;
    HeaderIsFactThenAdded(d, |d.joins|);
    NoRepeatsAppend(d.factColumns, AddedNames(d.joins));
    AddedNamesRepeatExactlyWhen(d.joins);
    FactMeetsAdded(d);
    hide AddedNames;
    hide FactClashes;
    hide JoinsClash;
    hide NoRepeats;
  }

  lemma AmbiguousHeader(d: Definition, i: nat, j: nat)
    requires i < |d.joins| && j < |d.joins|
    requires FactClashes(d, d.joins[i]) || (i < j && JoinsClash(d.joins[i], d.joins[j]))
    ensures !NoRepeats(Header(Compiled(d).projection))
  {
    hide FactClashes;
    hide JoinsClash;
    hide NoRepeats;
    HeaderRepeatsExactlyWhen(d);
  }

  lemma TableNamesAreSafe()
    ensures Identifier("orders") && Identifier("customers") && Identifier("customers_home")
  {
  }

  lemma ColumnNamesAreSafe()
    ensures Identifier("id") && Identifier("country") && Identifier("home_country") && Identifier("customers_country")
  {
  }

  lemma KeyNamesAreSafe()
    ensures Identifier("customer_id") && Identifier("billed_to") && Identifier("shipped_to") && Identifier("home_id")
  {
  }

  /** orders(customers_country) joined to customers(country): the prefix itself shadows a fact column. */
  function ShadowedFact(): Definition {
    Definition("orders", ["customer_id", "customers_country"], [Join("customers", "customer_id", "id", ["country"])])
  }

  lemma PrefixCanShadowAFactColumn()
    ensures Safe(ShadowedFact())
    ensures !NoRepeats(Header(Compiled(ShadowedFact()).projection))
  {
    TableNamesAreSafe();
    ColumnNamesAreSafe();
    KeyNamesAreSafe();
    hide Identifier;
    var d := ShadowedFact();
    assert d.factColumns[1] in d.factColumns && d.joins[0].columns[0] in d.joins[0].columns;
    assert "customers_country" == "customers" + "_" + "country";
    assert FactClashes(d, d.joins[0]);
    AmbiguousHeader(d, 0, 0);
  }

  /** One dimension reached by a billing and by a shipping key. */
  function ReachedTwice(): Definition {
    Definition("orders", ["id", "billed_to", "shipped_to"],
               [Join("customers", "billed_to", "id", ["country"]), Join("customers", "shipped_to", "id", ["country"])])
  }

  lemma OneDimensionTwiceIsAmbiguous()
    ensures Safe(ReachedTwice())
    ensures !NoRepeats(Header(Compiled(ReachedTwice()).projection))
  {
    TableNamesAreSafe();
    ColumnNamesAreSafe();
    KeyNamesAreSafe();
    hide Identifier;
    var a, b := ReachedTwice().joins[0], ReachedTwice().joins[1];
    assert a.columns[0] in a.columns && b.columns[0] in b.columns;
    assert NamesMeet(a.dimensionTable, a.columns[0], b.dimensionTable, b.columns[0]);
    AmbiguousHeader(ReachedTwice(), 0, 1);
  }

  /** Two dimensions, `customers` and `customers_home`, whose names run on into their columns. */
  function RunOn(): Definition {
    Definition("orders", ["id", "customer_id", "home_id"],
               [Join("customers", "customer_id", "id", ["home_country"]),
                Join("customers_home", "home_id", "id", ["country"])])
  }

  lemma RunOnNamesAreAmbiguous()
    ensures Safe(RunOn())
    ensures !NoRepeats(Header(Compiled(RunOn()).projection))
  {
    RunOnIsSafe();
    var a, b := RunOn().joins[0], RunOn().joins[1];
    assert a.columns[0] in a.columns && b.columns[0] in b.columns;
    RunOnMeets();
    assert JoinsClash(a, b);
    hide *;
    AmbiguousHeader(RunOn(), 0, 1);
  }

  lemma RunOnIsSafe()
    ensures Safe(RunOn())
  {
    TableNamesAreSafe();
    ColumnNamesAreSafe();
    KeyNamesAreSafe();
    hide Identifier;
  }

  lemma RunOnMeets()
    ensures NamesMeet("customers", "home_country", "customers_home", "country")
  {
    assert Extends("customers_home", "customers", "home");
    assert "home_country" == "home" + "_" + "country";
  }

  /** A name as SQL reads it: the final newline the validator lets pass is white space there. */
  function SqlName(name: string): string {
    if |name| > 0 && name[|name| - 1] == '\n' then name[..|name| - 1] else name
  }

  /** So one column can be selected twice under names that differ as strings. */
  lemma NewlineHidesARepeat()
    ensures var d := Definition("orders", ["country", "country\n"], []);
            Safe(d) && Unambiguous(d) && SqlName(d.factColumns[0]) == SqlName(d.factColumns[1])
  {
    TableNamesAreSafe();
    ColumnNamesAreSafe();
    assert "country\n"[..7] == "country";
    assert Identifier("country\n");
  }
}
