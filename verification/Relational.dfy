/**
 * Tables with NULLs, as far as the emitted SQL needs them, and the identifier
 * check of data/warehouse.py. A table is a bag of rows kept in some order.
 */
module Relational {
  import opened Options

  datatype Cell = Null | Val(text: string)
  type Row = map<string, Cell>
  /** The rows of each table; a name outside the map is an empty table. */
  type Database = map<string, seq<Row>>

  function RowsOf(db: Database, table: string): seq<Row> {
    if table in db then db[table] else []
  }

  /** A cell by column name; a column the row lacks reads as NULL. */
  function At(row: Row, column: string): Cell {
    if column in row then row[column] else Null
  }

  /** SQL `=`: never true of NULL. */
  predicate SqlEquals(a: Cell, b: Cell) {
    a.Val? && b.Val? && a == b
  }

  // ----- counts -----------------------------------------------------------------------

  /** The non-null values of a column. */
  function Present(rows: seq<Row>, column: string): set<string> {
    set r | r in rows && At(r, column).Val? :: At(r, column).text
  }

  /** `count(column)`. */
  function CountPresent(rows: seq<Row>, column: string): nat {
    if |rows| == 0 then 0
    else
      var n := |rows| - 1;
      CountPresent(rows[..n], column) + if At(rows[n], column).Val? then 1 else 0
  }

  /** `count(DISTINCT column)`. */
  function CountDistinct(rows: seq<Row>, column: string): nat {
    |Present(rows, column)|
  }

  /** No two rows share a non-null value: the column can be a join target. */
  ghost predicate IsKey(rows: seq<Row>, column: string) {
    forall i, j :: 0 <= i < j < |rows| ==> !SqlEquals(At(rows[i], column), At(rows[j], column))
  }

  lemma PresentAppend(rows: seq<Row>, column: string)
    requires |rows| > 0
    ensures var n := |rows| - 1;
            Present(rows, column)
              == Present(rows[..n], column)
               + (if At(rows[n], column).Val? then {At(rows[n], column).text} else {})
  {
    var n := |rows| - 1;
    assert rows == rows[..n] + [rows[n]];
    assert forall r :: r in rows <==> r in rows[..n] || r == rows[n];
  }

  /** A key is a key without its last row, plus a last value not seen before. */
  lemma KeySplit(rows: seq<Row>, column: string)
    requires |rows| > 0
    ensures var n := |rows| - 1;
            IsKey(rows, column)
            <==> IsKey(rows[..n], column)
                 && (At(rows[n], column).Val? ==> At(rows[n], column).text !in Present(rows[..n], column))
  {
    var n := |rows| - 1;
    var front, last := rows[..n], At(rows[n], column);
    if IsKey(rows, column) {
      forall i, j | 0 <= i < j < n
        ensures !SqlEquals(At(front[i], column), At(front[j], column))
      {
        assert front[i] == rows[i] && front[j] == rows[j];
      }
      forall r | r in front && At(r, column).Val? && last.Val?
        ensures At(r, column).text != last.text
      {
        var i :| 0 <= i < n && front[i] == r;
        assert !SqlEquals(At(rows[i], column), At(rows[n], column));
      }
    }
    if IsKey(front, column) && (last.Val? ==> last.text !in Present(front, column)) {
      forall i, j | 0 <= i < j < |rows|
        ensures !SqlEquals(At(rows[i], column), At(rows[j], column))
      {
        assert front[i] == rows[i] && front[i] in front;
        assert j < n ==> front[j] == rows[j];
      }
    }
  }

  /** The counts that relationship detection calls unique are exactly those of a key. */
  lemma {:induction false} DistinctEqualsTotalIffKey(rows: seq<Row>, column: string)
    ensures CountDistinct(rows, column) <= CountPresent(rows, column)
    ensures CountDistinct(rows, column) == CountPresent(rows, column) <==> IsKey(rows, column)
  {
    hide IsKey;
    if |rows| > 0 {
      var n := |rows| - 1;
      var last := At(rows[n], column);
      DistinctEqualsTotalIffKey(rows[..n], column);
      PresentAppend(rows, column);
      KeySplit(rows, column);
      hide Present;
      if last.Val? && last.text in Present(rows[..n], column) {
        assert Present(rows, column) == Present(rows[..n], column);
      }
    } else {
      EmptyIsKey(rows, column);
    }
  }

  lemma EmptyIsKey(rows: seq<Row>, column: string)
    requires |rows| == 0
    ensures IsKey(rows, column) && Present(rows, column) == {}
  {
  }

  // ----- identifiers --------------------------------------------------------------------

  const MAX_IDENTIFIER := 120

  predicate Letter(c: char) {
    'a' <= c <= 'z' || c == '_'
  }

  predicate LetterOrDigit(c: char) {
    Letter(c) || '0' <= c <= '9'
  }

  predicate PlainIdentifier(name: string) {
    |name| > 0 && Letter(name[0]) && forall i :: 0 <= i < |name| ==> LetterOrDigit(name[i])
  }

  /** `validate_identifier`; the pattern's `$` also matches in front of one final newline. */
  predicate Identifier(name: string) {
    && |name| <= MAX_IDENTIFIER
    && (PlainIdentifier(name)
        || (|name| > 0 && name[|name| - 1] == '\n' && PlainIdentifier(name[..|name| - 1])))
  }
}
