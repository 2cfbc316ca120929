/**
 * Foreign-key detection of data/relationships.py over a snapshot of the tables.
 * Ratios are exact; `round(x, 4)` is kept as an integer number of ten-thousandths.
 */
module Relationships {
  import opened Options
  import opened Sorting
  import opened Relational
  import opened Strings

  const MIN_TARGET_DISTINCT := 2
  const MIN_ROWS := 3
  const SMALL_TARGET_DISTINCT := 5

  datatype SemanticRole = Identifier | Dimension | Other
  datatype Column = Column(name: string, role: SemanticRole, dataType: string)
  datatype Table = Table(name: string, columns: seq<Column>, rows: seq<Row>)
  datatype Family = Numeric | Text | Temporal | Boolean | OtherType

  datatype Candidate = Candidate(fromTable: string, fromColumn: string, toTable: string, toColumn: string,
                                 containment4: nat, distinctValues: nat, nameMatch: bool)
  {
    /** Containment nudged by a name match, capped at 1: in ten-thousandths. */
    function Confidence4(): nat {
      if !nameMatch then containment4 else if containment4 + 500 > 10000 then 10000 else containment4 + 500
    }

    /** Orders like the pair (confidence, name match). */
    function Strength(): nat {
      2 * Confidence4() + if nameMatch then 1 else 0
    }
  }

  datatype Error = UnsafeIdentifier

  // ----- names and types -------------------------------------------------------------------

  function Upper(s: string): (r: string)
    ensures |r| == |s|
  {
    seq(|s|, i requires 0 <= i < |s| => if 'a' <= s[i] <= 'z' then s[i] - 'a' + 'A' else s[i])
  }

  predicate StartsWithAny(s: string, prefixes: seq<string>) {
    exists i :: 0 <= i < |prefixes| && prefixes[i] <= s
  }

  function TypeFamily(dataType: string): Family {
    var upper := Upper(dataType);
    if StartsWithAny(upper, ["INT", "BIGINT", "SMALLINT", "TINYINT", "HUGEINT", "DECIMAL", "DOUBLE", "FLOAT",
                             "UBIGINT", "UINTEGER"]) then Numeric
    else if StartsWithAny(upper, ["VARCHAR", "CHAR", "TEXT", "STRING", "UUID"]) then Text
    else if StartsWithAny(upper, ["DATE", "TIMESTAMP", "TIME"]) then Temporal
    else if StartsWithAny(upper, ["BOOLEAN"]) then Boolean
    else OtherType
  }

  predicate EndsWith(s: string, suffix: string) {
    |s| >= |suffix| && s[|s| - |suffix|..] == suffix
  }

  const KEY_WORDS: seq<string> := ["id", "key", "code", "ref", "no", "number"]

  /** `_KEY_SUFFIX.search`: a key word as the whole name or after an underscore at its end. */
  predicate HasKeySuffix(s: string) {
    exists i :: 0 <= i < |KEY_WORDS| && (s == KEY_WORDS[i] || EndsWith(s, "_" + KEY_WORDS[i]))
  }

  /** `_KEY_SUFFIX.sub("", s)`. */
  function Stem(s: string): string {
    StemBy(s, KEY_WORDS)
  }

  function StemBy(s: string, words: seq<string>): string {
    if |words| == 0 then s
    else if s == words[0] then ""
    else if EndsWith(s, "_" + words[0]) then s[..|s| - |words[0]| - 1]
    else StemBy(s, words[1..])
  }

  function Singularise(name: string): string {
    if EndsWith(name, "ies") then name[..|name| - 3] + "y"
    else if EndsWith(name, "s") && !EndsWith(name, "ss") then name[..|name| - 1]
    else name
  }

  predicate NamesAgree(fromColumn: string, toTable: string, toColumn: string) {
    var stem, targetStem := Stem(Lower(fromColumn)), Stem(Lower(toColumn));
    || Lower(fromColumn) == Lower(toColumn)
    || (stem != "" && stem == Singularise(Lower(toTable)) && HasKeySuffix(Lower(toColumn)))
    || (stem != "" && targetStem != "" && stem == targetStem)
  }

  // ----- what the naming conventions come to ---------------------------------------------------

  predicate KeyWord(w: string) {
    w == "id" || w == "key" || w == "code" || w == "ref" || w == "no" || w == "number"
  }

  /** s is a key's name for the entity x: x, an underscore and a key word; or a bare key word, for none. */
  ghost predicate KeyNameOf(s: string, x: string) {
    exists w :: KeyWord(w) && (s == x + "_" + w || (x == "" && s == w))
  }

  predicate Plain(w: string) {
    forall i :: 0 <= i < |w| ==> w[i] != '_'
  }

  lemma NotPlain(w: string, i: nat)
    requires i < |w| && w[i] == '_'
    ensures !Plain(w)
  {
  }

  lemma KeyWordsAre()
    ensures forall w :: w in KEY_WORDS <==> KeyWord(w)
    ensures forall w :: w in KEY_WORDS ==> Plain(w)
  {
  }

  /** A name has one last word. */
  lemma OneLastWord(x: string, w: string, y: string, v: string)
    requires x + "_" + w == y + "_" + v && Plain(w) && Plain(v)
    ensures x == y && w == v
  {
    hide Plain;
    var s := x + "_" + w;
    assert s == y + "_" + v && s[|x|] == '_' && s[|y|] == '_';
    if |x| < |y| {
      NotPlain(w, |y| - |x| - 1);
    }
    if |y| < |x| {
      NotPlain(v, |x| - |y| - 1);
    }
    assert x == s[..|x|] && y == s[..|y|] && w == s[|x| + 1..] && v == s[|y| + 1..];
  }

  lemma EndingSplits(s: string, w: string)
    requires EndsWith(s, "_" + w)
    ensures s == s[..|s| - |w| - 1] + "_" + w
  {
    assert s == s[..|s| - |w| - 1] + s[|s| - |w| - 1..];
  }

  lemma LastWordEnds(x: string, w: string, v: string)
    requires Plain(w) && Plain(v)
    ensures EndsWith(x + "_" + w, "_" + v) <==> v == w
    ensures x + "_" + w != v && !EndsWith(w, "_" + v)
  {
    hide Plain;
    var s := x + "_" + w;
    assert s[|x|..] == "_" + w;
    if EndsWith(s, "_" + v) {
      EndingSplits(s, v);
      OneLastWord(x, w, s[..|s| - |v| - 1], v);
    }
    if s == v {
      NotPlain(v, |x|);
    }
    if EndsWith(w, "_" + v) {
      EndingSplits(w, v);
      NotPlain(w, |w| - |v| - 1);
    }
  }

  lemma {:induction false} StemByCuts(x: string, w: string, words: seq<string>)
    requires Plain(w) && forall v :: v in words ==> Plain(v)
    ensures StemBy(x + "_" + w, words) == if w in words then x else x + "_" + w
    ensures StemBy(w, words) == if w in words then "" else w
  {
    hide Plain;
    hide EndsWith;
    if |words| != 0 {
      assert words[0] in words;
      LastWordEnds(x, w, words[0]);
      assert (x + "_" + w)[..|x|] == x;
      StemByCuts(x, w, words[1..]);
    }
  }

  lemma {:induction false} StemByKeeps(s: string, words: seq<string>)
    requires forall i :: 0 <= i < |words| ==> s != words[i] && !EndsWith(s, "_" + words[i])
    ensures StemBy(s, words) == s
  {
    if |words| != 0 {
      StemByKeeps(s, words[1..]);
    }
  }

  lemma KeyNameHasItsStem(s: string, x: string)
    requires KeyNameOf(s, x)
    ensures HasKeySuffix(s) && Stem(s) == x
  {
    KeyWordsAre();
    var w :| KeyWord(w) && (s == x + "_" + w || (x == "" && s == w));
    var i :| 0 <= i < |KEY_WORDS| && KEY_WORDS[i] == w;
    hide Plain;
    hide KEY_WORDS;
    StemByCuts(x, w, KEY_WORDS);
    LastWordEnds(x, w, w);
    hide EndsWith;
  }

  lemma SuffixMakesAKeyName(s: string)
    requires HasKeySuffix(s)
    ensures exists x :: KeyNameOf(s, x)
  {
    KeyWordsAre();
    var i :| 0 <= i < |KEY_WORDS| && (s == KEY_WORDS[i] || EndsWith(s, "_" + KEY_WORDS[i]));
    var w := KEY_WORDS[i];
    assert w in KEY_WORDS;
    hide KEY_WORDS;
    hide Plain;
    if s == w {
      assert KeyNameOf(s, "");
    } else {
      EndingSplits(s, w);
      hide EndsWith;
      assert KeyNameOf(s, s[..|s| - |w| - 1]);
    }
  }

  /** A name with a key suffix has the entity for its stem; any other is its own. */
  lemma StemIs(s: string)
    ensures HasKeySuffix(s) <==> exists x :: KeyNameOf(s, x)
    ensures forall x :: KeyNameOf(s, x) ==> x == Stem(s)
    ensures !HasKeySuffix(s) ==> Stem(s) == s
  {
    forall x | KeyNameOf(s, x)
      ensures x == Stem(s) && HasKeySuffix(s)
    {
      KeyNameHasItsStem(s, x);
    }
    if HasKeySuffix(s) {
      SuffixMakesAKeyName(s);
    } else {
      StemByKeeps(s, KEY_WORDS);
    }
    hide KeyNameOf;
  }

  lemma LastChar(x: string, end: string)
    requires |end| > 0 && EndsWith(x, end)
    ensures |x| > 0 && x[|x| - 1] == end[|end| - 1]
    ensures |end| > 1 ==> |x| > 1 && x[|x| - 2] == end[|end| - 2]
  {
  }

  /** Plurals in -ies and -s lose their ending, and names in -ss or without an s stay. */
  lemma SingulariseIs(x: string)
    ensures Singularise(x + "ies") == x + "y"
    ensures x != "" && x[|x| - 1] !in {'e', 's'} ==> Singularise(x + "s") == x
    ensures Singularise(x + "ss") == x + "ss"
    ensures |x| > 0 && x[|x| - 1] != 's' ==> Singularise(x) == x
  {
    assert (x + "ies")[|x|..] == "ies" && (x + "ies")[..|x|] == x;
    assert (x + "s")[|x|..] == "s" && (x + "s")[..|x|] == x;
    assert (x + "ss")[|x|..] == "ss" && EndsWith(x + "ss", "ss");
    if EndsWith(x + "s", "ies") {
      LastChar(x + "s", "ies");
    }
    if EndsWith(x + "s", "ss") {
      LastChar(x + "s", "ss");
    }
    if EndsWith(x + "ss", "ies") {
      LastChar(x + "ss", "ies");
    }
    if EndsWith(x, "ies") {
      LastChar(x, "ies");
    }
    if EndsWith(x, "s") {
      LastChar(x, "s");
    }
    hide EndsWith;
  }

  /**
   * The names support the relationship exactly when they are one name, when the
   * source names the entity the target table is named for and the target is a key,
   * or when both have one stem; case never matters.
   */
  lemma NamesAgreeExactlyWhen(f: string, table: string, t: string)
    ensures var a, b := Lower(f), Lower(t);
            NamesAgree(f, table, t)
            <==> || a == b
                 || (Stem(a) != "" && Stem(a) == Singularise(Lower(table)) && exists x :: KeyNameOf(b, x))
                 || (Stem(a) != "" && Stem(a) == Stem(b))
  {
    StemIs(Lower(t));
    hide Stem;
    hide KeyNameOf;
    hide HasKeySuffix;
  }

  /** The two conventions of exported data: the same entity, and the singular of the table before its key. */
  lemma ConventionsAgree(x: string, w: string, v: string, table: string)
    requires x != "" && Lower(x) == x && x[|x| - 1] !in {'e', 's'}
    requires KeyWord(w) && KeyWord(v)
    ensures NamesAgree(x + "_" + w, x + "s", v)
    ensures NamesAgree(x + "_" + w, table, x + "_" + v)
  {
    LowerOfKeyName(x, w);
    LowerOfKeyName(x, v);
    assert KeyNameOf(x + "_" + w, x) && KeyNameOf(x + "_" + v, x) && KeyNameOf(v, "");
    hide Lower;
    KeyNameHasItsStem(x + "_" + w, x);
    KeyNameHasItsStem(x + "_" + v, x);
    KeyNameHasItsStem(v, "");
    SingulariseIs(x);
    hide Stem;
    hide Singularise;
    hide HasKeySuffix;
  }

  lemma LowerOfKeyName(x: string, w: string)
    requires Lower(x) == x && KeyWord(w)
    ensures Lower(x + "_" + w) == x + "_" + w && Lower(x + "s") == x + "s" && Lower(w) == w
  {
    assert forall i :: 0 <= i < |x| ==> x[i] == Lower(x)[i];
  }

  // ----- what the type families come to --------------------------------------------------------------

  ghost predicate BeginsWith(s: string, prefixes: set<string>) {
    exists p :: p in prefixes && p <= s
  }

  lemma StartsWithAnyOf(s: string, prefixes: seq<string>, names: set<string>)
    requires forall p :: p in names <==> p in prefixes
    ensures StartsWithAny(s, prefixes) <==> BeginsWith(s, names)
  {
    if p :| p in names && p <= s {
      var i :| 0 <= i < |prefixes| && prefixes[i] == p;
    }
    if i :| 0 <= i < |prefixes| && prefixes[i] <= s {
      assert prefixes[i] in names;
    }
  }

  /** A type compares by how its name begins, whatever case it is written in. */
  lemma FamiliesAre(dataType: string)
    ensures TypeFamily(Lower(dataType)) == TypeFamily(dataType)
    ensures var s := Upper(dataType);
            var numeric := BeginsWith(s, {"INT", "BIGINT", "SMALLINT", "TINYINT", "HUGEINT", "UBIGINT", "UINTEGER",
                                          "DECIMAL", "DOUBLE", "FLOAT"});
            var text := BeginsWith(s, {"VARCHAR", "CHAR", "TEXT", "STRING", "UUID"});
            var temporal := BeginsWith(s, {"DATE", "TIMESTAMP", "TIME"});
            && (TypeFamily(dataType) == Numeric <==> numeric)
            && (TypeFamily(dataType) == Text <==> text && !numeric)
            && (TypeFamily(dataType) == Temporal <==> temporal && !numeric && !text)
            && (TypeFamily(dataType) == Boolean <==> "BOOLEAN" <= s && !numeric && !text && !temporal)
  {
    var s := Upper(dataType);
    assert Upper(Lower(dataType)) == s;
    hide Upper;
    hide Lower;
    StartsWithAnyOf(s, ["INT", "BIGINT", "SMALLINT", "TINYINT", "HUGEINT", "DECIMAL", "DOUBLE", "FLOAT",
                        "UBIGINT", "UINTEGER"],
                    {"INT", "BIGINT", "SMALLINT", "TINYINT", "HUGEINT", "UBIGINT", "UINTEGER",
                     "DECIMAL", "DOUBLE", "FLOAT"});
    StartsWithAnyOf(s, ["VARCHAR", "CHAR", "TEXT", "STRING", "UUID"], {"VARCHAR", "CHAR", "TEXT", "STRING", "UUID"});
    StartsWithAnyOf(s, ["DATE", "TIMESTAMP", "TIME"], {"DATE", "TIMESTAMP", "TIME"});
    StartsWithAnyOf(s, ["BOOLEAN"], {"BOOLEAN"});
    assert BeginsWith(s, {"BOOLEAN"}) <==> "BOOLEAN" <= s;
    hide StartsWithAny;
    hide BeginsWith;
  }

  // ----- the evidence ---------------------------------------------------------------------------

  /** Shared distinct values and distinct source values: the containment as a fraction. */
  function Shared(from: Table, fromColumn: string, to: Table, toColumn: string): (n: nat)
    ensures n <= CountDistinct(from.rows, fromColumn)
  {
    var source, target := Present(from.rows, fromColumn), Present(to.rows, toColumn);
    SubsetSize(source * target, source);
    |source * target|
  }

  lemma SubsetSize(a: set<string>, b: set<string>)
    requires a <= b
    ensures |a| <= |b|
  {
    if a != {} {
      var x :| x in a;
      SubsetSize(a - {x}, b - {x});
    }
  }

  /** containment >= 0.80; an empty source has containment 0. */
  predicate Contained(from: Table, fromColumn: string, to: Table, toColumn: string) {
    var distinct := CountDistinct(from.rows, fromColumn);
    distinct > 0 && 100 * Shared(from, fromColumn, to, toColumn) >= 80 * distinct
  }

  /** `round(part / whole, 4)` in ten-thousandths, halves to even. */
  function Round4(part: nat, whole: nat): nat
    requires whole > 0
  {
    var scaled := 10000 * part;
    var down, rest := scaled / whole, scaled % whole;
    if 2 * rest < whole then down
    else if 2 * rest > whole then down + 1
    else if down % 2 == 0 then down else down + 1
  }

  predicate TargetIsUnique(to: Table, toColumn: string) {
    CountDistinct(to.rows, toColumn) == CountPresent(to.rows, toColumn)
  }

  predicate SameFamily(a: Column, b: Column) {
    TypeFamily(a.dataType) == TypeFamily(b.dataType) != OtherType
  }

  /** All the gates `detect` puts between a pair of columns and a candidate. */
  predicate Passes(from: Table, f: Column, to: Table, t: Column) {
    && from.name != to.name
    && SameFamily(f, t)
    && CountDistinct(to.rows, t.name) >= MIN_TARGET_DISTINCT
    && TargetIsUnique(to, t.name)
    && Contained(from, f.name, to, t.name)
    && (CountDistinct(to.rows, t.name) < SMALL_TARGET_DISTINCT ==> NamesAgree(f.name, to.name, t.name))
  }

  function MakeCandidate(from: Table, f: Column, to: Table, t: Column): Candidate {
    var distinct := CountDistinct(from.rows, f.name);
    Candidate(from.name, f.name, to.name, t.name,
              if distinct > 0 then Round4(Shared(from, f.name, to, t.name), distinct) else 0,
              CountDistinct(to.rows, t.name), NamesAgree(f.name, to.name, t.name))
  }

  predicate Considered(c: Column) {
    c.role == Identifier || c.role == Dimension
  }

  // ----- the gates on the rows ---------------------------------------------------------------------

  lemma Quotient(scaled: nat, whole: nat)
    requires whole > 0
    ensures (scaled / whole) * whole == scaled - scaled % whole
    ensures (scaled / whole + 1) * whole == scaled - scaled % whole + whole
  {
    assert (scaled / whole) * whole + scaled % whole == scaled;
  }

  /** The nearest ten-thousandth, and of two as near the even one. */
  lemma Round4IsNearest(part: nat, whole: nat)
    requires whole > 0
    ensures var error := 2 * (Round4(part, whole) * whole - 10000 * part);
            && -error <= whole && error <= whole
            && (error == whole || -error == whole ==> Round4(part, whole) % 2 == 0)
  {
    Quotient(10000 * part, whole);
  }

  /**
   * Column f of a may be a foreign key into column t of b: one type family; the
   * target has two values or more and repeats none; at least four fifths of the
   * source's distinct values are among them; and below five the names agree.
   */
  ghost predicate KeyPair(a: Table, f: Column, b: Table, t: Column) {
    var source, target := Present(a.rows, f.name), Present(b.rows, t.name);
    && a.name != b.name
    && TypeFamily(f.dataType) == TypeFamily(t.dataType) && TypeFamily(f.dataType) != OtherType
    && |target| >= 2 && IsKey(b.rows, t.name)
    && 100 * |source * target| >= 80 * |source| > 0
    && (|target| < 5 ==> NamesAgree(f.name, b.name, t.name))
  }

  /** x says of the pair what the rows say. */
  ghost predicate SpeaksOf(x: Candidate, a: Table, f: Column, b: Table, t: Column) {
    var source, target := Present(a.rows, f.name), Present(b.rows, t.name);
    var error := 2 * (x.containment4 * |source| - 10000 * |source * target|);
    && x.fromTable == a.name && x.fromColumn == f.name && x.toTable == b.name && x.toColumn == t.name
    && x.distinctValues == |target|
    && (x.nameMatch <==> NamesAgree(f.name, b.name, t.name))
    && -error <= |source| && error <= |source|
    && (error == |source| || -error == |source| ==> x.containment4 % 2 == 0)
  }

  /** Enough rows to look at, and a role that may hold keys. */
  ghost predicate Eligible(a: Table, f: Column, tables: seq<Table>) {
    a in tables && |a.rows| >= 3 && f in a.columns && (f.role == Identifier || f.role == Dimension)
  }

  lemma PassesExactlyKeyPairs(a: Table, f: Column, b: Table, t: Column)
    ensures Passes(a, f, b, t) <==> KeyPair(a, f, b, t)
    ensures Passes(a, f, b, t) ==> SpeaksOf(MakeCandidate(a, f, b, t), a, f, b, t)
  {
    hide NamesAgree;
    hide TypeFamily;
    hide IsKey;
    hide Round4;
    DistinctEqualsTotalIffKey(b.rows, t.name);
    var source := Present(a.rows, f.name);
    if |source| > 0 {
      Round4IsNearest(Shared(a, f.name, b, t.name), |source|);
    }
  }

  // ----- what the scan finds ------------------------------------------------------------------------

  function KeyColumns(columns: seq<Column>): (r: seq<Column>)
    ensures forall c :: c in r <==> c in columns && Considered(c)
  {
    if |columns| == 0 then []
    else
      var n := |columns| - 1;
      KeyColumns(columns[..n]) + if Considered(columns[n]) then [columns[n]] else []
  }

  function UsableTables(tables: seq<Table>): (r: seq<Table>)
    ensures forall t :: t in r <==> t in tables && |t.rows| >= MIN_ROWS
  {
    if |tables| == 0 then []
    else
      var n := |tables| - 1;
      UsableTables(tables[..n]) + if |tables[n].rows| >= MIN_ROWS then [tables[n]] else []
  }

  function ToTargets(from: Table, f: Column, to: Table, targets: seq<Column>): seq<Candidate> {
    if |targets| == 0 then []
    else
      var n := |targets| - 1;
      ToTargets(from, f, to, targets[..n])
      + if Passes(from, f, to, targets[n]) then [MakeCandidate(from, f, to, targets[n])] else []
  }

  function BetweenTables(from: Table, to: Table, sources: seq<Column>): seq<Candidate> {
    if |sources| == 0 then []
    else
      var n := |sources| - 1;
      BetweenTables(from, to, sources[..n]) + ToTargets(from, sources[n], to, KeyColumns(to.columns))
  }

  function FromTable(from: Table, others: seq<Table>): seq<Candidate> {
    if |others| == 0 then []
    else
      var n := |others| - 1;
      FromTable(from, others[..n])
      + if from.name == others[n].name then [] else BetweenTables(from, others[n], KeyColumns(from.columns))
  }

  function Scan(usable: seq<Table>, upTo: seq<Table>): seq<Candidate> {
    if |upTo| == 0 then []
    else
      var n := |upTo| - 1;
      Scan(usable, upTo[..n]) + FromTable(upTo[n], usable)
  }

  /** x is a candidate some pair of considered columns of usable tables earned. */
  ghost predicate Earned(x: Candidate, usable: seq<Table>) {
    exists from, f, to, t ::
      && from in usable && to in usable && f in from.columns && t in to.columns
      && Considered(f) && Considered(t)
      && Passes(from, f, to, t) && x == MakeCandidate(from, f, to, t)
  }

  lemma {:induction false} ToTargetsExactly(from: Table, f: Column, to: Table, targets: seq<Column>)
    ensures forall x :: x in ToTargets(from, f, to, targets)
               <==> exists t :: t in targets && Passes(from, f, to, t) && x == MakeCandidate(from, f, to, t)
  {
    if |targets| != 0 {
      var n := |targets| - 1;
      ToTargetsExactly(from, f, to, targets[..n]);
      assert targets == targets[..n] + [targets[n]];
      assert forall t :: t in targets <==> t in targets[..n] || t == targets[n];
    }
  }

  lemma {:induction false} BetweenTablesExactly(from: Table, to: Table, sources: seq<Column>)
    ensures forall x :: x in BetweenTables(from, to, sources)
               <==> exists f, t :: f in sources && t in KeyColumns(to.columns)
                      && Passes(from, f, to, t) && x == MakeCandidate(from, f, to, t)
  {
    if |sources| != 0 {
      var n := |sources| - 1;
      BetweenTablesExactly(from, to, sources[..n]);
      ToTargetsExactly(from, sources[n], to, KeyColumns(to.columns));
      assert sources == sources[..n] + [sources[n]];
      assert forall f :: f in sources <==> f in sources[..n] || f == sources[n];
    }
  }

  lemma {:induction false} FromTableExactly(from: Table, others: seq<Table>)
    ensures forall x :: x in FromTable(from, others)
               <==> exists to, f, t :: to in others && f in KeyColumns(from.columns) && t in KeyColumns(to.columns)
                      && Passes(from, f, to, t) && x == MakeCandidate(from, f, to, t)
  {
    if |others| != 0 {
      var n := |others| - 1;
      FromTableExactly(from, others[..n]);
      BetweenTablesExactly(from, others[n], KeyColumns(from.columns));
      assert others == others[..n] + [others[n]];
      assert forall to :: to in others <==> to in others[..n] || to == others[n];
    }
  }

  lemma {:induction false} ScanExactly(usable: seq<Table>, upTo: seq<Table>)
    ensures forall x :: x in Scan(usable, upTo)
               <==> exists from, to, f, t ::
                      && from in upTo && to in usable
                      && f in KeyColumns(from.columns) && t in KeyColumns(to.columns)
                      && Passes(from, f, to, t) && x == MakeCandidate(from, f, to, t)
  {
    if |upTo| != 0 {
      var n := |upTo| - 1;
      ScanExactly(usable, upTo[..n]);
      FromTableExactly(upTo[n], usable);
      assert upTo == upTo[..n] + [upTo[n]];
      assert forall from :: from in upTo <==> from in upTo[..n] || from == upTo[n];
    }
  }

  /** The scan finds exactly the pairs that pass every gate. */
  lemma ScanFindsTheEarned(usable: seq<Table>)
    ensures forall x :: x in Scan(usable, usable) <==> Earned(x, usable)
  {
    ScanExactly(usable, usable);
  }

  // ----- keeping the best per source column ------------------------------------------------------------

  predicate Stronger(a: Candidate, b: Candidate) {
    a.Strength() >= b.Strength()
  }

  lemma StrongerIsTotalPreorder()
    ensures TotalPreorder(Stronger)
  {
  }

  /** Its own record: candidates compare by confidence, then by name match. */
  lemma StrengthOrdersLikeThePair(a: Candidate, b: Candidate)
    ensures Stronger(a, b)
       <==> || a.Confidence4() > b.Confidence4()
            || (a.Confidence4() == b.Confidence4() && (b.nameMatch ==> a.nameMatch))
  {
  }

  predicate SameSource(a: Candidate, b: Candidate) {
    a.fromTable == b.fromTable && a.fromColumn == b.fromColumn
  }

  /** The source column already has its candidate. */
  predicate Known(best: seq<Candidate>, c: Candidate) {
    exists x :: x in best && SameSource(x, c)
  }

  predicate StringLe(a: string, b: string) {
    |a| == 0 || (|b| > 0 && (a[0] < b[0] || (a[0] == b[0] && StringLe(a[1..], b[1..]))))
  }

  /** (from_table, -confidence, from_column). */
  predicate ListedBefore(a: Candidate, b: Candidate) {
    if a.fromTable != b.fromTable then StringLe(a.fromTable, b.fromTable)
    else if a.Confidence4() != b.Confidence4() then a.Confidence4() > b.Confidence4()
    else StringLe(a.fromColumn, b.fromColumn)
  }

  lemma {:induction false} StringLeIsTotal(a: string, b: string)
    ensures StringLe(a, b) || StringLe(b, a)
    ensures StringLe(a, b) && StringLe(b, a) ==> a == b
  {
    if |a| != 0 && |b| != 0 {
      StringLeIsTotal(a[1..], b[1..]);
      assert a == [a[0]] + a[1..] && b == [b[0]] + b[1..];
    }
  }

  lemma {:induction false} StringLeIsTransitive(a: string, b: string, c: string)
    requires StringLe(a, b) && StringLe(b, c)
    ensures StringLe(a, c)
  {
    if |a| != 0 && a[0] == b[0] == c[0] {
      StringLeIsTransitive(a[1..], b[1..], c[1..]);
    }
  }

  /** A beginning of b, or smaller at the first place where they differ. */
  ghost predicate Lexicographic(a: string, b: string) {
    || (|a| <= |b| && b[..|a|] == a)
    || exists k :: 0 <= k < |a| && k < |b| && a[..k] == b[..k] && a[k] < b[k]
  }

  lemma LexicographicStep(a: string, b: string)
    requires |a| > 0 && |b| > 0
    ensures Lexicographic(a, b) <==> a[0] < b[0] || (a[0] == b[0] && Lexicographic(a[1..], b[1..]))
  {
    var p, q := a[1..], b[1..];
    if |a| <= |b| && b[..|a|] == a {
      assert b[0] == b[..|a|][0] == a[0] && q[..|p|] == p;
    }
    if k :| 0 <= k < |a| && k < |b| && a[..k] == b[..k] && a[k] < b[k] {
      if k > 0 {
        assert a[0] == a[..k][0] == b[..k][0] == b[0];
        assert p[..k - 1] == a[..k][1..] && q[..k - 1] == b[..k][1..];
        assert p[k - 1] < q[k - 1];
      }
    }
    if a[0] < b[0] {
      assert a[..0] == b[..0];
    } else if a[0] == b[0] && |p| <= |q| && q[..|p|] == p {
      assert b[..|a|] == [b[0]] + q[..|p|];
    } else if k :| a[0] == b[0] && 0 <= k < |p| && k < |q| && p[..k] == q[..k] && p[k] < q[k] {
      assert a[..k + 1] == [a[0]] + p[..k] && b[..k + 1] == [b[0]] + q[..k];
      assert a[k + 1] < b[k + 1];
    }
  }

  lemma {:induction false} StringLeIsLexicographic(a: string, b: string)
    ensures StringLe(a, b) <==> Lexicographic(a, b)
  {
    if |a| != 0 && |b| != 0 {
      LexicographicStep(a, b);
      StringLeIsLexicographic(a[1..], b[1..]);
    }
  }

  lemma ListedBeforeIsTotal(a: Candidate, b: Candidate)
    ensures ListedBefore(a, b) || ListedBefore(b, a)
  {
    hide StringLe;
    StringLeIsTotal(a.fromTable, b.fromTable);
    StringLeIsTotal(a.fromColumn, b.fromColumn);
  }

  lemma ListedBeforeIsTransitive(a: Candidate, b: Candidate, c: Candidate)
    requires ListedBefore(a, b) && ListedBefore(b, c)
    ensures ListedBefore(a, c)
  {
    hide StringLe;
    hide Candidate.Confidence4;
    StringLeIsTotal(a.fromTable, b.fromTable);
    if a.fromTable != b.fromTable && b.fromTable != c.fromTable {
      StringLeIsTransitive(a.fromTable, b.fromTable, c.fromTable);
    }
    if a.fromTable == b.fromTable == c.fromTable && a.Confidence4() == b.Confidence4() == c.Confidence4() {
      StringLeIsTransitive(a.fromColumn, b.fromColumn, c.fromColumn);
    }
  }

  lemma ListingIsInOrder(best: seq<Candidate>)
    ensures SortedBy(SortBy(best, ListedBefore), ListedBefore)
  {
    hide ListedBefore;
    forall a, b
      ensures ListedBefore(a, b) || ListedBefore(b, a)
    {
      ListedBeforeIsTotal(a, b);
    }
    forall a, b, c | ListedBefore(a, b) && ListedBefore(b, c)
      ensures ListedBefore(a, c)
    {
      ListedBeforeIsTransitive(a, b, c);
    }
    SortByIsSorted(best, ListedBefore);
  }

  predicate NamesSafe(tables: seq<Table>) {
    && (forall t :: t in tables ==> Relational.Identifier(t.name))
    && forall t, c :: t in tables && |t.rows| >= MIN_ROWS && c in t.columns && Considered(c) ==>
         Relational.Identifier(c.name)
  }

  ghost predicate OnePerSource(best: seq<Candidate>) {
    forall i, j :: 0 <= i < j < |best| ==> !SameSource(best[i], best[j])
  }

  ghost predicate CoveredBy(y: Candidate, best: seq<Candidate>) {
    exists x :: x in best && SameSource(x, y) && Stronger(x, y)
  }

  /** At most one candidate per source column, and none better was found for it. */
  ghost predicate BestPerSource(best: seq<Candidate>, found: seq<Candidate>) {
    && (forall x :: x in best ==> x in found)
    && OnePerSource(best)
    && (forall y :: y in found ==> CoveredBy(y, best))
  }

  lemma KnownIsCovered(best: seq<Candidate>, prefix: seq<Candidate>, c: Candidate)
    requires BestPerSource(best, prefix) && Known(best, c)
    requires forall x :: x in prefix ==> Stronger(x, c)
    ensures CoveredBy(c, best)
  {
    hide Stronger;
    hide SameSource;
    hide OnePerSource;
    var x :| x in best && SameSource(x, c);
    assert x in prefix;
  }

  lemma SkipKnownSource(best: seq<Candidate>, prefix: seq<Candidate>, c: Candidate)
    requires BestPerSource(best, prefix) && Known(best, c)
    requires forall x :: x in prefix ==> Stronger(x, c)
    ensures BestPerSource(best, prefix + [c])
  {
    KnownIsCovered(best, prefix, c);
    hide Stronger;
    hide Known;
    hide CoveredBy;
    hide OnePerSource;
    assert forall y :: y in prefix + [c] <==> y in prefix || y == c;
  }

  lemma StillCovered(y: Candidate, best: seq<Candidate>, c: Candidate)
    requires CoveredBy(y, best) || y == c
    ensures CoveredBy(y, best + [c])
  {
    if y == c {
      assert c in best + [c] && SameSource(c, c) && Stronger(c, c);
    } else {
      var x :| x in best && SameSource(x, y) && Stronger(x, y);
      assert x in best + [c];
    }
  }

  lemma StillOnePerSource(best: seq<Candidate>, c: Candidate)
    requires OnePerSource(best) && !Known(best, c)
    ensures OnePerSource(best + [c])
  {
    var more := best + [c];
    forall i, j | 0 <= i < j < |more|
      ensures !SameSource(more[i], more[j])
    {
      assert best[i] in best;
    }
  }

  lemma AddNewSource(best: seq<Candidate>, prefix: seq<Candidate>, c: Candidate)
    requires BestPerSource(best, prefix) && !Known(best, c)
    ensures BestPerSource(best + [c], prefix + [c])
  {
    StillOnePerSource(best, c);
    hide Known;
    hide CoveredBy;
    hide OnePerSource;
    assert forall x :: x in best + [c] <==> x in best || x == c;
    forall y | y in prefix + [c]
      ensures CoveredBy(y, best + [c])
    {
      assert y in prefix || y == c;
      StillCovered(y, best, c);
    }
  }

  method PickBest(found: seq<Candidate>) returns (best: seq<Candidate>)
    ensures BestPerSource(best, found)
  {
    var sorted := SortBy(found, Stronger);
    StrongerIsTotalPreorder();
    SortByIsSorted(found, Stronger);
    MembershipPreserved(found, Stronger);
    hide Stronger;
    hide SameSource;
    hide BestPerSource;
    hide Known;
    best := [];
    BestOfNone(sorted[..0]);
    for k := 0 to |sorted|
      invariant BestPerSource(best, sorted[..k])
    {
      NextInLine(best, sorted, k);
      if !Known(best, sorted[k]) {
        best := best + [sorted[k]];
      }
    }
    assert sorted[..|sorted|] == sorted;
    BestIgnoresOrder(best, sorted, found);
  }

  lemma EarlierIsStronger(sorted: seq<Candidate>, k: nat)
    requires k < |sorted| && SortedBy(sorted, Stronger)
    ensures forall x :: x in sorted[..k] ==> Stronger(x, sorted[k])
  {
    hide Stronger;
    forall x | x in sorted[..k]
      ensures Stronger(x, sorted[k])
    {
      var i :| 0 <= i < k && sorted[i] == x;
    }
  }

  lemma NextInLine(best: seq<Candidate>, sorted: seq<Candidate>, k: nat)
    requires k < |sorted| && SortedBy(sorted, Stronger) && BestPerSource(best, sorted[..k])
    ensures BestPerSource(if Known(best, sorted[k]) then best else best + [sorted[k]], sorted[..k + 1])
  {
    var c := sorted[k];
    assert sorted[..k + 1] == sorted[..k] + [c];
    EarlierIsStronger(sorted, k);
    hide *;
    if Known(best, c) {
      SkipKnownSource(best, sorted[..k], c);
    } else {
      AddNewSource(best, sorted[..k], c);
    }
  }

  lemma BestOfNone(none: seq<Candidate>)
    requires |none| == 0
    ensures BestPerSource([], none)
  {
  }

  lemma BestIgnoresOrder(best: seq<Candidate>, a: seq<Candidate>, b: seq<Candidate>)
    requires BestPerSource(best, a) && forall x :: x in a <==> x in b
    ensures BestPerSource(best, b)
  {
    hide SameSource;
    hide CoveredBy;
  }

  /** One pair of columns, gate by gate in the order of the code. */
  function ScanOne(from: Table, f: Column, to: Table, t: Column): (r: seq<Candidate>)
    requires from.name != to.name
    ensures r == if Passes(from, f, to, t) then [MakeCandidate(from, f, to, t)] else []
  {
    var distinct := CountDistinct(to.rows, t.name);
    var total := CountPresent(to.rows, t.name);
    if !SameFamily(f, t) then []
    else if distinct < MIN_TARGET_DISTINCT || distinct != total then []
    else if !Contained(from, f.name, to, t.name) then []
    else
      var nameMatch := NamesAgree(f.name, to.name, t.name);
      if distinct < SMALL_TARGET_DISTINCT && !nameMatch then []
      else [Candidate(from.name, f.name, to.name, t.name,
                      Round4(Shared(from, f.name, to, t.name), CountDistinct(from.rows, f.name)), distinct, nameMatch)]
  }

  lemma TargetStep(from: Table, f: Column, to: Table, targets: seq<Column>, j: nat)
    requires j < |targets| && from.name != to.name
    ensures ToTargets(from, f, to, targets[..j + 1])
         == ToTargets(from, f, to, targets[..j]) + ScanOne(from, f, to, targets[j])
  {
    assert targets[..j + 1][..j] == targets[..j];
  }

  lemma SourceStep(from: Table, to: Table, sources: seq<Column>, i: nat)
    requires i < |sources|
    ensures BetweenTables(from, to, sources[..i + 1])
         == BetweenTables(from, to, sources[..i]) + ToTargets(from, sources[i], to, KeyColumns(to.columns))
  {
    assert sources[..i + 1][..i] == sources[..i];
  }

  lemma TableStep(from: Table, others: seq<Table>, b: nat)
    requires b < |others|
    ensures FromTable(from, others[..b + 1])
         == FromTable(from, others[..b])
          + if from.name == others[b].name then [] else BetweenTables(from, others[b], KeyColumns(from.columns))
  {
    assert others[..b + 1][..b] == others[..b];
  }

  lemma ScanStep(usable: seq<Table>, a: nat)
    requires a < |usable|
    ensures Scan(usable, usable[..a + 1]) == Scan(usable, usable[..a]) + FromTable(usable[a], usable)
  {
    hide FromTable;
    assert usable[..a + 1][..a] == usable[..a];
  }

  method ScanPair(from: Table, to: Table) returns (found: seq<Candidate>)
    requires from.name != to.name
    ensures found == BetweenTables(from, to, KeyColumns(from.columns))
  {
    hide ScanOne;
    hide KeyColumns;
    var sources, targets := KeyColumns(from.columns), KeyColumns(to.columns);
    found := [];
    for i := 0 to |sources|
      invariant found == BetweenTables(from, to, sources[..i])
    {
      ghost var before := found;
      for j := 0 to |targets|
        invariant found == before + ToTargets(from, sources[i], to, targets[..j])
      {
        TargetStep(from, sources[i], to, targets, j);
        found := found + ScanOne(from, sources[i], to, targets[j]);
      }
      assert targets[..|targets|] == targets;
      SourceStep(from, to, sources, i);
    }
    assert sources[..|sources|] == sources;
  }

  method ScanAll(usable: seq<Table>) returns (found: seq<Candidate>)
    ensures found == Scan(usable, usable)
  {
    hide KeyColumns;
    hide BetweenTables;
    found := [];
    assert usable[..|usable|] == usable;
    assert Scan(usable, usable[..0]) == [];
    hide Scan;
    hide FromTable;
    for a := 0 to |usable|
      invariant found == Scan(usable, usable[..a])
    {
      var more := ScanFrom(usable[a], usable);
      ScanStep(usable, a);
      found := found + more;
    }
  }

  /** The inner loop: one table's columns against every other table's. */
  method ScanFrom(from: Table, usable: seq<Table>) returns (found: seq<Candidate>)
    ensures found == FromTable(from, usable)
  {
    found := [];
    assert FromTable(from, usable[..0]) == [];
    for b := 0 to |usable|
      invariant found == FromTable(from, usable[..b])
    {
      TableStep(from, usable, b);
      hide *;
      if from.name == usable[b].name {
        continue;
      }
      var pair := ScanPair(from, usable[b]);
      found := found + pair;
    }
    assert usable[..|usable|] == usable;
  }

  method Detect(tables: seq<Table>) returns (result: Result<seq<Candidate>, Error>)
    ensures result.Ok? <==> NamesSafe(tables)
    ensures result.Ok? ==>
              && (forall x :: x in result.value ==> Earned(x, UsableTables(tables)))
              && OnePerSource(result.value)
              && SortedBy(result.value, ListedBefore)
              && (forall y :: Earned(y, UsableTables(tables)) ==> CoveredBy(y, result.value))
    ensures result.Ok? ==> SafelyNamed(tables)
    ensures result.Ok? ==> forall x :: x in result.value ==> Witnessed(x, tables)
    ensures result.Ok? ==> EveryPairCovered(result.value, tables)
    ensures result.Ok? ==> SourcesDiffer(result.value) && InListingOrder(result.value)
  {
    hide Earned;
    hide CoveredBy;
    hide Witnessed;
    hide NamesSafe;
    if !NamesSafe(tables) {
      return Err(UnsafeIdentifier);
    }
    var usable := UsableTables(tables);
    var found := ScanAll(usable);
    ScanFindsTheEarned(usable);
    var best := PickBest(found);
    var listed := SortBy(best, ListedBefore);
    ListingKeepsTheBest(best, found);
    ListingIsInOrder(best);
    ListingMeans(listed);
    OneSource(listed);
    SafeNames(tables);
    PairsAreCovered(listed, tables);
    forall x | x in listed
      ensures Witnessed(x, tables)
    {
      EarnedIsWitnessed(x, tables);
    }
    return Ok(listed);
  }

  /** Some pair of eligible columns meets every gate, and x speaks of it. */
  ghost predicate Witnessed(x: Candidate, tables: seq<Table>) {
    exists a, f, b, t ::
      Eligible(a, f, tables) && Eligible(b, t, tables) && KeyPair(a, f, b, t) && SpeaksOf(x, a, f, b, t)
  }

  lemma EarnedIsWitnessed(x: Candidate, tables: seq<Table>)
    requires Earned(x, UsableTables(tables))
    ensures Witnessed(x, tables)
  {
    hide KeyPair;
    hide SpeaksOf;
    hide Passes;
    hide MakeCandidate;
    var usable := UsableTables(tables);
    var a, f, b, t :|
      && a in usable && b in usable && f in a.columns && t in b.columns
      && Considered(f) && Considered(t)
      && Passes(a, f, b, t) && x == MakeCandidate(a, f, b, t);
    PassesExactlyKeyPairs(a, f, b, t);
    assert Eligible(a, f, tables) && Eligible(b, t, tables);
  }

  lemma KeyPairIsEarned(a: Table, f: Column, b: Table, t: Column, tables: seq<Table>)
    requires Eligible(a, f, tables) && Eligible(b, t, tables) && KeyPair(a, f, b, t)
    ensures Earned(MakeCandidate(a, f, b, t), UsableTables(tables))
    ensures SpeaksOf(MakeCandidate(a, f, b, t), a, f, b, t)
  {
    PassesExactlyKeyPairs(a, f, b, t);
    hide KeyPair;
    hide SpeaksOf;
    hide Passes;
    hide MakeCandidate;
    assert a in UsableTables(tables) && b in UsableTables(tables);
  }

  lemma ListingMeans(listed: seq<Candidate>)
    requires SortedBy(listed, ListedBefore)
    ensures InListingOrder(listed)
  {
    hide StringLe;
    hide Candidate.Confidence4;
    forall i, j | 0 <= i < j < |listed|
      ensures ListedBefore(listed[i], listed[j])
      ensures Lexicographic(listed[i].fromTable, listed[j].fromTable)
           <==> StringLe(listed[i].fromTable, listed[j].fromTable)
      ensures Lexicographic(listed[i].fromColumn, listed[j].fromColumn)
           <==> StringLe(listed[i].fromColumn, listed[j].fromColumn)
    {
      StringLeIsLexicographic(listed[i].fromTable, listed[j].fromTable);
      StringLeIsLexicographic(listed[i].fromColumn, listed[j].fromColumn);
    }
    forall s: string
      ensures Lexicographic(s, s)
    {
      assert s[..|s|] == s;
    }
    hide Lexicographic;
  }

  /** A matching name adds five points of a hundred, up to certainty, and nothing else moves the measured share. */
  lemma ConfidenceIs(c: Candidate)
    requires c.containment4 <= 10000
    ensures c.containment4 <= c.Confidence4() <= 10000
    ensures !c.nameMatch ==> c.Confidence4() == c.containment4
    ensures c.nameMatch && c.Confidence4() < 10000 ==> c.Confidence4() == c.containment4 + 500
    ensures c.nameMatch && c.Confidence4() == 10000 ==> c.containment4 >= 9500
  {
  }

  lemma CoverOf(y: Candidate, best: seq<Candidate>)
    requires CoveredBy(y, best)
    ensures exists x :: x in best && AtLeastAsStrong(x, y)
  {
    var x :| x in best && SameSource(x, y) && Stronger(x, y);
    StrengthOrdersLikeThePair(x, y);
    assert AtLeastAsStrong(x, y);
  }

  /** For the same source column: with more confidence, or with as much and a matching name if the other has one. */
  ghost predicate AtLeastAsStrong(x: Candidate, y: Candidate) {
    && x.fromTable == y.fromTable && x.fromColumn == y.fromColumn
    && (x.Confidence4() > y.Confidence4()
        || (x.Confidence4() == y.Confidence4() && (y.nameMatch ==> x.nameMatch)))
  }

  /** Every table and every eligible column has an SQL identifier for a name. */
  ghost predicate SafelyNamed(tables: seq<Table>) {
    && (forall t :: t in tables ==> Relational.Identifier(t.name))
    && forall t, c :: Eligible(t, c, tables) ==> Relational.Identifier(c.name)
  }

  lemma SafeNames(tables: seq<Table>)
    requires NamesSafe(tables)
    ensures SafelyNamed(tables)
  {
    hide Relational.Identifier;
  }

  /** No source column is listed twice. */
  ghost predicate SourcesDiffer(listed: seq<Candidate>) {
    forall i, j :: 0 <= i < j < |listed| ==>
      listed[i].fromTable != listed[j].fromTable || listed[i].fromColumn != listed[j].fromColumn
  }

  lemma OneSource(listed: seq<Candidate>)
    requires OnePerSource(listed)
    ensures SourcesDiffer(listed)
  {
  }

  /** Each pair of eligible columns that may be a key has a candidate on the list at least as strong as its own. */
  ghost predicate EveryPairCovered(listed: seq<Candidate>, tables: seq<Table>) {
    forall a, f, b, t :: Eligible(a, f, tables) && Eligible(b, t, tables) && KeyPair(a, f, b, t) ==>
      exists x, y :: x in listed && AtLeastAsStrong(x, y) && SpeaksOf(y, a, f, b, t)
  }

  lemma PairsAreCovered(listed: seq<Candidate>, tables: seq<Table>)
    requires forall y :: Earned(y, UsableTables(tables)) ==> CoveredBy(y, listed)
    ensures EveryPairCovered(listed, tables)
  {
    hide Eligible;
    hide KeyPair;
    hide SpeaksOf;
    hide AtLeastAsStrong;
    hide Earned;
    hide CoveredBy;
    forall a, f, b, t | Eligible(a, f, tables) && Eligible(b, t, tables) && KeyPair(a, f, b, t)
      ensures exists x, y :: x in listed && AtLeastAsStrong(x, y) && SpeaksOf(y, a, f, b, t)
    {
      KeyPairIsEarned(a, f, b, t, tables);
      var y := MakeCandidate(a, f, b, t);
      assert CoveredBy(y, listed);
      CoverOf(y, listed);
    }
  }

  /** By table, then by falling confidence, then by column. */
  ghost predicate InListingOrder(listed: seq<Candidate>) {
    forall i, j :: 0 <= i < j < |listed| ==>
      var x, y := listed[i], listed[j];
      && Lexicographic(x.fromTable, y.fromTable)
      && (x.fromTable == y.fromTable ==> x.Confidence4() >= y.Confidence4())
      && (x.fromTable == y.fromTable && x.Confidence4() == y.Confidence4() ==>
            Lexicographic(x.fromColumn, y.fromColumn))
  }

  lemma {:induction false} InsertKeepsApart(x: Candidate, s: seq<Candidate>)
    requires OnePerSource(s) && forall y :: y in s ==> !SameSource(x, y)
    ensures OnePerSource(Insert(x, s, ListedBefore))
  {
    hide ListedBefore;
    var r := Insert(x, s, ListedBefore);
    if |s| == 0 || ListedBefore(x, s[0]) {
      assert forall k :: 0 <= k < |s| ==> s[k] in s;
    } else {
      var tail := Insert(x, s[1..], ListedBefore);
      InsertKeepsApart(x, s[1..]);
      forall j | 0 <= j < |tail|
        ensures !SameSource(s[0], tail[j])
      {
        assert tail[j] in multiset(tail);
        if tail[j] != x {
          assert tail[j] in s[1..];
          var k :| 1 <= k < |s| && s[k] == tail[j];
          assert !SameSource(s[0], s[k]);
        } else {
          assert s[0] in s;
        }
      }
    }
  }

  lemma {:induction false} SortKeepsApart(s: seq<Candidate>)
    requires OnePerSource(s)
    ensures OnePerSource(SortBy(s, ListedBefore))
  {
    if |s| != 0 {
      SortKeepsApart(s[1..]);
      MembershipPreserved(s[1..], ListedBefore);
      InsertKeepsApart(s[0], SortBy(s[1..], ListedBefore));
    }
  }

  lemma ListingKeepsTheBest(best: seq<Candidate>, found: seq<Candidate>)
    requires BestPerSource(best, found)
    ensures BestPerSource(SortBy(best, ListedBefore), found)
  {
    hide Stronger;
    hide SameSource;
    hide ListedBefore;
    MembershipPreserved(best, ListedBefore);
    SortKeepsApart(best);
  }
}
