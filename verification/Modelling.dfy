/**
 * The dimensional model of services/modelling.py: proposals, human decisions,
 * table roles, star definitions, and the columns advertised for a star view.
 */
module Modelling {
  import opened Options
  import opened Sorting
  import opened Relational
  import opened StarSchema
  import opened Relationships
  import opened Sequences

  datatype TableRole = Fact | DimensionTable | Unknown
  datatype Dataset = Dataset(id: nat, slug: string, ready: bool, role: TableRole, columns: seq<string>)
  datatype Edge = Edge(id: nat, from: nat, fromColumn: string, to: nat, toColumn: string,
                       confidence4: nat, confirmed: Option<bool>)
  {
    predicate Usable() {
      confirmed == Some(true)
    }

    predicate SameEnds(other: Edge) {
      from == other.from && fromColumn == other.fromColumn && to == other.to && toColumn == other.toColumn
    }
  }

  datatype Error = TooFewDatasets | UnsafeName | NotFound

  // ----- what the rows say ----------------------------------------------------------------

  function Ready(datasets: seq<Dataset>): (r: seq<Dataset>)
    ensures forall d :: d in r <==> d in datasets && d.ready
    ensures |r| <= |datasets|
  {
    if |datasets| == 0 then []
    else (if datasets[0].ready then [datasets[0]] else []) + Ready(datasets[1..])
  }

  function FirstWhere<T(!new)>(s: seq<T>, wanted: T -> bool): (r: Option<T>)
    ensures r.Some? ==> r.value in s && wanted(r.value)
    ensures r.None? <==> forall x :: x in s ==> !wanted(x)
  {
    if |s| == 0 then None else if wanted(s[0]) then Some(s[0]) else FirstWhere(s[1..], wanted)
  }

  function ById(datasets: seq<Dataset>, id: nat): (r: Option<Dataset>)
    ensures r.Some? ==> r.value in datasets && r.value.id == id
    ensures r.None? <==> forall d :: d in datasets ==> d.id != id
  {
    FirstWhere(datasets, (d: Dataset) => d.id == id)
  }

  function BySlug(datasets: seq<Dataset>, slug: string): (r: Option<Dataset>)
    ensures r.Some? ==> r.value in datasets && r.value.slug == slug
    ensures r.None? <==> forall d :: d in datasets ==> d.slug != slug
  {
    FirstWhere(datasets, (d: Dataset) => d.slug == slug)
  }

  predicate MoreConfident(a: Edge, b: Edge) {
    a.confidence4 >= b.confidence4
  }

  function Listing(edges: seq<Edge>): seq<Edge> {
    SortBy(edges, MoreConfident)
  }

  /** A confirmed edge between two ready datasets. */
  predicate InModel(e: Edge, ready: seq<Dataset>) {
    e.Usable() && ById(ready, e.from).Some? && ById(ready, e.to).Some?
  }

  function Confirmed(listed: seq<Edge>, ready: seq<Dataset>): (r: seq<Edge>)
    ensures forall e :: e in r <==> e in listed && InModel(e, ready)
  {
    if |listed| == 0 then []
    else
      var n := |listed| - 1;
      Confirmed(listed[..n], ready) + if InModel(listed[n], ready) then [listed[n]] else []
  }

  function RoleFor(id: nat, confirmed: seq<Edge>): TableRole {
    if exists e :: e in confirmed && e.from == id then Fact
    else if exists e :: e in confirmed && e.to == id then DimensionTable
    else Unknown
  }

  function WithRoles(datasets: seq<Dataset>, confirmed: seq<Edge>): (r: seq<Dataset>)
    ensures |r| == |datasets|
  {
    seq(|datasets|, i requires 0 <= i < |datasets| =>
      if datasets[i].ready then datasets[i].(role := RoleFor(datasets[i].id, confirmed)) else datasets[i])
  }

  function Except(columns: seq<string>, key: string): (r: seq<string>)
    ensures forall c :: c in r <==> c in columns && c != key
  {
    if |columns| == 0 then []
    else
      var n := |columns| - 1;
      Except(columns[..n], key) + if columns[n] != key then [columns[n]] else []
  }

  /** The columns left are all but the key's, in their order. */
  lemma {:induction false} ExceptKeepsOrder(columns: seq<string>, key: string) returns (at: seq<nat>)
    ensures Follows(Except(columns, key), at, columns, (c: string) => c != key, (x: string, c: string) => x == c)
  {
    at := [];
    if |columns| != 0 {
      var n := |columns| - 1;
      at := ExceptKeepsOrder(columns[..n], key);
      assert Except(columns, key) == if columns[n] != key then Except(columns[..n], key) + [columns[n]]
                                     else Except(columns[..n], key);
      hide *;
      FollowsOneMore(Except(columns[..n], key), at, columns, columns[n],
                     (c: string) => c != key, (x: string, c: string) => x == c);
      if columns[n] != key {
        at := at + [n];
      }
    }
  }

  function JoinFor(e: Edge, dimension: Dataset): Join {
    Join(dimension.slug, e.fromColumn, e.toColumn, Except(dimension.columns, e.toColumn))
  }

  function JoinsFor(id: nat, confirmed: seq<Edge>, ready: seq<Dataset>): seq<Join>
    requires forall e :: e in confirmed ==> InModel(e, ready)
  {
    if |confirmed| == 0 then []
    else
      var n := |confirmed| - 1;
      assert confirmed[n] in confirmed && InModel(confirmed[n], ready);
      JoinsFor(id, confirmed[..n], ready)
      + if confirmed[n].from == id then [JoinFor(confirmed[n], ById(ready, confirmed[n].to).value)] else []
  }

  function DefinitionFor(d: Dataset, confirmed: seq<Edge>, ready: seq<Dataset>): Definition
    requires forall e :: e in confirmed ==> InModel(e, ready)
  {
    Definition(d.slug, d.columns, JoinsFor(d.id, confirmed, ready))
  }

  function Definitions(facts: seq<Dataset>, confirmed: seq<Edge>, ready: seq<Dataset>): seq<Definition>
    requires forall e :: e in confirmed ==> InModel(e, ready)
  {
    if |facts| == 0 then []
    else
      var n := |facts| - 1;
      Definitions(facts[..n], confirmed, ready)
      + if facts[n].role == Fact then [DefinitionFor(facts[n], confirmed, ready)] else []
  }

  /** The names `star_columns` advertises for one dataset. */
  function Advertised(id: nat, listed: seq<Edge>, ready: seq<Dataset>): seq<string> {
    if |listed| == 0 then []
    else
      var n := |listed| - 1;
      Advertised(id, listed[..n], ready)
      + if listed[n].Usable() && listed[n].from == id && ById(ready, listed[n].to).Some? then
          AddedBy(listed[n], ById(ready, listed[n].to).value)
        else []
  }

  function AddedBy(e: Edge, dimension: Dataset): seq<string> {
    var columns := Except(dimension.columns, e.toColumn);
    seq(|columns|, i requires 0 <= i < |columns| => Prefixed(dimension.slug, columns[i]))
  }

  lemma AddedByOneMore(e: Edge, d: Dataset, i: nat)
    requires i < |d.columns|
    ensures AddedBy(e, d.(columns := d.columns[..i + 1]))
         == AddedBy(e, d.(columns := d.columns[..i]))
          + if d.columns[i] == e.toColumn then [] else [Prefixed(d.slug, d.columns[i])]
  {
    assert d.columns[..i + 1][..i] == d.columns[..i];
  }

  /** The edge a candidate stands for. */
  function EdgeOf(c: Candidate, ready: seq<Dataset>): Edge
    requires BySlug(ready, c.fromTable).Some? && BySlug(ready, c.toTable).Some?
  {
    Edge(0, BySlug(ready, c.fromTable).value.id, c.fromColumn, BySlug(ready, c.toTable).value.id, c.toColumn,
         c.Confidence4(), None)
  }

  ghost predicate Named(candidates: seq<Candidate>, ready: seq<Dataset>) {
    forall c :: c in candidates ==> BySlug(ready, c.fromTable).Some? && BySlug(ready, c.toTable).Some?
  }

  /** One proposal: new evidence for a row that was there before the scan, or a new undecided row. */
  function Merged(edges: seq<Edge>, existing: nat, proposal: Edge): (r: seq<Edge>)
    requires existing <= |edges|
    ensures |r| >= |edges|
  {
    var at := FindEnds(edges[..existing], proposal);
    if at.Some? then edges[at.value := edges[at.value].(confidence4 := proposal.confidence4)] else edges + [proposal]
  }

  function MergedAll(edges: seq<Edge>, candidates: seq<Candidate>, ready: seq<Dataset>, firstId: nat): (r: seq<Edge>)
    requires Named(candidates, ready)
    ensures |r| >= |edges|
  {
    if |candidates| == 0 then edges
    else
      var n := |candidates| - 1;
      assert candidates[n] in candidates;
      Merged(MergedAll(edges, candidates[..n], ready, firstId), |edges|,
             EdgeOf(candidates[n], ready).(id := firstId + n))
  }

  lemma MergedOneMore(edges: seq<Edge>, candidates: seq<Candidate>, ready: seq<Dataset>, firstId: nat, k: nat)
    requires Named(candidates, ready) && k < |candidates|
    ensures candidates[k] in candidates && Named(candidates[..k + 1], ready) && Named(candidates[..k], ready)
    ensures MergedAll(edges, candidates[..k + 1], ready, firstId)
         == Merged(MergedAll(edges, candidates[..k], ready, firstId), |edges|,
                   EdgeOf(candidates[k], ready).(id := firstId + k))
  {
    hide Merged;
    hide EdgeOf;
    assert candidates[k] in candidates;
    assert candidates[..k + 1][..k] == candidates[..k];
  }

  /** One table per ready dataset, under its slug. */
  ghost predicate TablesOf(ready: seq<Dataset>, tables: seq<Table>) {
    |tables| == |ready| && forall i :: 0 <= i < |ready| ==> tables[i].name == ready[i].slug
  }

  lemma FoundAreNamed(candidates: seq<Candidate>, tables: seq<Table>, ready: seq<Dataset>)
    requires TablesOf(ready, tables)
    requires forall x :: x in candidates ==> Earned(x, UsableTables(tables))
    ensures Named(candidates, ready)
  {
    hide BySlug;
    hide Passes;
    forall t | t in tables
      ensures BySlug(ready, t.name).Some?
    {
      var i :| 0 <= i < |tables| && tables[i] == t;
      assert ready[i] in ready;
    }
    forall x | x in candidates
      ensures BySlug(ready, x.fromTable).Some? && BySlug(ready, x.toTable).Some?
    {
      assert Earned(x, UsableTables(tables));
    }
  }

  // ----- the service -------------------------------------------------------------------------

  class Model {
    var datasets: seq<Dataset>
    var edges: seq<Edge>

    constructor (datasets: seq<Dataset>)
      ensures this.datasets == datasets && edges == []
    {
      this.datasets := datasets;
      edges := [];
    }

    /** Scans the tables of the ready datasets and records what it finds; `candidates` is what it found. */
    method DetectRelationships(tables: seq<Table>, firstId: nat)
      returns (error: Option<Error>, candidates: seq<Candidate>)
      requires TablesOf(Ready(datasets), tables)
      modifies this`edges
      ensures error == Some(TooFewDatasets) <==> |Ready(datasets)| < 2
      ensures error == Some(UnsafeName) <==> |Ready(datasets)| >= 2 && !NamesSafe(tables)
      ensures error.Some? ==> edges == old(edges) && candidates == []
      ensures error.None? ==>
                && (forall x :: x in candidates ==> Earned(x, UsableTables(tables)))
                && OnePerSource(candidates)
                && (forall y :: Earned(y, UsableTables(tables)) ==> CoveredBy(y, candidates))
                && Named(candidates, Ready(datasets))
                && edges == MergedAll(old(edges), candidates, Ready(datasets), firstId)
    {
      hide Earned;
      hide CoveredBy;
      hide NamesSafe;
      var ready := Ready(datasets);
      if |ready| < 2 {
        return Some(TooFewDatasets), [];
      }
      var scanned := Relationships.Detect(tables);
      if scanned.Err? {
        return Some(UnsafeName), [];
      }
      candidates := scanned.value;
      FoundAreNamed(candidates, tables, ready);
      RecordCandidates(candidates, firstId);
      return None, candidates;
    }

    /** The loop over candidates: evidence for known edges, new rows for the others. */
    method RecordCandidates(candidates: seq<Candidate>, firstId: nat)
      requires Named(candidates, Ready(datasets))
      modifies this`edges
      ensures edges == MergedAll(old(edges), candidates, Ready(datasets), firstId)
    {
      var ready := Ready(datasets);
      var existing := |edges|;
      for k := 0 to |candidates|
        invariant Named(candidates[..k], ready)
        invariant edges == MergedAll(old(edges), candidates[..k], ready, firstId)
      {
        var c := candidates[k];
        assert c in candidates;
        MergedOneMore(old(edges), candidates, ready, firstId, k);
        hide MergedAll;
        var from, to := BySlug(ready, c.fromTable).value, BySlug(ready, c.toTable).value;
        var proposal := Edge(firstId + k, from.id, c.fromColumn, to.id, c.toColumn, c.Confidence4(), None);
        var at := FindEnds(edges[..existing], proposal);
        if at.Some? {
          edges := edges[at.value := edges[at.value].(confidence4 := c.Confidence4())];
        } else {
          edges := edges + [proposal];
        }
      }
      assert candidates[..|candidates|] == candidates;
    }

    method Decide(id: nat, confirmed: bool) returns (error: Option<Error>, definitions: seq<Definition>)
      modifies this
      ensures error.Some? <==> forall e :: e in old(edges) ==> e.id != id
      ensures error.Some? ==> edges == old(edges) && datasets == old(datasets) && definitions == []
      ensures error.None? ==>
                && (exists k :: 0 <= k < |old(edges)| && old(edges)[k].id == id
                      && edges == old(edges)[k := old(edges)[k].(confirmed := Some(confirmed))])
                && var inModel := Confirmed(Listing(edges), Ready(old(datasets)));
                   && datasets == WithRoles(old(datasets), inModel)
                   && definitions == Definitions(Ready(datasets), inModel, Ready(old(datasets)))
    {
      var at := FindId(edges, id);
      if at.None? {
        return Some(NotFound), [];
      }
      edges := edges[at.value := edges[at.value].(confirmed := Some(confirmed))];
      error := None;
      definitions := RebuildModel();
    }

    method RebuildModel() returns (definitions: seq<Definition>)
      modifies this`datasets
      ensures var inModel := Confirmed(Listing(edges), Ready(old(datasets)));
              && datasets == WithRoles(old(datasets), inModel)
              && definitions == Definitions(Ready(datasets), inModel, Ready(old(datasets)))
    {
      var ready := Ready(datasets);
      var confirmed := Confirmed(Listing(edges), ready);
      AssignRoles(confirmed);
      definitions := BuildDefinitions(Ready(datasets), confirmed, ready);
    }

    method BuildDefinitions(tables: seq<Dataset>, confirmed: seq<Edge>, ready: seq<Dataset>)
      returns (definitions: seq<Definition>)
      requires forall e :: e in confirmed ==> InModel(e, ready)
      ensures definitions == Definitions(tables, confirmed, ready)
    {
      hide JoinsFor;
      hide InModel;
      definitions := [];
      for k := 0 to |tables|
        invariant definitions == Definitions(tables[..k], confirmed, ready)
      {
        assert tables[..k + 1][..k] == tables[..k];
        if tables[k].role != Fact {
          continue;
        }
        var joins := BuildJoins(tables[k].id, confirmed, ready);
        definitions := definitions + [Definition(tables[k].slug, tables[k].columns, joins)];
      }
      assert tables[..|tables|] == tables;
    }

    method AssignRoles(confirmed: seq<Edge>)
      modifies this`datasets
      ensures datasets == WithRoles(old(datasets), confirmed)
    {
      for k := 0 to |datasets|
        invariant |datasets| == |old(datasets)|
        invariant forall i :: 0 <= i < k ==> datasets[i] == WithRoles(old(datasets), confirmed)[i]
        invariant forall i :: k <= i < |datasets| ==> datasets[i] == old(datasets)[i]
      {
        var d := datasets[k];
        if d.ready {
          var role := if exists e :: e in confirmed && e.from == d.id then Fact
                      else if exists e :: e in confirmed && e.to == d.id then DimensionTable
                      else Unknown;
          datasets := datasets[k := d.(role := role)];
        }
      }
    }

    method BuildJoins(id: nat, confirmed: seq<Edge>, ready: seq<Dataset>) returns (joins: seq<Join>)
      requires forall e :: e in confirmed ==> InModel(e, ready)
      ensures joins == JoinsFor(id, confirmed, ready)
    {
      joins := [];
      for j := 0 to |confirmed|
        invariant forall e :: e in confirmed[..j] ==> InModel(e, ready)
        invariant joins == JoinsFor(id, confirmed[..j], ready)
      {
        assert confirmed[..j + 1][..j] == confirmed[..j];
        assert confirmed[j] in confirmed;
        if confirmed[j].from != id {
          continue;
        }
        var dimension := ById(ready, confirmed[j].to).value;
        joins := joins + [Join(dimension.slug, confirmed[j].fromColumn, confirmed[j].toColumn,
                               Except(dimension.columns, confirmed[j].toColumn))];
      }
      assert confirmed[..|confirmed|] == confirmed;
    }

    method StarColumns(d: Dataset) returns (columns: seq<string>)
      ensures d.role != Fact ==> columns == []
      ensures d.role == Fact ==> columns == Advertised(d.id, Listing(edges), Ready(datasets))
    {
      columns := [];
      if d.role != Fact {
        return;
      }
      var ready, listed := Ready(datasets), Listing(edges);
      for k := 0 to |listed|
        invariant columns == Advertised(d.id, listed[..k], ready)
      {
        assert listed[..k + 1][..k] == listed[..k];
        var e := listed[k];
        if !e.Usable() || e.from != d.id || ById(ready, e.to).None? {
          continue;
        }
        var dimension := ById(ready, e.to).value;
        ghost var before := columns;
        assert AddedBy(e, dimension.(columns := dimension.columns[..0])) == [];
        for i := 0 to |dimension.columns|
          invariant columns == before + AddedBy(e, dimension.(columns := dimension.columns[..i]))
        {
          hide *;
          AddedByOneMore(e, dimension, i);
          if dimension.columns[i] == e.toColumn {
            continue;
          }
          columns := columns + [Prefixed(dimension.slug, dimension.columns[i])];
        }
        assert dimension.columns[..|dimension.columns|] == dimension.columns;
      }
      assert listed[..|listed|] == listed;
    }
  }

  function FindEnds(edges: seq<Edge>, e: Edge): (r: Option<nat>)
    ensures r.Some? ==> r.value < |edges| && edges[r.value].SameEnds(e)
    ensures r.None? ==> forall x :: x in edges ==> !x.SameEnds(e)
  {
    if |edges| == 0 then None
    else if edges[0].SameEnds(e) then Some(0)
    else
      var r := FindEnds(edges[1..], e);
      if r.Some? then Some(r.value + 1) else None
  }

  function FindId(edges: seq<Edge>, id: nat): (r: Option<nat>)
    ensures r.Some? ==> r.value < |edges| && edges[r.value].id == id
    ensures r.None? <==> forall x :: x in edges ==> x.id != id
  {
    if |edges| == 0 then None
    else if edges[0].id == id then Some(0)
    else
      var r := FindId(edges[1..], id);
      if r.Some? then Some(r.value + 1) else None
  }

  // ----- what the model guarantees ---------------------------------------------------------------

  /** Detection proposes and refreshes evidence: no decision is overturned, none is made. */
  lemma {:induction false} DecisionsSurviveDetection(edges: seq<Edge>, candidates: seq<Candidate>,
                                                     ready: seq<Dataset>, firstId: nat)
    requires Named(candidates, ready)
    ensures var after := MergedAll(edges, candidates, ready, firstId);
            && (forall i :: 0 <= i < |edges| ==>
                  && after[i].id == edges[i].id && after[i].confirmed == edges[i].confirmed
                  && after[i].SameEnds(edges[i]))
            && (forall i :: |edges| <= i < |after| ==> after[i].confirmed.None?)
  {
    if |candidates| != 0 {
      DecisionsSurviveDetection(edges, candidates[..|candidates| - 1], ready, firstId);
    }
  }

  ghost predicate Recorded(c: Candidate, edges: seq<Edge>, ready: seq<Dataset>) {
    exists i :: 0 <= i < |edges| && Names(edges[i], c, ready)
  }

  /** The edge runs from the candidate's source column to its target, between the datasets of those slugs. */
  ghost predicate Names(e: Edge, c: Candidate, ready: seq<Dataset>) {
    && BySlug(ready, c.fromTable).Some? && BySlug(ready, c.toTable).Some?
    && e.from == BySlug(ready, c.fromTable).value.id && e.fromColumn == c.fromColumn
    && e.to == BySlug(ready, c.toTable).value.id && e.toColumn == c.toColumn
  }

  lemma MergedKeepsEnds(edges: seq<Edge>, existing: nat, proposal: Edge)
    requires existing <= |edges|
    ensures var after := Merged(edges, existing, proposal);
            && (forall i :: 0 <= i < |edges| ==> after[i].SameEnds(edges[i]))
            && exists i :: 0 <= i < |after| && after[i].SameEnds(proposal)
  {
    var after := Merged(edges, existing, proposal);
    var at := FindEnds(edges[..existing], proposal);
    if at.Some? {
      assert after[at.value].SameEnds(proposal);
    } else {
      assert after[|edges|].SameEnds(proposal);
    }
  }

  lemma RecordedLasts(c: Candidate, before: seq<Edge>, after: seq<Edge>, ready: seq<Dataset>)
    requires BySlug(ready, c.fromTable).Some? && BySlug(ready, c.toTable).Some? && Recorded(c, before, ready)
    requires |before| <= |after| && forall i :: 0 <= i < |before| ==> after[i].SameEnds(before[i])
    ensures Recorded(c, after, ready)
  {
    var i :| 0 <= i < |before| && Names(before[i], c, ready);
    assert after[i].SameEnds(before[i]) && Names(after[i], c, ready);
  }

  lemma JustRecorded(c: Candidate, edges: seq<Edge>, existing: nat, id: nat, ready: seq<Dataset>)
    requires BySlug(ready, c.fromTable).Some? && BySlug(ready, c.toTable).Some? && existing <= |edges|
    ensures Recorded(c, Merged(edges, existing, EdgeOf(c, ready).(id := id)), ready)
  {
    hide Merged;
    var proposal := EdgeOf(c, ready).(id := id);
    MergedKeepsEnds(edges, existing, proposal);
    var after := Merged(edges, existing, proposal);
    var i :| 0 <= i < |after| && after[i].SameEnds(proposal);
    assert Names(after[i], c, ready);
  }

  lemma CandidateIsNamed(candidates: seq<Candidate>, ready: seq<Dataset>, k: nat)
    requires Named(candidates, ready) && k < |candidates|
    ensures BySlug(ready, candidates[k].fromTable).Some? && BySlug(ready, candidates[k].toTable).Some?
  {
    assert candidates[k] in candidates;
  }

  lemma NamedUpTo(candidates: seq<Candidate>, ready: seq<Dataset>, n: nat)
    requires Named(candidates, ready) && n <= |candidates|
    ensures Named(candidates[..n], ready)
  {
    assert forall c :: c in candidates[..n] ==> c in candidates;
  }

  lemma {:induction false} RecordedSoFar(edges: seq<Edge>, candidates: seq<Candidate>,
                                         ready: seq<Dataset>, firstId: nat, n: nat, k: nat)
    requires Named(candidates, ready) && k < n <= |candidates|
    requires Named(candidates[..n], ready)
    requires BySlug(ready, candidates[k].fromTable).Some? && BySlug(ready, candidates[k].toTable).Some?
    ensures Recorded(candidates[k], MergedAll(edges, candidates[..n], ready, firstId), ready)
  {
    hide *;
    var m := n - 1;
    NamedUpTo(candidates, ready, m);
    MergedOneMore(edges, candidates, ready, firstId, m);
    CandidateIsNamed(candidates, ready, m);
    var before := MergedAll(edges, candidates[..m], ready, firstId);
    if k < m {
      RecordedSoFar(edges, candidates, ready, firstId, m, k);
      MergedKeepsEnds(before, |edges|, EdgeOf(candidates[m], ready).(id := firstId + m));
      RecordedLasts(candidates[k], before, MergedAll(edges, candidates[..n], ready, firstId), ready);
    } else {
      JustRecorded(candidates[m], before, |edges|, firstId + m, ready);
    }
  }

  /** Every candidate is on record afterwards. */
  lemma CandidatesAreRecorded(edges: seq<Edge>, candidates: seq<Candidate>,
                              ready: seq<Dataset>, firstId: nat, k: nat)
    requires Named(candidates, ready) && k < |candidates|
    ensures Recorded(candidates[k], MergedAll(edges, candidates, ready, firstId), ready)
  {
    CandidateIsNamed(candidates, ready, k);
    hide *;
    assert candidates[..|candidates|] == candidates;
    RecordedSoFar(edges, candidates, ready, firstId, |candidates|, k);
  }

  /** The row of a known edge, with a candidate's confidence for evidence and nothing else changed. */
  ghost predicate Refreshed(before: Edge, after: Edge, c: Candidate, ready: seq<Dataset>) {
    Names(before, c, ready) && after == before.(confidence4 := c.Confidence4())
  }

  /** A new row, undecided, for a candidate. */
  ghost predicate Proposed(e: Edge, c: Candidate, ready: seq<Dataset>, id: nat) {
    Names(e, c, ready) && e.confidence4 == c.Confidence4() && e.confirmed.None? && e.id == id
  }

  /** One candidate refreshes one known row, or adds one. */
  ghost predicate MergedAs(edges: seq<Edge>, after: seq<Edge>, existing: nat, c: Candidate,
                           ready: seq<Dataset>, id: nat) {
    || (exists e :: Proposed(e, c, ready, id) && after == edges + [e])
    || (|after| == |edges|
        && exists i :: 0 <= i < existing && i < |edges|
             && Refreshed(edges[i], after[i], c, ready) && after == edges[i := after[i]])
  }

  lemma MergedChanges(edges: seq<Edge>, existing: nat, c: Candidate, ready: seq<Dataset>, id: nat)
    requires BySlug(ready, c.fromTable).Some? && BySlug(ready, c.toTable).Some? && existing <= |edges|
    ensures MergedAs(edges, Merged(edges, existing, EdgeOf(c, ready).(id := id)), existing, c, ready, id)
  {
    hide BySlug;
    var proposal := EdgeOf(c, ready).(id := id);
    var after := Merged(edges, existing, proposal);
    var at := FindEnds(edges[..existing], proposal);
    if at.Some? {
      assert Refreshed(edges[at.value], after[at.value], c, ready);
    } else {
      assert Proposed(proposal, c, ready, id);
    }
  }

  /**
   * Only evidence is written: a known row stays, but for the confidence of a
   * candidate it names; every new row is an undecided candidate.
   */
  ghost predicate EvidenceOnly(edges: seq<Edge>, after: seq<Edge>, candidates: seq<Candidate>,
                               ready: seq<Dataset>, firstId: nat) {
    && |edges| <= |after|
    && (forall i :: 0 <= i < |edges| ==>
          after[i] == edges[i] || exists c :: c in candidates && Refreshed(edges[i], after[i], c, ready))
    && (forall i :: |edges| <= i < |after| ==>
          exists k :: 0 <= k < |candidates| && Proposed(after[i], candidates[k], ready, firstId + k))
  }

  lemma EvidenceStep(edges: seq<Edge>, before: seq<Edge>, after: seq<Edge>, candidates: seq<Candidate>,
                     ready: seq<Dataset>, firstId: nat)
    requires |candidates| > 0
    requires var n := |candidates| - 1;
             && EvidenceOnly(edges, before, candidates[..n], ready, firstId)
             && MergedAs(before, after, |edges|, candidates[n], ready, firstId + n)
    ensures EvidenceOnly(edges, after, candidates, ready, firstId)
  {
    hide Refreshed;
    hide Proposed;
    var n := |candidates| - 1;
    var front, c := candidates[..n], candidates[n];
    assert c in candidates && forall x :: x in front ==> x in candidates;
    forall i | |edges| <= i < |after|
      ensures exists k :: 0 <= k < |candidates| && Proposed(after[i], candidates[k], ready, firstId + k)
    {
      if i < |before| {
        var k :| 0 <= k < n && Proposed(before[i], front[k], ready, firstId + k);
        assert candidates[k] == front[k];
      } else {
        assert Proposed(after[i], candidates[n], ready, firstId + n);
      }
    }
    forall i | 0 <= i < |edges|
      ensures after[i] == edges[i] || exists x :: x in candidates && Refreshed(edges[i], after[i], x, ready)
    {
      RefreshedOnTop(edges[i], before[i], after[i], front, c, ready);
    }
  }

  lemma {:induction false} OnlyEvidenceIsWritten(edges: seq<Edge>, candidates: seq<Candidate>,
                                                 ready: seq<Dataset>, firstId: nat)
    requires Named(candidates, ready)
    ensures EvidenceOnly(edges, MergedAll(edges, candidates, ready, firstId), candidates, ready, firstId)
  {
    if |candidates| != 0 {
      var n := |candidates| - 1;
      OnlyEvidenceIsWritten(edges, candidates[..n], ready, firstId);
      OneMerge(edges, candidates, ready, firstId);
      var before := MergedAll(edges, candidates[..n], ready, firstId);
      var after := MergedAll(edges, candidates, ready, firstId);
      hide *;
      EvidenceStep(edges, before, after, candidates, ready, firstId);
    }
  }

  lemma OneMerge(edges: seq<Edge>, candidates: seq<Candidate>, ready: seq<Dataset>, firstId: nat)
    requires Named(candidates, ready) && |candidates| > 0
    ensures var n := |candidates| - 1;
            && Named(candidates[..n], ready)
            && MergedAs(MergedAll(edges, candidates[..n], ready, firstId), MergedAll(edges, candidates, ready, firstId),
                        |edges|, candidates[n], ready, firstId + n)
  {
    hide MergedAs;
    hide Merged;
    hide EdgeOf;
    var n := |candidates| - 1;
    CandidateIsNamed(candidates, ready, n);
    MergedChanges(MergedAll(edges, candidates[..n], ready, firstId), |edges|, candidates[n], ready, firstId + n);
  }

  lemma RefreshedOnTop(edge: Edge, before: Edge, after: Edge, front: seq<Candidate>, c: Candidate, ready: seq<Dataset>)
    requires before == edge || exists x :: x in front && Refreshed(edge, before, x, ready)
    requires after == before || Refreshed(before, after, c, ready)
    ensures || after == edge || Refreshed(edge, after, c, ready)
            || exists x :: x in front && Refreshed(edge, after, x, ready)
  {
    hide BySlug;
  }

  ghost predicate OneDatasetPerId(ready: seq<Dataset>) {
    forall d, e :: d in ready && e in ready && d.id == e.id ==> d == e
  }

  ghost predicate RecordedWithItsConfidence(c: Candidate, edges: seq<Edge>, ready: seq<Dataset>) {
    exists i :: 0 <= i < |edges| && Names(edges[i], c, ready) && edges[i].confidence4 == c.Confidence4()
  }

  lemma ConfidenceArrives(edges: seq<Edge>, after: seq<Edge>, existing: nat, c: Candidate,
                          ready: seq<Dataset>, id: nat)
    requires MergedAs(edges, after, existing, c, ready, id)
    ensures RecordedWithItsConfidence(c, after, ready)
  {
    hide BySlug;
    if e :| Proposed(e, c, ready, id) && after == edges + [e] {
      assert after[|edges|] == e;
    }
  }

  lemma ConfidenceStays(a: Candidate, edges: seq<Edge>, after: seq<Edge>, existing: nat, c: Candidate,
                        ready: seq<Dataset>, id: nat)
    requires MergedAs(edges, after, existing, c, ready, id)
    requires RecordedWithItsConfidence(a, edges, ready) && OneDatasetPerId(ready) && !SameSource(a, c)
    ensures RecordedWithItsConfidence(a, after, ready)
  {
    var k :| 0 <= k < |edges| && Names(edges[k], a, ready) && edges[k].confidence4 == a.Confidence4();
    DifferentSourcesDifferentEdges(edges[k], a, c, ready);
    hide Names;
    assert after[k] == edges[k];
  }

  lemma LastSourceIsNew(candidates: seq<Candidate>, k: nat)
    requires OnePerSource(candidates) && k < |candidates| - 1
    ensures OnePerSource(candidates[..|candidates| - 1])
    ensures !SameSource(candidates[k], candidates[|candidates| - 1])
  {
    hide SameSource;
  }

  /** And every candidate's confidence is on record afterwards, under its ends. */
  lemma {:induction false} EvidenceIsRecorded(edges: seq<Edge>, candidates: seq<Candidate>,
                                              ready: seq<Dataset>, firstId: nat, k: nat)
    requires Named(candidates, ready) && OnePerSource(candidates) && OneDatasetPerId(ready) && k < |candidates|
    ensures RecordedWithItsConfidence(candidates[k], MergedAll(edges, candidates, ready, firstId), ready)
  {
    hide *;
    var n := |candidates| - 1;
    OneMerge(edges, candidates, ready, firstId);
    var before := MergedAll(edges, candidates[..n], ready, firstId);
    var after := MergedAll(edges, candidates, ready, firstId);
    if k < n {
      LastSourceIsNew(candidates, k);
      EvidenceIsRecorded(edges, candidates[..n], ready, firstId, k);
      assert candidates[..n][k] == candidates[k];
      ConfidenceStays(candidates[k], before, after, |edges|, candidates[n], ready, firstId + n);
    } else {
      ConfidenceArrives(before, after, |edges|, candidates[n], ready, firstId + n);
    }
  }

  lemma DifferentSourcesDifferentEdges(e: Edge, a: Candidate, b: Candidate, ready: seq<Dataset>)
    requires OneDatasetPerId(ready) && !SameSource(a, b) && Names(e, a, ready)
    ensures !Names(e, b, ready)
  {
    hide BySlug;
  }

  /** The join compares the edge's own two columns, in the edge's own table, and carries every other column of it. */
  ghost predicate StandsFor(j: Join, e: Edge, ready: seq<Dataset>) {
    && e.confirmed == Some(true)
    && j.factColumn == e.fromColumn && j.dimensionColumn == e.toColumn
    && ById(ready, e.from).Some?
    && match ById(ready, e.to)
       case None => false
       case Some(d) => j.dimensionTable == d.slug && forall c :: c in j.columns <==> c in d.columns && c != e.toColumn
  }

  lemma JoinForStands(e: Edge, ready: seq<Dataset>)
    requires InModel(e, ready)
    ensures StandsFor(JoinFor(e, ById(ready, e.to).value), e, ready)
  {
  }

  /** There is one join for each edge out of the dataset, in the order of the edges, and it stands for it. */
  ghost predicate JoinsFollow(joins: seq<Join>, at: seq<nat>, id: nat, confirmed: seq<Edge>, ready: seq<Dataset>) {
    Follows(joins, at, confirmed, (e: Edge) => e.from == id, (j: Join, e: Edge) => StandsFor(j, e, ready))
  }

  /** The joins of a fact, one by one: which confirmed edge each stands for, in the order of the edges. */
  lemma {:induction false} JoinsFollowTheEdges(id: nat, confirmed: seq<Edge>, ready: seq<Dataset>)
    returns (at: seq<nat>)
    requires forall e :: e in confirmed ==> InModel(e, ready)
    ensures JoinsFollow(JoinsFor(id, confirmed, ready), at, id, confirmed, ready)
  {
    at := [];
    if |confirmed| != 0 {
      var n := |confirmed| - 1;
      var front, e := confirmed[..n], confirmed[n];
      assert confirmed == front + [e] && e in confirmed;
      at := JoinsFollowTheEdges(id, front, ready);
      JoinsForOneMore(id, front, e, ready);
      JoinForStands(e, ready);
      var joins, join := JoinsFor(id, front, ready), JoinFor(e, ById(ready, e.to).value);
      hide *;
      assert joins + [] == joins;
      FollowsOneMore(joins, at, confirmed, join,
                     (e: Edge) => e.from == id, (j: Join, e: Edge) => StandsFor(j, e, ready));
      if e.from == id {
        at := at + [n];
      }
    }
  }

  /** Only a human-confirmed edge between ready datasets ever becomes a join. */
  lemma JoinsComeFromConfirmedEdges(id: nat, confirmed: seq<Edge>, ready: seq<Dataset>, j: Join)
    requires forall e :: e in confirmed ==> InModel(e, ready)
    requires j in JoinsFor(id, confirmed, ready)
    ensures exists e :: e in confirmed && e.from == id && StandsFor(j, e, ready)
  {
    hide StandsFor;
    var at := JoinsFollowTheEdges(id, confirmed, ready);
    var i :| 0 <= i < |at| && JoinsFor(id, confirmed, ready)[i] == j;
    assert at[i] in at && confirmed[at[i]] in confirmed;
  }

  /** The listing holds every edge once, the most confident first. */
  lemma ListingIsByConfidence(edges: seq<Edge>)
    ensures multiset(Listing(edges)) == multiset(edges)
    ensures forall i, j :: 0 <= i < j < |Listing(edges)| ==>
              Listing(edges)[i].confidence4 >= Listing(edges)[j].confidence4
  {
    SortByIsSorted(edges, MoreConfident);
  }

  ghost predicate ReadyId(id: nat, datasets: seq<Dataset>) {
    exists d :: d in datasets && d.ready && d.id == id
  }

  /** Confirmed by a person, between two ready datasets. */
  ghost predicate Modelled(e: Edge, datasets: seq<Dataset>) {
    e.confirmed == Some(true) && ReadyId(e.from, datasets) && ReadyId(e.to, datasets)
  }

  /** The edges of the model are those, in the order of the listing. */
  lemma {:induction false} ConfirmedFollowsTheListing(listed: seq<Edge>, datasets: seq<Dataset>)
    returns (at: seq<nat>)
    ensures Follows(Confirmed(listed, Ready(datasets)), at, listed,
                    (e: Edge) => Modelled(e, datasets), (x: Edge, e: Edge) => x == e)
  {
    at := [];
    if |listed| != 0 {
      var n := |listed| - 1;
      var front, e := Confirmed(listed[..n], Ready(datasets)), listed[n];
      at := ConfirmedFollowsTheListing(listed[..n], datasets);
      InModelMeans(e, datasets);
      assert Confirmed(listed, Ready(datasets)) == if InModel(e, Ready(datasets)) then front + [e] else front;
      hide *;
      FollowsOneMore(front, at, listed, e, (e: Edge) => Modelled(e, datasets), (x: Edge, e: Edge) => x == e);
      if InModel(e, Ready(datasets)) {
        at := at + [n];
      }
    }
  }

  lemma InModelMeans(e: Edge, datasets: seq<Dataset>)
    ensures InModel(e, Ready(datasets)) <==> Modelled(e, datasets)
  {
    hide Ready;
    hide ById;
  }

  lemma ModelHoldsTheModelled(datasets: seq<Dataset>, edges: seq<Edge>)
    ensures forall e :: e in Confirmed(Listing(edges), Ready(datasets)) <==> e in edges && Modelled(e, datasets)
  {
    MembershipPreserved(edges, MoreConfident);
    forall e
      ensures InModel(e, Ready(datasets)) <==> Modelled(e, datasets)
    {
      InModelMeans(e, datasets);
    }
    hide InModel;
    hide Confirmed;
    hide Modelled;
    hide MoreConfident;
  }

  /** An edge of the model goes out of this dataset. */
  ghost predicate PointsOut(id: nat, edges: seq<Edge>, datasets: seq<Dataset>) {
    exists e :: e in edges && Modelled(e, datasets) && e.from == id
  }

  /** An edge of the model goes into it. */
  ghost predicate PointedAt(id: nat, edges: seq<Edge>, datasets: seq<Dataset>) {
    exists e :: e in edges && Modelled(e, datasets) && e.to == id
  }

  /** A rebuild gives every ready dataset its role, facts before dimensions, and changes nothing else. */
  lemma RolesFollowTheEdges(datasets: seq<Dataset>, edges: seq<Edge>, i: nat)
    requires i < |datasets|
    ensures var d, after := datasets[i], WithRoles(datasets, Confirmed(Listing(edges), Ready(datasets)))[i];
            && after == d.(role := after.role)
            && (!d.ready ==> after.role == d.role)
            && (d.ready ==> (after.role == Fact <==> PointsOut(d.id, edges, datasets)))
            && (d.ready ==> (after.role == DimensionTable <==>
                  PointedAt(d.id, edges, datasets) && !PointsOut(d.id, edges, datasets)))
  {
    hide *;
    WithRolesIs(datasets, Confirmed(Listing(edges), Ready(datasets)), i);
    ModelHoldsTheModelled(datasets, edges);
    RoleForIs(datasets[i].id, Confirmed(Listing(edges), Ready(datasets)), edges, datasets);
  }

  lemma WithRolesIs(datasets: seq<Dataset>, confirmed: seq<Edge>, i: nat)
    requires i < |datasets|
    ensures WithRoles(datasets, confirmed)[i]
         == if datasets[i].ready then datasets[i].(role := RoleFor(datasets[i].id, confirmed)) else datasets[i]
  {
    hide RoleFor;
  }

  lemma RoleForIs(id: nat, confirmed: seq<Edge>, edges: seq<Edge>, datasets: seq<Dataset>)
    requires forall e :: e in confirmed <==> e in edges && Modelled(e, datasets)
    ensures RoleFor(id, confirmed) == Fact <==> PointsOut(id, edges, datasets)
    ensures RoleFor(id, confirmed) == DimensionTable
       <==> PointedAt(id, edges, datasets) && !PointsOut(id, edges, datasets)
  {
    hide Modelled;
    if e :| e in edges && Modelled(e, datasets) && e.from == id {
      assert e in confirmed;
    }
    if e :| e in edges && Modelled(e, datasets) && e.to == id {
      assert e in confirmed;
    }
    if e :| e in confirmed && e.from == id {
      assert e in edges;
    }
    if e :| e in confirmed && e.to == id {
      assert e in edges;
    }
  }

  /** There is one definition for each fact, in the order of the datasets, of its own table and columns. */
  lemma {:induction false} DefinitionsFollowTheFacts(facts: seq<Dataset>, confirmed: seq<Edge>, ready: seq<Dataset>)
    returns (at: seq<nat>)
    requires forall e :: e in confirmed ==> InModel(e, ready)
    ensures Follows(Definitions(facts, confirmed, ready), at, facts, (d: Dataset) => d.role == Fact,
                    (q: Definition, d: Dataset) => DefinesTheStarOf(q, d, confirmed, ready))
  {
    at := [];
    if |facts| != 0 {
      var n := |facts| - 1;
      var front, q := Definitions(facts[..n], confirmed, ready), DefinitionFor(facts[n], confirmed, ready);
      at := DefinitionsFollowTheFacts(facts[..n], confirmed, ready);
      DefinitionDefines(facts[n], confirmed, ready);
      assert Definitions(facts, confirmed, ready) == if facts[n].role == Fact then front + [q] else front;
      hide *;
      FollowsOneMore(front, at, facts, q, (d: Dataset) => d.role == Fact,
                     (q: Definition, d: Dataset) => DefinesTheStarOf(q, d, confirmed, ready));
      if facts[n].role == Fact {
        at := at + [n];
      }
    }
  }

  ghost predicate DefinesTheStarOf(q: Definition, d: Dataset, confirmed: seq<Edge>, ready: seq<Dataset>) {
    && q.factTable == d.slug && q.factColumns == d.columns
    && exists at :: JoinsFollow(q.joins, at, d.id, confirmed, ready)
  }

  lemma DefinitionDefines(d: Dataset, confirmed: seq<Edge>, ready: seq<Dataset>)
    requires forall e :: e in confirmed ==> InModel(e, ready)
    ensures DefinesTheStarOf(DefinitionFor(d, confirmed, ready), d, confirmed, ready)
  {
    var at := JoinsFollowTheEdges(d.id, confirmed, ready);
    hide JoinsFollow;
    hide StandsFor;
    hide JoinsFor;
  }

  /** A ready table is a fact exactly when its star has a join: no fact view is ever a bare copy. */
  lemma {:induction false} FactsAreThoseWithJoins(id: nat, confirmed: seq<Edge>, ready: seq<Dataset>)
    requires forall e :: e in confirmed ==> InModel(e, ready)
    ensures RoleFor(id, confirmed) == Fact <==> |JoinsFor(id, confirmed, ready)| > 0
  {
    if |confirmed| != 0 {
      var n := |confirmed| - 1;
      FactsAreThoseWithJoins(id, confirmed[..n], ready);
      assert confirmed == confirmed[..n] + [confirmed[n]];
      assert forall e :: e in confirmed <==> e in confirmed[..n] || e == confirmed[n];
    }
  }

  /** The columns the view adds are exactly those advertised, in the same order. */
  lemma {:induction false} AdvertisedColumnsAreAdded(d: Dataset, listed: seq<Edge>, ready: seq<Dataset>)
    requires ById(ready, d.id).Some?
    ensures AddedNames(DefinitionFor(d, Confirmed(listed, ready), ready).joins) == Advertised(d.id, listed, ready)
  {
    if |listed| != 0 {
      var n := |listed| - 1;
      AdvertisedColumnsAreAdded(d, listed[..n], ready);
      var front, e := Confirmed(listed[..n], ready), listed[n];
      var before, known := JoinsFor(d.id, front, ready), Advertised(d.id, listed[..n], ready);
      hide AddedNames;
      hide AddedBy;
      hide JoinFor;
      hide JoinsFor;
      if InModel(e, ready) {
        assert Confirmed(listed, ready) == front + [e];
        JoinsForOneMore(d.id, front, e, ready);
        if e.from == d.id {
          AddedNamesOneMore(before, e, ById(ready, e.to).value);
        } else {
          assert before + [] == before && known + [] == known;
        }
      } else {
        assert Confirmed(listed, ready) == front + [] == front;
        assert known + [] == known;
      }
    }
  }

  lemma JoinsForOneMore(id: nat, front: seq<Edge>, e: Edge, ready: seq<Dataset>)
    requires InModel(e, ready) && forall x :: x in front ==> InModel(x, ready)
    ensures forall x :: x in front + [e] ==> InModel(x, ready)
    ensures JoinsFor(id, front + [e], ready)
         == JoinsFor(id, front, ready) + if e.from == id then [JoinFor(e, ById(ready, e.to).value)] else []
  {
    assert (front + [e])[..|front|] == front;
  }

  lemma AddedNamesOneMore(before: seq<Join>, e: Edge, dimension: Dataset)
    ensures AddedNames(before + [JoinFor(e, dimension)]) == AddedNames(before) + AddedBy(e, dimension)
  {
    assert (before + [JoinFor(e, dimension)])[..|before|] == before;
  }

  /** So a reader of `star_columns` knows the whole header of the view. */
  lemma HeaderIsAdvertised(d: Dataset, listed: seq<Edge>, ready: seq<Dataset>)
    requires ById(ready, d.id).Some?
    ensures Header(Compiled(DefinitionFor(d, Confirmed(listed, ready), ready)).projection)
         == d.columns + Advertised(d.id, listed, ready)
  {
    AdvertisedColumnsAreAdded(d, listed, ready);
    HeaderIsFactThenAdded(DefinitionFor(d, Confirmed(listed, ready), ready),
                          |DefinitionFor(d, Confirmed(listed, ready), ready).joins|);
  }

  /** Every confirmed edge still passes the uniqueness gate on today's tables. */
  ghost predicate GatesHold(confirmed: seq<Edge>, ready: seq<Dataset>, db: Database)
    requires forall e :: e in confirmed ==> InModel(e, ready)
  {
    forall e :: e in confirmed ==>
      assert InModel(e, ready);
      var rows := RowsOf(db, ById(ready, e.to).value.slug);
      CountDistinct(rows, e.toColumn) == CountPresent(rows, e.toColumn)
  }

  lemma JoinsGoToKeys(d: Dataset, confirmed: seq<Edge>, ready: seq<Dataset>, db: Database)
    requires forall e :: e in confirmed ==> InModel(e, ready)
    requires GatesHold(confirmed, ready, db)
    ensures JoinsOnKeys(DefinitionFor(d, confirmed, ready), db)
  {
    forall j | j in DefinitionFor(d, confirmed, ready).joins
      ensures IsKey(RowsOf(db, j.dimensionTable), j.dimensionColumn)
    {
      JoinsComeFromConfirmedEdges(d.id, confirmed, ready, j);
      var e :| e in confirmed && e.from == d.id && StandsFor(j, e, ready);
      DistinctEqualsTotalIffKey(RowsOf(db, j.dimensionTable), j.dimensionColumn);
    }
  }

  /**
   * The whole promise: from edges whose targets pass the uniqueness gate, however
   * they were proposed and confirmed, every star view shows its fact table row for row.
   */
  lemma ConfirmedModelKeepsFacts(d: Dataset, confirmed: seq<Edge>, ready: seq<Dataset>, db: Database)
    requires forall e :: e in confirmed ==> InModel(e, ready)
    requires GatesHold(confirmed, ready, db)
    ensures var definition := DefinitionFor(d, confirmed, ready);
            var view := Evaluate(Compiled(definition), db);
            && |view| == |RowsOf(db, d.slug)|
            && (forall row :: row in view ==> |row| >= |d.columns|)
            && CutToFact(definition, view) == FactProjection(definition, db)
  {
    var definition := DefinitionFor(d, confirmed, ready);
    JoinsGoToKeys(d, confirmed, ready, db);
    StarPreservesFacts(definition, db);
  }

  /** In the view, the cell of column c that a key names: the dimension row's with that key, or NULL. */
  ghost predicate ShowsTheMatch(shown: Cell, key: Cell, rows: seq<Row>, keyColumn: string, c: string) {
    if exists r :: r in rows && SqlEquals(key, At(r, keyColumn)) then
      exists r :: r in rows && SqlEquals(key, At(r, keyColumn)) && shown == At(r, c)
    else shown == Null
  }

  /** The joins name edge k, and its dimension's column c has a place in the view's rows. */
  lemma PlaceOfAColumn(d: Dataset, confirmed: seq<Edge>, ready: seq<Dataset>, k: nat, dimension: Dataset, c: string)
    returns (j: nat, m: nat)
    requires forall e :: e in confirmed ==> InModel(e, ready)
    requires k < |confirmed| && confirmed[k].from == d.id
    requires ById(ready, confirmed[k].to) == Some(dimension)
    requires c in dimension.columns && c != confirmed[k].toColumn
    ensures var joins := DefinitionFor(d, confirmed, ready).joins;
            && j < |joins| && m < |joins[j].columns| && joins[j].columns[m] == c
            && joins[j].dimensionTable == dimension.slug
            && joins[j].factColumn == confirmed[k].fromColumn && joins[j].dimensionColumn == confirmed[k].toColumn
  {
    var places := JoinsFollowTheEdges(d.id, confirmed, ready);
    assert k in places;
    j :| 0 <= j < |places| && places[j] == k;
    var columns := JoinsFor(d.id, confirmed, ready)[j].columns;
    assert c in columns;
    m :| 0 <= m < |columns| && columns[m] == c;
  }

  lemma OnePlaceShowsTheMatch(d: Definition, db: Database, i: nat, j: nat, m: nat)
    requires SingleMatches(RowsOf(db, d.factTable), Clauses(d.joins), db)
    requires i < |RowsOf(db, d.factTable)| && j < |d.joins| && m < |d.joins[j].columns|
    ensures var view, at, join := Evaluate(Compiled(d), db), |d.factColumns| + Offset(d.joins, j) + m, d.joins[j];
            && i < |view| && at < |view[i]|
            && ShowsTheMatch(view[i][at], At(RowsOf(db, d.factTable)[i], join.factColumn),
                             RowsOf(db, join.dimensionTable), join.dimensionColumn, join.columns[m])
  {
    hide Evaluate;
    hide Lookup;
    hide Offset;
    hide Compiled;
    JoinedColumnShowsTheLookup(d, db, i, j, m);
    LookupFindsTheMatch(RowsOf(db, d.factTable)[i], Clauses(d.joins)[j], db);
  }

  /**
   * What a confirmed edge does to the view: each other column of its dimension
   * stands under its prefixed name, and shows, for every fact row, the cell of the
   * dimension row whose toColumn equals the fact row's fromColumn, or NULL.
   */
  lemma ConfirmedEdgeShowsTheDimension(d: Dataset, confirmed: seq<Edge>, ready: seq<Dataset>, db: Database,
                                       k: nat, dimension: Dataset, c: string) returns (at: nat)
    requires forall e :: e in confirmed ==> InModel(e, ready)
    requires GatesHold(confirmed, ready, db)
    requires k < |confirmed| && confirmed[k].from == d.id
    requires ById(ready, confirmed[k].to) == Some(dimension)
    requires c in dimension.columns && c != confirmed[k].toColumn
    ensures var q := Compiled(DefinitionFor(d, confirmed, ready));
            && at < |Header(q.projection)| && Header(q.projection)[at] == dimension.slug + "_" + c
            && |Evaluate(q, db)| == |RowsOf(db, d.slug)|
            && forall i :: 0 <= i < |RowsOf(db, d.slug)| ==>
                 && at < |Evaluate(q, db)[i]|
                 && ShowsTheMatch(Evaluate(q, db)[i][at], At(RowsOf(db, d.slug)[i], confirmed[k].fromColumn),
                                  RowsOf(db, dimension.slug), confirmed[k].toColumn, c)
  {
    hide *;
    var definition := DefinitionFor(d, confirmed, ready);
    DefinitionIs(d, confirmed, ready);
    var j, m := PlaceOfAColumn(d, confirmed, ready, k, dimension, c);
    JoinsGoToKeys(d, confirmed, ready, db);
    KeysGiveSingleMatches(definition, db);
    RowsMultiplyExactlyWhen(definition, db);
    at := HeaderPlace(definition, j, m);
    forall i | 0 <= i < |RowsOf(db, d.slug)|
      ensures at < |Evaluate(Compiled(definition), db)[i]|
      ensures ShowsTheMatch(Evaluate(Compiled(definition), db)[i][at],
                            At(RowsOf(db, d.slug)[i], confirmed[k].fromColumn),
                            RowsOf(db, dimension.slug), confirmed[k].toColumn, c)
    {
      OnePlaceShowsTheMatch(definition, db, i, j, m);
    }
  }

  lemma DefinitionIs(d: Dataset, confirmed: seq<Edge>, ready: seq<Dataset>)
    requires forall e :: e in confirmed ==> InModel(e, ready)
    ensures DefinitionFor(d, confirmed, ready).factTable == d.slug
    ensures DefinitionFor(d, confirmed, ready).factColumns == d.columns
  {
  }

  lemma HeaderPlace(definition: Definition, j: nat, m: nat) returns (at: nat)
    requires j < |definition.joins| && m < |definition.joins[j].columns|
    ensures at == |definition.factColumns| + Offset(definition.joins, j) + m
    ensures at < |Header(Compiled(definition).projection)|
    ensures Header(Compiled(definition).projection)[at]
         == definition.joins[j].dimensionTable + "_" + definition.joins[j].columns[m]
  {
    at := |definition.factColumns| + Offset(definition.joins, j) + m;
    assert definition.joins[..|definition.joins|] == definition.joins;
    ItemAtOffset(definition.joins, |definition.joins|, j, m);
  }

  /** What `detect` proposes passes that gate on the tables it looked at. */
  lemma ProposalsPassTheGate(x: Candidate, tables: seq<Table>)
    ensures Earned(x, UsableTables(tables)) ==>
              exists t :: t in tables && t.name == x.toTable && IsKey(t.rows, x.toColumn)
  {
    if from, f, to, t :|
      && from in UsableTables(tables) && to in UsableTables(tables) && f in from.columns && t in to.columns
      && Considered(f) && Considered(t)
      && Passes(from, f, to, t) && x == MakeCandidate(from, f, to, t)
    {
      DistinctEqualsTotalIffKey(to.rows, t.name);
    }
  }
}
