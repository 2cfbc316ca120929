/**
 * Customer features and the lapsed-customer cutoff of ml/churn.py. The
 * classifier that is trained on them comes from outside.
 */
module Churn {
  import opened Options
  import opened Sorting
  import opened Statistics
  import opened Sequences

  const SECONDS_PER_DAY := 86400
  const FLOOR_DAYS := 30.0

  // ----- transactions to features ---------------------------------------------------

  datatype DateCell = Missing | Malformed | At(seconds: int)
  /** A raw row; an absent or unreadable amount counts as zero. */
  datatype Row = Row(customer: Option<string>, date: DateCell, amount: Option<real>)
  datatype Purchase = Purchase(customer: string, when: int, amount: real)
  datatype Features = Features(recencyDays: int, frequency: nat, monetary: real, tenureDays: int)
  datatype Table = Table(customers: seq<string>, features: seq<Features>, asOf: int)
  datatype Error = InsufficientData

  function Read(row: Row): Option<Purchase> {
    if row.customer.None? || !row.date.At? then None
    else Some(Purchase(row.customer.value, row.date.seconds, if row.amount.Some? then row.amount.value else 0.0))
  }

  function Usable(rows: seq<Row>): seq<Purchase> {
    if |rows| == 0 then []
    else
      var n := |rows| - 1;
      Usable(rows[..n]) + if Read(rows[n]).Some? then [Read(rows[n]).value] else []
  }

  function HistoryOf(purchases: seq<Purchase>, customer: string): seq<Purchase> {
    if |purchases| == 0 then []
    else
      var n := |purchases| - 1;
      HistoryOf(purchases[..n], customer) + if purchases[n].customer == customer then [purchases[n]] else []
  }

  function Latest(h: seq<Purchase>): int
    requires |h| > 0
  {
    if |h| == 1 then h[0].when else Max(Latest(h[..|h| - 1]), h[|h| - 1].when)
  }

  function Earliest(h: seq<Purchase>): int
    requires |h| > 0
  {
    if |h| == 1 then h[0].when else Min(Earliest(h[..|h| - 1]), h[|h| - 1].when)
  }

  function Max(a: int, b: int): int {
    if a >= b then a else b
  }

  function Min(a: int, b: int): int {
    if a <= b then a else b
  }

  function Spent(h: seq<Purchase>): real {
    if |h| == 0 then 0.0 else Spent(h[..|h| - 1]) + h[|h| - 1].amount
  }

  function FeaturesOf(h: seq<Purchase>, asOf: int): Features
    requires |h| > 0
  {
    Features((asOf - Latest(h)) / SECONDS_PER_DAY, |h|, Spent(h), (Latest(h) - Earliest(h)) / SECONDS_PER_DAY)
  }

  ghost predicate Distinct(s: seq<string>) {
    forall i, j :: 0 <= i < j < |s| ==> s[i] != s[j]
  }

  ghost function CustomersOf(purchases: seq<Purchase>): set<string> {
    set p | p in purchases :: p.customer
  }

  /** The dictionary holds every customer's history so far; `customers` is its key order. */
  ghost predicate Grouped(customers: seq<string>, byCustomer: map<string, seq<Purchase>>, purchases: seq<Purchase>) {
    && Distinct(customers)
    && (forall c :: c in customers <==> c in byCustomer)
    && byCustomer.Keys == CustomersOf(purchases)
    && forall c :: c in byCustomer ==> byCustomer[c] == HistoryOf(purchases, c) && |byCustomer[c]| > 0
  }

  method GroupByCustomer(rows: seq<Row>)
    returns (customers: seq<string>, byCustomer: map<string, seq<Purchase>>)
    ensures Grouped(customers, byCustomer, Usable(rows))
  {
    customers, byCustomer := [], map[];
    assert Grouped(customers, byCustomer, Usable(rows[..0]));
    hide Grouped;
    hide HistoryOf;
    hide CustomersOf;
    for k := 0 to |rows|
      invariant Grouped(customers, byCustomer, Usable(rows[..k]))
    {
      assert rows[..k + 1][..k] == rows[..k];
      var read := Read(rows[k]);
      if read.None? {
        assert Usable(rows[..k + 1]) == Usable(rows[..k]);
        continue;
      }
      var p := read.value;
      AddPurchase(customers, byCustomer, Usable(rows[..k]), p);
      var known := p.customer in byCustomer;
      if !known {
        customers := customers + [p.customer];
      }
      byCustomer := byCustomer[p.customer := (if known then byCustomer[p.customer] else []) + [p]];
    }
    assert rows[..|rows|] == rows;
  }

  lemma HistoryOfOneMore(purchases: seq<Purchase>, p: Purchase, c: string)
    ensures HistoryOf(purchases + [p], c) == HistoryOf(purchases, c) + if p.customer == c then [p] else []
  {
    assert (purchases + [p])[..|purchases|] == purchases;
  }

  lemma AddPurchase(customers: seq<string>, byCustomer: map<string, seq<Purchase>>, purchases: seq<Purchase>,
                    p: Purchase)
    requires Grouped(customers, byCustomer, purchases)
    ensures var known := p.customer in byCustomer;
            Grouped(if known then customers else customers + [p.customer],
                    byCustomer[p.customer := (if known then byCustomer[p.customer] else []) + [p]],
                    purchases + [p])
  {
    var known := p.customer in byCustomer;
    if !known {
      NoHistory(purchases, p.customer);
    }
    var after := byCustomer[p.customer := (if known then byCustomer[p.customer] else []) + [p]];
    forall c | c in after
      ensures after[c] == HistoryOf(purchases + [p], c) && |after[c]| > 0
    {
      HistoryOfOneMore(purchases, p, c);
    }
    CustomersOfOneMore(purchases, p);
    hide HistoryOf;
    hide CustomersOf;
  }

  lemma CustomersOfOneMore(purchases: seq<Purchase>, p: Purchase)
    ensures CustomersOf(purchases + [p]) == CustomersOf(purchases) + {p.customer}
  {
    assert forall q :: q in purchases + [p] <==> q in purchases || q == p;
  }

  method LatestOf(customers: seq<string>, byCustomer: map<string, seq<Purchase>>, ghost purchases: seq<Purchase>)
    returns (asOf: int)
    requires Grouped(customers, byCustomer, purchases) && |customers| > 0
    ensures |purchases| > 0 && asOf == Latest(purchases)
  {
    assert customers[0] in byCustomer;
    asOf := Latest(byCustomer[customers[0]]);
    for k := 0 to |customers|
      invariant LatestSoFar(customers, byCustomer, k, asOf)
    {
      LatestOfOneMore(customers, byCustomer, k, asOf);
      hide *;
      asOf := Max(asOf, Latest(byCustomer[customers[k]]));
    }
    LatestOverCustomers(purchases, customers, asOf);
  }

  /** The latest of the first k customers' last dates and the first customer's. */
  ghost predicate LatestSoFar(customers: seq<string>, byCustomer: map<string, seq<Purchase>>, k: nat, asOf: int) {
    && k <= |customers|
    && (forall c :: c in customers ==> c in byCustomer && |byCustomer[c]| > 0)
    && (forall i :: 0 <= i < k ==> Latest(byCustomer[customers[i]]) <= asOf)
    && exists c :: c in customers && Latest(byCustomer[c]) == asOf
  }

  lemma LatestOfOneMore(customers: seq<string>, byCustomer: map<string, seq<Purchase>>, k: nat, asOf: int)
    requires k < |customers| && LatestSoFar(customers, byCustomer, k, asOf)
    ensures customers[k] in byCustomer && |byCustomer[customers[k]]| > 0
    ensures LatestSoFar(customers, byCustomer, k + 1, Max(asOf, Latest(byCustomer[customers[k]])))
  {
    hide Latest;
    assert customers[k] in customers;
  }

  method BuildFeatures(rows: seq<Row>) returns (result: Result<Table, Error>)
    ensures result.Err? <==> Usable(rows) == []
    ensures result.Ok? ==>
              var t, purchases := result.value, Usable(rows);
              && Distinct(t.customers)
              && (forall c :: c in t.customers <==> c in CustomersOf(purchases))
              && |t.features| == |t.customers|
              && t.asOf == Latest(purchases)
              && forall i :: 0 <= i < |t.customers| ==>
                   && |HistoryOf(purchases, t.customers[i])| > 0
                   && t.features[i] == FeaturesOf(HistoryOf(purchases, t.customers[i]), t.asOf)
  {
    hide Usable;
    hide HistoryOf;
    hide Latest;
    hide Earliest;
    hide Spent;
    var customers, byCustomer := GroupByCustomer(rows);
    ghost var purchases := Usable(rows);
    if |customers| == 0 {
      assert |purchases| > 0 ==> purchases[0].customer in byCustomer.Keys;
      return Err(InsufficientData);
    }
    var asOf := LatestOf(customers, byCustomer, purchases);
    var features: seq<Features> := [];
    for k := 0 to |customers|
      invariant |features| == k
      invariant forall i :: 0 <= i < k ==>
                  && |HistoryOf(purchases, customers[i])| > 0
                  && features[i] == FeaturesOf(HistoryOf(purchases, customers[i]), asOf)
    {
      assert customers[k] in byCustomer;
      var history := byCustomer[customers[k]];
      var first, last := Earliest(history), Latest(history);
      features := features + [Features((asOf - last) / SECONDS_PER_DAY, |history|, Spent(history),
                                       (last - first) / SECONDS_PER_DAY)];
    }
    return Ok(Table(customers, features, asOf));
  }

  lemma {:induction false} NoHistory(purchases: seq<Purchase>, customer: string)
    requires customer !in CustomersOf(purchases)
    ensures HistoryOf(purchases, customer) == []
  {
    if |purchases| > 0 {
      var n := |purchases| - 1;
      assert purchases[n] in purchases;
      assert CustomersOf(purchases[..n]) <= CustomersOf(purchases);
      NoHistory(purchases[..n], customer);
    }
  }

  lemma {:induction false} LatestIsMaximum(h: seq<Purchase>)
    requires |h| > 0
    ensures forall p :: p in h ==> Earliest(h) <= p.when <= Latest(h)
    ensures exists p :: p in h && p.when == Latest(h)
  {
    var n := |h| - 1;
    if n > 0 {
      LatestIsMaximum(h[..n]);
      forall p | p in h
        ensures Earliest(h) <= p.when <= Latest(h)
      {
        assert p in h[..n] || p == h[n];
      }
      var q :| q in h[..n] && q.when == Latest(h[..n]);
      assert q in h && h[n] in h;
    } else {
      assert h[0] in h;
    }
  }

  lemma {:induction false} HistoryMembers(purchases: seq<Purchase>, customer: string)
    ensures forall p :: p in HistoryOf(purchases, customer) <==> p in purchases && p.customer == customer
  {
    if |purchases| > 0 {
      var n := |purchases| - 1;
      HistoryMembers(purchases[..n], customer);
      forall p
        ensures p in purchases <==> p in purchases[..n] || p == purchases[n]
      {
        assert purchases == purchases[..n] + [purchases[n]];
      }
    }
  }

  lemma LatestOverCustomers(purchases: seq<Purchase>, customers: seq<string>, asOf: int)
    requires |purchases| > 0
    requires forall c :: c in customers <==> c in CustomersOf(purchases)
    requires forall c :: c in customers ==> |HistoryOf(purchases, c)| > 0 && Latest(HistoryOf(purchases, c)) <= asOf
    requires exists c :: c in customers && Latest(HistoryOf(purchases, c)) == asOf
    ensures Latest(purchases) == asOf
  {
    LatestIsMaximum(purchases);
    var p :| p in purchases && p.when == Latest(purchases);
    assert p.customer in CustomersOf(purchases);
    HistoryMembers(purchases, p.customer);
    LatestIsMaximum(HistoryOf(purchases, p.customer));
    var c :| c in customers && Latest(HistoryOf(purchases, c)) == asOf;
    HistoryMembers(purchases, c);
    LatestIsMaximum(HistoryOf(purchases, c));
    var q :| q in HistoryOf(purchases, c) && q.when == asOf;
  }

  /** "Now" is the latest transaction, so nobody's recency is negative and somebody's is zero. */
  lemma RecencyIsNeverNegative(purchases: seq<Purchase>, customer: string)
    requires |HistoryOf(purchases, customer)| > 0
    ensures |purchases| > 0
    ensures var f := FeaturesOf(HistoryOf(purchases, customer), Latest(purchases));
            && f.recencyDays >= 0 && f.tenureDays >= 0
            && (forall p :: p in purchases && p.customer == customer ==>
                  f.recencyDays * SECONDS_PER_DAY <= Latest(purchases) - p.when)
            && (forall p, q :: p in purchases && p.customer == customer && q in purchases && q.customer == customer ==>
                  q.when - p.when < (f.tenureDays + 1) * SECONDS_PER_DAY)
            && (f.recencyDays + f.tenureDays) * SECONDS_PER_DAY <= Latest(purchases) - Earliest(purchases)
  {
    var h := HistoryOf(purchases, customer);
    HistoryMembers(purchases, customer);
    assert h[0] in h;
    LatestIsMaximum(h);
    LatestIsMaximum(purchases);
    var last :| last in h && last.when == Latest(h);
    EarliestIsAttained(h);
    var first :| first in h && first.when == Earliest(h);
    assert last in purchases && first in purchases;
  }

  lemma {:induction false} EarliestIsAttained(h: seq<Purchase>)
    requires |h| > 0
    ensures exists p :: p in h && p.when == Earliest(h)
  {
    var n := |h| - 1;
    if n > 0 {
      EarliestIsAttained(h[..n]);
      var q :| q in h[..n] && q.when == Earliest(h[..n]);
      assert q in h && h[n] in h;
    } else {
      assert h[0] in h;
    }
  }

  /** The usable transactions are the rows with a customer and a readable date, in order; no amount is zero. */
  lemma {:induction false} UsableAreReadable(rows: seq<Row>) returns (at: seq<nat>)
    ensures Follows(Usable(rows), at, rows, (r: Row) => r.customer.Some? && r.date.At?,
                    (p: Purchase, r: Row) => Reads(p, r))
  {
    at := [];
    if |rows| != 0 {
      var n := |rows| - 1;
      at := UsableAreReadable(rows[..n]);
      var front := Usable(rows[..n]);
      var p := if Read(rows[n]).Some? then Read(rows[n]).value else Purchase("", 0, 0.0);
      assert Usable(rows) == if Read(rows[n]).Some? then front + [p] else front;
      FollowsOneMore(front, at, rows, p, (r: Row) => r.customer.Some? && r.date.At?,
                     (p: Purchase, r: Row) => Reads(p, r));
      if rows[n].customer.Some? && rows[n].date.At? {
        at := at + [n];
      }
      hide *;
    }
  }

  ghost predicate Reads(p: Purchase, r: Row) {
    && r.customer == Some(p.customer) && r.date == At(p.when)
    && (r.amount == Some(p.amount) || (r.amount.None? && p.amount == 0.0))
  }

  /** A customer's history is their transactions, in order. */
  lemma {:induction false} HistoryIsTheirs(purchases: seq<Purchase>, customer: string) returns (at: seq<nat>)
    ensures Follows(HistoryOf(purchases, customer), at, purchases, (p: Purchase) => p.customer == customer,
                    (x: Purchase, p: Purchase) => x == p)
  {
    at := [];
    if |purchases| != 0 {
      var n := |purchases| - 1;
      at := HistoryIsTheirs(purchases[..n], customer);
      var front, p := HistoryOf(purchases[..n], customer), purchases[n];
      assert HistoryOf(purchases, customer) == if p.customer == customer then front + [p] else front;
      FollowsOneMore(front, at, purchases, p, (p: Purchase) => p.customer == customer,
                     (x: Purchase, p: Purchase) => x == p);
      if p.customer == customer {
        at := at + [n];
      }
      hide *;
    }
  }

  function Amounts(h: seq<Purchase>): (r: seq<real>)
    ensures |r| == |h|
  {
    seq(|h|, i requires 0 <= i < |h| => h[i].amount)
  }

  lemma {:induction false} SpentIsTheSum(h: seq<Purchase>)
    ensures Spent(h) == Sum(Amounts(h))
  {
    if |h| != 0 {
      SpentIsTheSum(h[..|h| - 1]);
      assert Amounts(h)[..|h| - 1] == Amounts(h[..|h| - 1]);
    }
  }

  /** Whole days, rounded down, from one moment to another. */
  predicate WholeDaysBetween(days: int, from: int, to: int) {
    days * 86_400 <= to - from < (days + 1) * 86_400
  }

  /** A customer's features: days since the last purchase, how many, how much, days between first and last. */
  lemma FeaturesAre(h: seq<Purchase>, asOf: int, first: int, last: int)
    requires |h| > 0
    requires (exists p :: p in h && p.when == first) && (exists p :: p in h && p.when == last)
    requires forall p :: p in h ==> first <= p.when <= last
    ensures var f := FeaturesOf(h, asOf);
            && WholeDaysBetween(f.recencyDays, last, asOf) && WholeDaysBetween(f.tenureDays, first, last)
            && f.frequency == |h| && f.monetary == Sum(Amounts(h))
  {
    LatestIsMaximum(h);
    EarliestIsAttained(h);
    SpentIsTheSum(h);
    hide Latest;
    hide Earliest;
    hide Spent;
  }

  // ----- nothing is lost or counted twice ----------------------------------------------

  function TotalFrequency(customers: seq<string>, purchases: seq<Purchase>): nat {
    if |customers| == 0 then 0
    else |HistoryOf(purchases, customers[0])| + TotalFrequency(customers[1..], purchases)
  }

  function TotalMonetary(customers: seq<string>, purchases: seq<Purchase>): real {
    if |customers| == 0 then 0.0
    else Spent(HistoryOf(purchases, customers[0])) + TotalMonetary(customers[1..], purchases)
  }

  lemma {:induction false} OnePurchaseMore(customers: seq<string>, purchases: seq<Purchase>, p: Purchase)
    requires Distinct(customers)
    ensures var hit := p.customer in customers;
            && TotalFrequency(customers, purchases + [p])
                 == TotalFrequency(customers, purchases) + (if hit then 1 else 0)
            && TotalMonetary(customers, purchases + [p])
                 == TotalMonetary(customers, purchases) + (if hit then p.amount else 0.0)
  {
    if |customers| != 0 {
      var more, h := purchases + [p], HistoryOf(purchases, customers[0]);
      assert more[..|more| - 1] == purchases;
      if customers[0] == p.customer {
        assert (h + [p])[..|h|] == h;
        assert p.customer !in customers[1..];
      } else {
        assert HistoryOf(more, customers[0]) == h + [] == h;
      }
      OnePurchaseMore(customers[1..], purchases, p);
    }
  }

  /** Every usable transaction lands in exactly one customer's frequency and amount. */
  lemma {:induction false} FeaturesConserveTransactions(customers: seq<string>, purchases: seq<Purchase>)
    requires Distinct(customers)
    requires forall p :: p in purchases ==> p.customer in customers
    ensures TotalFrequency(customers, purchases) == |purchases|
    ensures TotalMonetary(customers, purchases) == Spent(purchases)
  {
    if |purchases| == 0 {
      EmptyTotals(customers);
    } else {
      var n := |purchases| - 1;
      assert purchases == purchases[..n] + [purchases[n]];
      assert purchases[n] in purchases;
      FeaturesConserveTransactions(customers, purchases[..n]);
      OnePurchaseMore(customers, purchases[..n], purchases[n]);
    }
  }

  lemma {:induction false} EmptyTotals(customers: seq<string>)
    ensures TotalFrequency(customers, []) == 0 && TotalMonetary(customers, []) == 0.0
  {
    if |customers| != 0 {
      EmptyTotals(customers[1..]);
    }
  }

  // ----- the cutoff -----------------------------------------------------------------------

  /** Python's `round`: to the nearest integer, halves to even. */
  function Round(x: real): int {
    var down := x.Floor;
    var part := x - down as real;
    if part < 0.5 then down
    else if part > 0.5 then down + 1
    else if down % 2 == 0 then down else down + 1
  }

  lemma RoundIsNearest(x: real, m: int)
    ensures Abs(Round(x) as real - x) <= 0.5
    ensures Abs(Round(x) as real - x) == 0.5 ==> Round(x) % 2 == 0
    ensures m as real <= x ==> m <= Round(x)
    ensures x <= m as real ==> Round(x) <= m
  {
  }

  /** Linear interpolation between the order statistics around position 0.7 (n - 1). */
  function Interpolated70(t: seq<real>): real
    requires |t| > 0
  {
    var k := 7 * (|t| - 1) / 10;
    var part := (7 * (|t| - 1) % 10) as real / 10.0;
    if k + 1 < |t| then t[k] + part * (t[k + 1] - t[k]) else t[k]
  }

  /** `np.percentile(s, 70)`. */
  function Percentile70(s: seq<real>): real
    requires |s| > 0
  {
    Interpolated70(SortBy(s, RealLe))
  }

  function CutoffDays(recency: seq<real>): int
    requires |recency| > 0
  {
    var p := Percentile70(recency);
    Round(if p > FLOOR_DAYS then p else FLOOR_DAYS)
  }

  function Lapsed(recency: seq<real>): nat
    requires |recency| > 0
  {
    CountAbove(recency, CutoffDays(recency) as real)
  }

  function CountAbove(s: seq<real>, bound: real): nat {
    if |s| == 0 then 0 else (if s[0] > bound then 1 else 0) + CountAbove(s[1..], bound)
  }

  lemma {:induction false} CountsComplement(s: seq<real>, bound: real)
    ensures CountAbove(s, bound) + CountAtMost(s, bound) == |s|
  {
    if |s| != 0 {
      CountsComplement(s[1..], bound);
    }
  }

  ghost predicate WholeDays(recency: seq<real>) {
    forall i :: 0 <= i < |recency| ==> recency[i] == recency[i].Floor as real
  }

  lemma Interpolation(part: real, a: real, b: real)
    requires part >= 0.0 && a <= b
    ensures a + part * (b - a) >= a
  {
  }

  /** The percentile is at least the order statistic below it. */
  lemma PercentileAboveOrderStatistic(t: seq<real>)
    requires |t| > 0 && SortedBy(t, RealLe)
    ensures var k := 7 * (|t| - 1) / 10; k < |t| && t[k] <= Interpolated70(t)
  {
    var k := 7 * (|t| - 1) / 10;
    if k + 1 < |t| {
      assert RealLe(t[k], t[k + 1]);
      Interpolation((7 * (|t| - 1) % 10) as real / 10.0, t[k], t[k + 1]);
    }
  }

  /**
   * In whatever way the values are put in order, the percentile lies on the straight
   * line between the two around position 0.7 (n - 1), counted from zero.
   */
  lemma PercentileIs(s: seq<real>, t: seq<real>, k: nat)
    requires |s| > 0 && multiset(t) == multiset(s)
    requires forall i, j :: 0 <= i < j < |t| ==> t[i] <= t[j]
    requires 10 * k <= 7 * (|s| - 1) < 10 * (k + 1)
    ensures |t| == |s| && k < |t|
    ensures var next := if k + 1 < |t| then t[k + 1] else t[k];
            10.0 * (Percentile70(s) - t[k]) == ((7 * (|s| - 1) - 10 * k) as real) * (next - t[k])
  {
    hide SortBy;
    hide Interpolated70;
    SortIsTheOrdering(s, t);
    InterpolatedIs(t, k);
  }

  lemma InterpolatedIs(t: seq<real>, k: nat)
    requires |t| > 0 && 10 * k <= 7 * (|t| - 1) < 10 * (k + 1)
    ensures var next := if k + 1 < |t| then t[k + 1] else t[k];
            10.0 * (Interpolated70(t) - t[k]) == ((7 * (|t| - 1) - 10 * k) as real) * (next - t[k])
  {
    var a := 7 * (|t| - 1) - 10 * k;
    assert k == 7 * (|t| - 1) / 10 && a == 7 * (|t| - 1) % 10;
    if k + 1 < |t| {
      TenTimes(a as real, t[k + 1] - t[k]);
    }
  }

  lemma TenTimes(a: real, d: real)
    ensures 10.0 * ((a / 10.0) * d) == a * d
  {
  }

  /** The cutoff is the nearest whole number of days to the percentile or to thirty, whichever is later. */
  lemma CutoffIs(recency: seq<real>)
    requires |recency| > 0
    ensures var p, c := Percentile70(recency), CutoffDays(recency);
            var raw := if p > 30.0 then p else 30.0;
            Abs(c as real - raw) <= 0.5 && (Abs(c as real - raw) == 0.5 ==> c % 2 == 0)
  {
    hide Percentile70;
    hide Abs;
    hide Round;
    var p := Percentile70(recency);
    RoundIsNearest(if p > 30.0 then p else 30.0, 0);
  }

  /**
   * Never more than ceil(0.3 (n - 1)) customers are labelled lapsed: recencies
   * are whole days, so rounding the interpolated percentile cannot fall below
   * the order statistic under it.
   */
  lemma LapsedAreAMinority(recency: seq<real>)
    requires |recency| > 0 && WholeDays(recency)
    ensures Lapsed(recency) <= (3 * (|recency| - 1) + 9) / 10
    ensures CutoffDays(recency) >= 30
  {
    var t, k := SortBy(recency, RealLe), 7 * (|recency| - 1) / 10;
    var cutoff := CutoffDays(recency) as real;
    RealLeIsTotalPreorder();
    SortByIsSorted(recency, RealLe);
    PercentileAboveOrderStatistic(t);
    MembershipPreserved(recency, RealLe);
    assert t[k] in t;
    var p := Percentile70(recency);
    var raw := if p > FLOOR_DAYS then p else FLOOR_DAYS;
    RoundIsNearest(raw, t[k].Floor);
    RoundIsNearest(raw, 30);
    assert t[k] <= cutoff;
    MedianAboveLowerHalf(t, k + 1);
    CountPrefix(t, cutoff, k + 1);
    CountIgnoresOrder(recency, cutoff);
    CountsComplement(recency, cutoff);
  }

  function Recencies(features: seq<Features>): (r: seq<real>)
    ensures |r| == |features| && forall i :: 0 <= i < |r| ==> r[i] == features[i].recencyDays as real
  {
    seq(|features|, i requires 0 <= i < |features| => features[i].recencyDays as real)
  }

  /** The bound for the features the service builds. */
  lemma FewCustomersLapse(features: seq<Features>)
    requires |features| > 0
    ensures Lapsed(Recencies(features)) <= (3 * (|features| - 1) + 9) / 10
    ensures exists late: set<nat> ::
              && |late| == Lapsed(Recencies(features))
              && forall i: nat :: i in late <==>
                   i < |features| && features[i].recencyDays > CutoffDays(Recencies(features))
  {
    LapsedAreAMinority(Recencies(features));
    var late := AboveAre(Recencies(features), CutoffDays(Recencies(features)) as real);
    hide CutoffDays;
    hide CountAbove;
    assert forall i: nat :: i in late <==>
        i < |features| && features[i].recencyDays > CutoffDays(Recencies(features));
  }

  /** The positions counted. */
  lemma {:induction false} AboveAre(s: seq<real>, bound: real) returns (at: set<nat>)
    ensures |at| == CountAbove(s, bound)
    ensures forall i: nat :: i in at <==> i < |s| && s[i] > bound
  {
    at := {};
    if |s| != 0 {
      var rest := AboveAre(s[1..], bound);
      var moved := set i | i in rest :: i + 1;
      ShiftedSize(rest, moved);
      at := if s[0] > bound then moved + {0} else moved;
      forall i: nat
        ensures i in at <==> i < |s| && s[i] > bound
      {
        if i > 0 {
          assert i in moved <==> (i - 1) as nat in rest;
        }
      }
    }
  }

  lemma ShiftedSize(a: set<nat>, b: set<nat>)
    requires b == set i | i in a :: i + 1
    ensures |b| == |a|
  {
    if a != {} {
      var x :| x in a;
      var fewer := set i | i in a - {x} :: i + 1;
      forall y | y in b - {x + 1}
        ensures y in fewer
      {
        var i :| i in a && y == i + 1;
        assert i in a - {x};
      }
      assert fewer == b - {x + 1} && x + 1 in b;
      ShiftedSize(a - {x}, fewer);
    }
  }
}
