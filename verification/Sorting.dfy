/**
 * Stable sorting by a total preorder: the meaning given to every `sort` and
 * `sorted` call of the service. A descending sort (`reverse=True`) is a stable
 * sort by the reversed order, since Python keeps equal elements in place.
 */
module Sorting {

  ghost predicate TotalPreorder<T(!new)>(le: (T, T) -> bool) {
    && (forall x, y :: le(x, y) || le(y, x))
    && (forall x, y, z :: le(x, y) && le(y, z) ==> le(x, z))
  }

  ghost predicate SortedBy<T>(s: seq<T>, le: (T, T) -> bool) {
    forall i, j :: 0 <= i < j < |s| ==> le(s[i], s[j])
  }

  /** Puts `x` in front of the first element it may precede. */
  function Insert<T>(x: T, s: seq<T>, le: (T, T) -> bool): (r: seq<T>)
    ensures |r| == |s| + 1
    ensures multiset(r) == multiset{x} + multiset(s)
  {
    if |s| == 0 || le(x, s[0]) then
      [x] + s
    else
      assert s == [s[0]] + s[1..];
      [s[0]] + Insert(x, s[1..], le)
  }

  function SortBy<T>(s: seq<T>, le: (T, T) -> bool): (r: seq<T>)
    ensures |r| == |s|
    ensures multiset(r) == multiset(s)
  {
    if |s| == 0 then
      []
    else
      assert s == [s[0]] + s[1..];
      Insert(s[0], SortBy(s[1..], le), le)
  }

  lemma {:induction false} InsertKeepsOrder<T(!new)>(x: T, s: seq<T>, le: (T, T) -> bool)
    requires TotalPreorder(le) && SortedBy(s, le)
    ensures SortedBy(Insert(x, s, le), le)
  {
    var r := Insert(x, s, le);
    if |s| != 0 && !le(x, s[0]) {
      InsertKeepsOrder(x, s[1..], le);
      var tail := Insert(x, s[1..], le);
      forall j | 0 <= j < |tail|
        ensures le(s[0], tail[j])
      {
        assert tail[j] in multiset(tail);
        assert tail[j] == x || tail[j] in s[1..];
      }
    }
  }

  /** The result is in order. */
  lemma {:induction false} SortByIsSorted<T(!new)>(s: seq<T>, le: (T, T) -> bool)
    requires TotalPreorder(le)
    ensures SortedBy(SortBy(s, le), le)
  {
    if |s| != 0 {
      SortByIsSorted(s[1..], le);
      InsertKeepsOrder(s[0], SortBy(s[1..], le), le);
    }
  }

  /** A list already in order is left alone. */
  lemma {:induction false} SortedIsUnchanged<T>(s: seq<T>, le: (T, T) -> bool)
    requires SortedBy(s, le)
    ensures SortBy(s, le) == s
  {
    if |s| != 0 {
      SortedIsUnchanged(s[1..], le);
    }
  }

  lemma MembershipPreserved<T>(s: seq<T>, le: (T, T) -> bool)
    ensures forall x :: x in SortBy(s, le) <==> x in s
  {
    forall x
      ensures x in SortBy(s, le) <==> x in s
    {
      assert x in SortBy(s, le) <==> x in multiset(SortBy(s, le));
      assert x in s <==> x in multiset(s);
    }
  }

  /** Index of the first element that precedes all others. */
  function FirstLeast<T>(s: seq<T>, le: (T, T) -> bool): (k: nat)
    requires |s| > 0
    ensures k < |s|
  {
    if |s| == 1 then 0
    else
      var k := FirstLeast(s[1..], le);
      if le(s[0], s[1..][k]) then 0 else k + 1
  }

  lemma {:induction false} FirstLeastIsFirst<T(!new)>(s: seq<T>, le: (T, T) -> bool)
    requires |s| > 0 && TotalPreorder(le)
    ensures forall j :: 0 <= j < |s| ==> le(s[FirstLeast(s, le)], s[j])
    ensures forall j :: 0 <= j < FirstLeast(s, le) ==> !le(s[j], s[FirstLeast(s, le)])
  {
    if |s| > 1 {
      var t := s[1..];
      FirstLeastIsFirst(t, le);
      var k := FirstLeast(t, le);
      forall j | 0 <= j < |s|
        ensures le(s[FirstLeast(s, le)], s[j])
      {
        if j > 0 {
          assert s[j] == t[j - 1];
        }
      }
      forall j | 0 <= j < FirstLeast(s, le)
        ensures !le(s[j], s[FirstLeast(s, le)])
      {
        if j > 0 {
          assert s[j] == t[j - 1];
        }
      }
    }
  }

  /** Stability where it shows: the head of the sorted list is the earliest of the least. */
  lemma {:induction false} SortHead<T(!new)>(s: seq<T>, le: (T, T) -> bool)
    requires |s| > 0
    ensures SortBy(s, le)[0] == s[FirstLeast(s, le)]
  {
    if |s| > 1 {
      SortHead(s[1..], le);
    }
  }

  // ----- where an element ends up -------------------------------------------------------------------

  /** Element j comes out before element i: it precedes strictly, or equally and earlier. */
  predicate Ahead<T>(s: seq<T>, le: (T, T) -> bool, j: nat, i: nat)
    requires i < |s| && j < |s|
  {
    le(s[j], s[i]) && (!le(s[i], s[j]) || j < i)
  }

  /** How many of the first k elements come out before element i. */
  function CountAhead<T>(s: seq<T>, le: (T, T) -> bool, i: nat, k: nat): (n: nat)
    requires i < |s| && k <= |s|
    ensures n <= k
  {
    if k == 0 then 0 else CountAhead(s, le, i, k - 1) + if Ahead(s, le, k - 1, i) then 1 else 0
  }

  function Rank<T>(s: seq<T>, le: (T, T) -> bool, i: nat): nat
    requires i < |s|
  {
    CountAhead(s, le, i, |s|)
  }

  /** How many elements x may not precede. */
  function CountBefore<T>(x: T, s: seq<T>, le: (T, T) -> bool): (n: nat)
    ensures n <= |s|
  {
    if |s| == 0 then 0 else (if le(x, s[0]) then 0 else 1) + CountBefore(x, s[1..], le)
  }

  lemma {:induction false} CountBeforeInsert<T>(x: T, y: T, s: seq<T>, le: (T, T) -> bool)
    ensures CountBefore(x, Insert(y, s, le), le) == (if le(x, y) then 0 else 1) + CountBefore(x, s, le)
  {
    if |s| == 0 || le(y, s[0]) {
      assert ([y] + s)[1..] == s;
    } else {
      CountBeforeInsert(x, y, s[1..], le);
    }
  }

  lemma {:induction false} CountBeforeIgnoresOrder<T>(x: T, s: seq<T>, le: (T, T) -> bool)
    ensures CountBefore(x, SortBy(s, le), le) == CountBefore(x, s, le)
  {
    if |s| != 0 {
      CountBeforeIgnoresOrder(x, s[1..], le);
      CountBeforeInsert(x, s[0], SortBy(s[1..], le), le);
    }
  }

  /** In a sorted list the elements x may not precede are the first ones. */
  lemma {:induction false} BeforeComeFirst<T(!new)>(x: T, u: seq<T>, le: (T, T) -> bool, k: nat)
    requires TotalPreorder(le) && SortedBy(u, le) && k < |u|
    ensures k < CountBefore(x, u, le) <==> !le(x, u[k])
  {
    if le(x, u[0]) {
      AllAfter(x, u, le);
      assert k == 0 || le(u[0], u[k]);
    } else if k > 0 {
      BeforeComeFirst(x, u[1..], le, k - 1);
    }
  }

  lemma {:induction false} AllAfter<T(!new)>(x: T, u: seq<T>, le: (T, T) -> bool)
    requires TotalPreorder(le) && SortedBy(u, le) && (|u| > 0 ==> le(x, u[0]))
    ensures CountBefore(x, u, le) == 0
  {
    if |u| > 1 {
      assert le(u[0], u[1]);
      AllAfter(x, u[1..], le);
    }
  }

  lemma {:induction false} InsertPlaces<T(!new)>(x: T, u: seq<T>, le: (T, T) -> bool, k: nat)
    requires TotalPreorder(le) && SortedBy(u, le) && k <= |u|
    ensures var p := CountBefore(x, u, le);
            Insert(x, u, le)[k] == if k < p then u[k] else if k == p then x else u[k - 1]
  {
    if |u| == 0 || le(x, u[0]) {
      AllAfter(x, u, le);
    } else if k > 0 {
      InsertPlaces(x, u[1..], le, k - 1);
    }
  }

  lemma {:induction false} CountAheadOfFirst<T(!new)>(s: seq<T>, le: (T, T) -> bool, k: nat)
    requires TotalPreorder(le) && k < |s|
    ensures CountAhead(s, le, 0, k + 1) == CountBefore(s[0], s[1..k + 1], le)
  {
    if k != 0 {
      CountAheadOfFirst(s, le, k - 1);
      assert s[1..k + 1] == s[1..k] + [s[k]];
      CountBeforeAppend(s[0], s[1..k], s[k], le);
    }
  }

  lemma {:induction false} CountBeforeAppend<T>(x: T, s: seq<T>, y: T, le: (T, T) -> bool)
    ensures CountBefore(x, s + [y], le) == CountBefore(x, s, le) + if le(x, y) then 0 else 1
  {
    if |s| == 0 {
      assert s + [y] == [y];
    } else {
      CountBeforeAppend(x, s[1..], y, le);
      assert (s + [y])[1..] == s[1..] + [y];
    }
  }

  lemma {:induction false} CountAheadOfLater<T>(s: seq<T>, le: (T, T) -> bool, i: nat, k: nat)
    requires 0 < i < |s| && k < |s|
    ensures CountAhead(s, le, i, k + 1)
         == (if le(s[0], s[i]) then 1 else 0) + CountAhead(s[1..], le, i - 1, k)
  {
    if k != 0 {
      CountAheadOfLater(s, le, i, k - 1);
      assert s[1..][k - 1] == s[k] && s[1..][i - 1] == s[i];
    } else {
      assert CountAhead(s, le, i, 0) == 0 && CountAhead(s[1..], le, i - 1, 0) == 0;
    }
  }

  /** The stable sort puts every element at its rank. */
  lemma {:induction false} RankPlaces<T(!new)>(s: seq<T>, le: (T, T) -> bool, i: nat)
    requires TotalPreorder(le) && i < |s|
    ensures Rank(s, le, i) < |s| && SortBy(s, le)[Rank(s, le, i)] == s[i]
  {
    var t := s[1..];
    var u := SortBy(t, le);
    SortByIsSorted(t, le);
    if i == 0 {
      CountAheadOfFirst(s, le, |s| - 1);
      assert s[1..|s|] == t;
      CountBeforeIgnoresOrder(s[0], t, le);
      InsertPlaces(s[0], u, le, Rank(s, le, 0));
    } else {
      RankPlaces(t, le, i - 1);
      var r := Rank(t, le, i - 1);
      CountAheadOfLater(s, le, i, |s| - 1);
      BeforeComeFirst(s[0], u, le, r);
      InsertPlaces(s[0], u, le, Rank(s, le, i));
    }
  }

  /** And every position of the result is somebody's rank. */
  lemma {:induction false} RankIsOnto<T(!new)>(s: seq<T>, le: (T, T) -> bool, k: nat) returns (i: nat)
    requires TotalPreorder(le) && k < |s|
    ensures i < |s| && Rank(s, le, i) == k
  {
    var t := s[1..];
    var u := SortBy(t, le);
    SortByIsSorted(t, le);
    CountAheadOfFirst(s, le, |s| - 1);
    assert s[1..|s|] == t;
    CountBeforeIgnoresOrder(s[0], t, le);
    var p := CountBefore(s[0], u, le);
    if k == p {
      i := 0;
    } else {
      var k1 := if k < p then k else k - 1;
      var i1 := RankIsOnto(t, le, k1);
      i := i1 + 1;
      RankPlaces(t, le, i1);
      CountAheadOfLater(s, le, i, |s| - 1);
      BeforeComeFirst(s[0], u, le, k1);
    }
  }
}
