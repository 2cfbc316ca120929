/** What it means that one list was made from another: elements picked in order, each turned into an entry. */
module Sequences {

  /** r has one entry for each element of s to keep, in their order; `at` holds their positions. */
  ghost predicate Follows<R(!new), T(!new)>(r: seq<R>, at: seq<nat>, s: seq<T>, keep: T -> bool, like: (R, T) -> bool) {
    && |r| == |at|
    && (forall i, k :: 0 <= i < k < |at| ==> at[i] < at[k])
    && (forall k: int :: k in at <==> 0 <= k < |s| && keep(s[k]))
    && forall i :: 0 <= i < |at| ==> at[i] < |s| && like(r[i], s[at[i]])
  }

  lemma FollowsOneMore<R(!new), T(!new)>(r: seq<R>, at: seq<nat>, s: seq<T>, x: R,
                                         keep: T -> bool, like: (R, T) -> bool)
    requires |s| > 0 && Follows(r, at, s[..|s| - 1], keep, like)
    requires keep(s[|s| - 1]) ==> like(x, s[|s| - 1])
    ensures if keep(s[|s| - 1]) then Follows(r + [x], at + [|s| - 1], s, keep, like) else Follows(r, at, s, keep, like)
  {
    var n := |s| - 1;
    assert forall i :: 0 <= i < |at| ==> at[i] < n && s[..n][at[i]] == s[at[i]];
  }

  /** Two lists side by side. */
  function Zip<S, T>(s: seq<S>, t: seq<T>): (r: seq<(S, T)>)
    requires |s| == |t|
    ensures |r| == |s|
  {
    seq(|s|, i requires 0 <= i < |s| => (s[i], t[i]))
  }

  lemma ZipFront<S, T>(s: seq<S>, t: seq<T>)
    requires |s| == |t| > 0
    ensures Zip(s, t)[..|s| - 1] == Zip(s[..|s| - 1], t[..|t| - 1])
  {
  }
}
