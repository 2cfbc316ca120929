/**
 * The fixed-window limiter of core/ratelimit.py. Times are integer ticks of the
 * store's clock; a counter is gone from the tick its expiry names.
 */
module RateLimiting {
  import opened Options

  datatype Rule = Rule(limit: nat, window: nat)
  datatype Counter = Counter(count: nat, expiresAt: int)

  const LOGIN_PER_IP := Rule(10, 300)
  const LOGIN_PER_ACCOUNT := Rule(5, 300)
  const REGISTER_PER_IP := Rule(5, 3600)
  const INVITE_ACCEPT_PER_IP := Rule(10, 3600)

  function Min(a: int, b: int): int {
    if a <= b then a else b
  }

  /** What one counted attempt leaves behind: INCR, then EXPIRE only when no expiry is set. */
  function Counted(before: Option<Counter>, rule: Rule, now: int): Counter {
    if before.None? || now >= before.value.expiresAt then Counter(1, now + rule.window)
    else Counter(before.value.count + 1, before.value.expiresAt)
  }

  /** The keyed store and the two operations on it. */
  class Limiter {
    var counters: map<string, Counter>
    const enabled: bool

    constructor (enabled: bool)
      ensures this.enabled == enabled && counters == map[]
    {
      this.enabled := enabled;
      counters := map[];
    }

    function Lookup(key: string): Option<Counter>
      reads this
    {
      if key in counters then Some(counters[key]) else None
    }

    /** Fails open, without counting, when the store is unreachable or limiting is off. */
    method Enforce(key: string, rule: Rule, now: int, reachable: bool) returns (allowed: bool)
      modifies this`counters
      ensures !(enabled && reachable) ==> allowed && counters == old(counters)
      ensures enabled && reachable ==>
                var c := Counted(old(Lookup(key)), rule, now);
                && counters == old(counters)[key := c]
                && (allowed <==> c.count <= rule.limit)
    {
      if !enabled {
        return true;
      }
      if !reachable {
        return true;
      }
      var count, expiry := 0, None;
      if key in counters && now < counters[key].expiresAt {
        count, expiry := counters[key].count, Some(counters[key].expiresAt);
      }
      count := count + 1;
      if expiry.None? {
        expiry := Some(now + rule.window);
      }
      counters := counters[key := Counter(count, expiry.value)];
      return count <= rule.limit;
    }

    method Reset(key: string, reachable: bool)
      modifies this`counters
      ensures reachable ==> counters == old(counters) - {key}
      ensures !reachable ==> counters == old(counters)
    {
      if reachable {
        counters := counters - {key};
      }
    }

    /**
     * A login passes only both limits, and the account limit is not charged for
     * an attempt the address limit stopped.
     */
    method EnforceLogin(address: string, account: string, now: int, reachable: bool) returns (allowed: bool)
      requires address != account
      modifies this`counters
      ensures enabled && reachable ==>
                var a := Counted(old(Lookup(address)), Rule(10, 300), now);
                var b := Counted(old(Lookup(account)), Rule(5, 300), now);
                var passed := a.count <= 10;
                && (allowed <==> passed && b.count <= 5)
                && counters == if passed then old(counters)[address := a][account := b]
                               else old(counters)[address := a]
    {
      allowed := Enforce(address, LOGIN_PER_IP, now, reachable);
      if allowed {
        allowed := Enforce(account, LOGIN_PER_ACCOUNT, now, reachable);
      }
    }
  }

  // ----- every run of counted attempts on one key, between resets ----------------------

  ghost predicate InOrder(times: seq<int>) {
    forall i, j :: 0 <= i < j < |times| ==> times[i] <= times[j]
  }

  /** The counter after the attempts at `times`, starting from a clear key. */
  function After(rule: Rule, times: seq<int>): Option<Counter> {
    if |times| == 0 then None
    else Some(Counted(After(rule, times[..|times| - 1]), rule, times[|times| - 1]))
  }

  /** Whether the last of the attempts is let through. */
  predicate LastAccepted(rule: Rule, times: seq<int>)
    requires |times| > 0
  {
    After(rule, times).value.count <= rule.limit
  }

  /** How many attempts in [lo, hi) are let through. */
  function Accepted(rule: Rule, times: seq<int>, lo: int, hi: int): nat {
    if |times| == 0 then 0
    else
      Accepted(rule, times[..|times| - 1], lo, hi)
      + if lo <= times[|times| - 1] < hi && LastAccepted(rule, times) then 1 else 0
  }

  /** The first hit of the window the last attempt fell in. */
  function WindowStart(rule: Rule, times: seq<int>): int
    requires |times| > 0
  {
    After(rule, times).value.expiresAt - rule.window
  }

  lemma {:induction false} WindowHoldsLast(rule: Rule, times: seq<int>)
    requires |times| > 0 && InOrder(times) && rule.window > 0
    ensures WindowStart(rule, times) <= times[|times| - 1] < WindowStart(rule, times) + rule.window
    ensures After(rule, times).value.count >= 1
    ensures WindowStart(rule, times) in times
  {
    var n := |times| - 1;
    if n > 0 {
      WindowHoldsLast(rule, times[..n]);
      assert times[..n][n - 1] == times[n - 1] <= times[n];
      assert forall t :: t in times[..n] ==> t in times;
    }
  }

  /** Before its first attempt an interval has admitted nothing. */
  lemma {:induction false} NothingYet(rule: Rule, times: seq<int>, lo: int, hi: int)
    requires forall i :: 0 <= i < |times| ==> times[i] < lo
    ensures Accepted(rule, times, lo, hi) == 0
  {
    if |times| > 0 {
      NothingYet(rule, times[..|times| - 1], lo, hi);
    }
  }

  /** Each window admits exactly its first `limit` attempts. */
  lemma {:induction false} WindowAdmitsLimit(rule: Rule, times: seq<int>)
    requires |times| > 0 && InOrder(times) && rule.window > 0
    ensures var s := WindowStart(rule, times);
            Accepted(rule, times, s, s + rule.window) == Min(After(rule, times).value.count, rule.limit)
  {
    var n, s := |times| - 1, WindowStart(rule, times);
    var front := times[..n];
    WindowHoldsLast(rule, times);
    if n > 0 {
      WindowHoldsLast(rule, front);
      assert front[n - 1] == times[n - 1];
      if s == WindowStart(rule, front) && After(rule, times).value.count > 1 {
        WindowAdmitsLimit(rule, front);
      } else {
        assert forall i :: 0 <= i < n ==> front[i] <= front[n - 1] < s;
        NothingYet(rule, front, s, s + rule.window);
      }
    }
  }

  /** What an interval of one window length has admitted so far, by where the current window started. */
  ghost predicate WithinBound(rule: Rule, times: seq<int>, lo: int)
    requires |times| > 0
  {
    var s, k := WindowStart(rule, times), After(rule, times).value.count;
    var admitted := Accepted(rule, times, lo, lo + rule.window);
    && admitted <= 2 * rule.limit - 1
    && (s < lo ==> admitted <= Min(k, rule.limit) - 1)
    && (lo <= s < lo + rule.window ==> admitted <= rule.limit - 1 + Min(k, rule.limit))
  }

  lemma {:induction false} BoundHolds(rule: Rule, times: seq<int>, lo: int)
    requires |times| > 0 && InOrder(times) && rule.window > 0 && rule.limit > 0
    ensures WithinBound(rule, times, lo)
  {
    var n := |times| - 1;
    var front := times[..n];
    WindowHoldsLast(rule, times);
    if n > 0 {
      BoundHolds(rule, front, lo);
      WindowHoldsLast(rule, front);
      assert front[n - 1] == times[n - 1] <= times[n];
      if times[n] < lo {
        assert forall i :: 0 <= i < |times| ==> times[i] <= times[n];
        NothingYet(rule, times, lo, lo + rule.window);
        NothingYet(rule, front, lo, lo + rule.window);
      }
    }
  }

  /**
   * Any half-open interval of one window length lets through at most
   * 2 * limit - 1 attempts: the documented "up to 2x", less one, because the
   * earlier of the two windows it can touch was opened before it.
   */
  lemma BurstBound(rule: Rule, times: seq<int>, lo: int)
    requires InOrder(times) && rule.window > 0
    ensures rule.limit > 0 ==> Accepted(rule, times, lo, lo + rule.window) <= 2 * rule.limit - 1
    ensures rule.limit == 0 ==> Accepted(rule, times, lo, lo + rule.window) == 0
  {
    if rule.limit == 0 {
      ZeroLimitAdmitsNothing(rule, times, lo, lo + rule.window);
    } else if |times| > 0 {
      BoundHolds(rule, times, lo);
    }
  }

  lemma {:induction false} ZeroLimitAdmitsNothing(rule: Rule, times: seq<int>, lo: int, hi: int)
    requires rule.limit == 0
    ensures Accepted(rule, times, lo, hi) == 0
  {
    if |times| > 0 {
      ZeroLimitAdmitsNothing(rule, times[..|times| - 1], lo, hi);
    }
  }

  /** Once a full window has passed since its first hit, the next attempt is let through. */
  lemma RecoversAfterAWindow(rule: Rule, times: seq<int>, now: int)
    requires |times| > 0 && rule.limit > 0 && now >= WindowStart(rule, times) + rule.window
    ensures LastAccepted(rule, times + [now])
    ensures WindowStart(rule, times + [now]) == now
  {
    assert (times + [now])[..|times|] == times;
  }

  /**
   * The service's own limits: in any five minutes an address gets 19 logins at most
   * and an account nine; in any hour an address nine registrations, and 19 tries at
   * an invitation.
   */
  lemma ServiceBounds(times: seq<int>, lo: int)
    requires InOrder(times)
    ensures Accepted(LOGIN_PER_IP, times, lo, lo + 300) <= 19
    ensures Accepted(LOGIN_PER_ACCOUNT, times, lo, lo + 300) <= 9
    ensures Accepted(REGISTER_PER_IP, times, lo, lo + 3600) <= 9
    ensures Accepted(INVITE_ACCEPT_PER_IP, times, lo, lo + 3600) <= 19
  {
    BurstBound(LOGIN_PER_IP, times, lo);
    BurstBound(LOGIN_PER_ACCOUNT, times, lo);
    BurstBound(REGISTER_PER_IP, times, lo);
    BurstBound(INVITE_ACCEPT_PER_IP, times, lo);
  }

  // ----- the bound is attained ------------------------------------------------------------

  function Repeat(t: int, n: nat): (r: seq<int>)
    ensures |r| == n && forall i :: 0 <= i < n ==> r[i] == t
  {
    seq(n, i => t)
  }

  lemma {:induction false} RepeatedHits(rule: Rule, times: seq<int>, t: int, n: nat, lo: int, hi: int)
    requires |times| > 0 && t < After(rule, times).value.expiresAt && lo <= t < hi
    ensures After(rule, times + Repeat(t, n))
         == Some(Counter(After(rule, times).value.count + n, After(rule, times).value.expiresAt))
    ensures After(rule, times).value.count + n <= rule.limit ==>
              Accepted(rule, times + Repeat(t, n), lo, hi) == Accepted(rule, times, lo, hi) + n
  {
    if n == 0 {
      assert times + Repeat(t, 0) == times;
    } else {
      RepeatedHits(rule, times, t, n - 1, lo, hi);
      var all := times + Repeat(t, n);
      assert all[..|all| - 1] == times + Repeat(t, n - 1);
    }
  }

  /** One hit at 0, the rest of the window's allowance just before it ends, then a fresh window. */
  function Burst(rule: Rule): seq<int>
    requires rule.limit > 0
  {
    [0] + Repeat(rule.window - 1, rule.limit - 1) + [rule.window] + Repeat(rule.window, rule.limit - 1)
  }

  lemma BurstBoundIsAttained(rule: Rule)
    requires rule.limit > 0 && rule.window > 1
    ensures InOrder(Burst(rule))
    ensures Accepted(rule, Burst(rule), 1, 1 + rule.window) == 2 * rule.limit - 1
  {
    var w := rule.window;
    var first := [0];
    assert first[..0] == [];
    assert After(rule, first) == Some(Counter(1, w));
    RepeatedHits(rule, first, w - 1, rule.limit - 1, 1, 1 + w);
    var second := first + Repeat(w - 1, rule.limit - 1);
    var third := second + [w];
    assert third[..|second|] == second;
    assert After(rule, third) == Some(Counter(1, w + w));
    RepeatedHits(rule, third, w, rule.limit - 1, 1, 1 + w);
    assert Burst(rule) == third + Repeat(w, rule.limit - 1);
  }
}
