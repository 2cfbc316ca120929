/**
 * The refresh-token store of services/auth.py: issue, rotate, log out, revoke a
 * user's tokens, purge. A token is what the client holds (signed, so it cannot
 * be forged); a record is the row kept under its jti. Times are microseconds.
 */
module RefreshTokens {
  import opened Options

  const SECOND := 1_000_000
  const DAY := 86400 * SECOND

  const MINUTE := 60 * SECOND

  /** `refresh_token_ttl_days`, the purge's `retain_days` and `access_token_ttl_minutes`. */
  datatype Policy = Policy(ttlDays: nat, retainDays: nat, accessMinutes: nat)
  const DEFAULT_POLICY := Policy(14, 30, 30)

  datatype Token = Token(jti: nat, user: nat, exp: int)
  datatype Record = Record(user: nat, expiresAt: int, revokedAt: Option<int>)
  type Store = map<nat, Record>

  datatype Answer = Issued(token: Token) | TokenExpired | NotRecognised | Replayed | RecordExpired
                  | Unavailable | LoggedOut | Quiet

  /** A JWT carries whole seconds, so its own expiry may be a little earlier than the record's. */
  function WholeSecond(t: int): int {
    t - t % SECOND
  }

  function Mint(policy: Policy, user: nat, jti: nat, now: int): Token {
    Token(jti, user, WholeSecond(now + policy.ttlDays * DAY))
  }

  /** `decode_token`: a token is rejected from its expiry on (section 4.1.4 of RFC 7519). */
  predicate Decodes(token: Token, now: int) {
    now < token.exp
  }

  // ----- the operations on the store -----------------------------------------------------

  function DoIssue(store: Store, policy: Policy, user: nat, jti: nat, now: int): Store {
    store[jti := Record(user, now + policy.ttlDays * DAY, None)]
  }

  function DoRevokeAll(store: Store, user: nat, now: int): Store {
    map j | j in store ::
      if store[j].user == user && store[j].revokedAt.None? then store[j].(revokedAt := Some(now)) else store[j]
  }

  function DoRotate(store: Store, policy: Policy, token: Token, newJti: nat, available: bool, now: int)
    : (Store, Answer)
  {
    if !Decodes(token, now) then (store, TokenExpired)
    else if token.jti !in store then (store, NotRecognised)
    else
      var record := store[token.jti];
      if record.revokedAt.Some? then (DoRevokeAll(store, token.user, now), Replayed)
      else if record.expiresAt <= now then (store, RecordExpired)
      else if !available then (store, Unavailable)
      else (DoIssue(store[token.jti := record.(revokedAt := Some(now))], policy, token.user, newJti, now),
            Issued(Mint(policy, token.user, newJti, now)))
  }

  function DoLogout(store: Store, token: Token, now: int): Store {
    if Decodes(token, now) && token.jti in store && store[token.jti].revokedAt.None? then
      store[token.jti := store[token.jti].(revokedAt := Some(now))]
    else store
  }

  predicate Stale(record: Record, cutoff: int) {
    record.expiresAt < cutoff || (record.revokedAt.Some? && record.revokedAt.value < cutoff)
  }

  function DoPurge(store: Store, policy: Policy, now: int): Store {
    map j | j in store && !Stale(store[j], now - policy.retainDays * DAY) :: store[j]
  }

  /** The table behind the service. */
  class TokenStore {
    var records: Store
    const policy: Policy

    constructor (policy: Policy)
      ensures this.policy == policy && records == map[]
    {
      this.policy := policy;
      records := map[];
    }

    method IssueTokens(user: nat, jti: nat, now: int) returns (token: Token)
      modifies this`records
      ensures records == DoIssue(old(records), policy, user, jti, now)
      ensures token == Mint(policy, user, jti, now)
      ensures token.exp <= records[jti].expiresAt < token.exp + SECOND
    {
      var expiresAt := now + policy.ttlDays * DAY;
      records := records[jti := Record(user, expiresAt, None)];
      token := Token(jti, user, WholeSecond(expiresAt));
    }

    method RotateRefreshToken(token: Token, newJti: nat, available: bool, now: int) returns (answer: Answer)
      requires newJti != token.jti
      modifies this`records
      ensures (records, answer) == DoRotate(old(records), policy, token, newJti, available, now)
      ensures answer == TokenExpired <==> token.exp <= now
      ensures answer == NotRecognised <==> now < token.exp && token.jti !in old(records)
      ensures now < token.exp && token.jti in old(records) ==>
                var record := old(records)[token.jti];
                var ended := record.expiresAt <= now;
                && (answer == Replayed <==> record.revokedAt.Some?)
                && (answer == RecordExpired <==> record.revokedAt.None? && ended)
                && (answer == Unavailable <==> record.revokedAt.None? && !ended && !available)
                && (answer.Issued? <==> record.revokedAt.None? && !ended && available)
      ensures answer.Issued? ==>
                && token.jti in old(records) && old(records)[token.jti].revokedAt.None?
                && records[token.jti].revokedAt == Some(now) && records[newJti].revokedAt.None?
    {
      if token.exp <= now {
        return TokenExpired;
      }
      if token.jti !in records {
        return NotRecognised;
      }
      var record := records[token.jti];
      if record.revokedAt.Some? {
        RevokeAllUserTokens(token.user, now);
        return Replayed;
      }
      if record.expiresAt <= now {
        return RecordExpired;
      }
      if !available {
        return Unavailable;
      }
      records := records[token.jti := record.(revokedAt := Some(now))];
      var fresh_ := IssueTokens(token.user, newJti, now);
      return Issued(fresh_);
    }

    method RevokeRefreshToken(token: Token, now: int)
      modifies this`records
      ensures records == DoLogout(old(records), token, now)
    {
      if token.exp <= now || token.jti !in records {
        return;
      }
      if records[token.jti].revokedAt.None? {
        records := records[token.jti := records[token.jti].(revokedAt := Some(now))];
      }
    }

    method RevokeAllUserTokens(user: nat, now: int)
      modifies this`records
      ensures records == DoRevokeAll(old(records), user, now)
      ensures forall j :: j in records && records[j].user == user ==> records[j].revokedAt.Some?
    {
      var todo := set j | j in records && records[j].user == user && records[j].revokedAt.None?;
      ghost var all := todo;
      while todo != {}
        invariant todo <= all && records.Keys == old(records).Keys
        invariant forall j :: j in records ==>
                    records[j] == if j in all - todo then old(records)[j].(revokedAt := Some(now)) else old(records)[j]
        decreases todo
      {
        var j :| j in todo;
        records := records[j := records[j].(revokedAt := Some(now))];
        todo := todo - {j};
      }
    }

    method PurgeStaleRefreshTokens(now: int) returns (removed: nat)
      modifies this`records
      ensures records == DoPurge(old(records), policy, now)
      ensures removed == |old(records)| - |records|
    {
      var cutoff := now - policy.retainDays * DAY;
      var stale := set j | j in records && Stale(records[j], cutoff);
      removed := |stale|;
      assert records.Keys - stale == DoPurge(records, policy, now).Keys;
      records := records - stale;
    }
  }

  // ----- the world the store lives in --------------------------------------------------------

  /** An access token; no record is kept of it, so until it expires nothing revokes it. */
  datatype Access = Access(user: nat, exp: int)

  function MintAccess(policy: Policy, user: nat, now: int): Access {
    Access(user, WholeSecond(now + policy.accessMinutes * MINUTE))
  }

  /** Who ever minted what stays known: clients may present any token at any later time. */
  datatype World = World(now: int, store: Store, minted: map<nat, Token>, access: set<Access>)

  /**
   * What lets a client have tokens issued: a new account, a password, a redeemed
   * invitation, or an access token presented to switch workspace.
   */
  datatype Grant = Registration | Password | Invitation | Switching(access: Access)

  datatype Request =
    | Issue(user: nat, jti: nat, grant: Grant)
    | Refresh(jti: nat, newJti: nat, available: bool)
    | Logout(jti: nat)
    | RevokeUser(user: nat)
    | Purge
    | Wait(ticks: nat)

  ghost predicate Fresh(w: World, r: Request) {
    match r
    case Issue(user, jti, grant) =>
      && jti !in w.minted
      && (grant.Switching? ==> grant.access in w.access && grant.access.user == user && w.now < grant.access.exp)
    case Refresh(jti, newJti, _) => jti in w.minted && newJti !in w.minted
    case Logout(jti) => jti in w.minted
    case _ => true
  }

  function Step(policy: Policy, w: World, r: Request): (World, Answer) {
    match r
    case Issue(user, jti, _) =>
      var token := Mint(policy, user, jti, w.now);
      (w.(store := DoIssue(w.store, policy, user, jti, w.now), minted := w.minted[jti := token],
          access := w.access + {MintAccess(policy, user, w.now)}), Issued(token))
    case Refresh(jti, newJti, available) =>
      if jti !in w.minted then (w, TokenExpired)
      else
        var (store, answer) := DoRotate(w.store, policy, w.minted[jti], newJti, available, w.now);
        (w.(store := store,
            minted := if answer.Issued? then w.minted[newJti := answer.token] else w.minted,
            access := if answer.Issued? then w.access + {MintAccess(policy, answer.token.user, w.now)} else w.access),
         answer)
    case Logout(jti) =>
      if jti !in w.minted then (w, LoggedOut)
      else (w.(store := DoLogout(w.store, w.minted[jti], w.now)), LoggedOut)
    case RevokeUser(user) => (w.(store := DoRevokeAll(w.store, user, w.now)), Quiet)
    case Purge => (w.(store := DoPurge(w.store, policy, w.now)), Quiet)
    case Wait(ticks) => (w.(now := w.now + ticks), Quiet)
  }

  const START := World(0, map[], map[], {})

  function After(policy: Policy, requests: seq<Request>): World {
    if |requests| == 0 then START
    else Step(policy, After(policy, requests[..|requests| - 1]), requests[|requests| - 1]).0
  }

  ghost predicate Run(policy: Policy, requests: seq<Request>) {
    forall k :: 0 <= k < |requests| ==> Fresh(After(policy, requests[..k]), requests[k])
  }

  lemma RunPrefix(policy: Policy, requests: seq<Request>)
    requires |requests| > 0 && Run(policy, requests)
    ensures var n := |requests| - 1;
            && Run(policy, requests[..n]) && Fresh(After(policy, requests[..n]), requests[n])
            && After(policy, requests) == Step(policy, After(policy, requests[..n]), requests[n]).0
  {
    hide Step;
    var n := |requests| - 1;
    assert forall k :: 0 <= k < n ==> requests[..n][..k] == requests[..k];
  }

  // ----- the invariant of every run ------------------------------------------------------------

  ghost predicate Inv(policy: Policy, w: World) {
    && w.store.Keys <= w.minted.Keys
    && (forall j :: j in w.minted ==> w.minted[j].jti == j)
    && (forall j :: j in w.store ==>
          && w.minted[j].user == w.store[j].user
          && w.minted[j].exp == WholeSecond(w.store[j].expiresAt)
          && w.store[j].expiresAt <= w.now + policy.ttlDays * DAY
          && (w.store[j].revokedAt.Some? ==>
                w.store[j].expiresAt - policy.ttlDays * DAY <= w.store[j].revokedAt.value <= w.now))
    && (forall a :: a in w.access ==> a.exp <= w.now + policy.accessMinutes * MINUTE)
  }

  lemma RevokingKeepsInv(policy: Policy, w: World, user: nat)
    requires Inv(policy, w)
    ensures Inv(policy, w.(store := DoRevokeAll(w.store, user, w.now)))
  {
  }

  lemma IssuingKeepsInv(policy: Policy, w: World, user: nat, jti: nat)
    requires Inv(policy, w) && jti !in w.minted
    ensures Inv(policy, w.(store := DoIssue(w.store, policy, user, jti, w.now),
                           minted := w.minted[jti := Mint(policy, user, jti, w.now)],
                           access := w.access + {MintAccess(policy, user, w.now)}))
  {
  }

  lemma RevokingOneKeepsInv(policy: Policy, w: World, jti: nat)
    requires Inv(policy, w) && jti in w.store && w.store[jti].revokedAt.None?
    ensures Inv(policy, w.(store := w.store[jti := w.store[jti].(revokedAt := Some(w.now))]))
  {
  }

  lemma RotatingKeepsInv(policy: Policy, w: World, r: Request)
    requires Inv(policy, w) && Fresh(w, r) && r.Refresh?
    ensures Inv(policy, Step(policy, w, r).0)
  {
    var token := w.minted[r.jti];
    if r.jti in w.store {
      RevokingKeepsInv(policy, w, token.user);
      if w.store[r.jti].revokedAt.None? {
        RevokingOneKeepsInv(policy, w, r.jti);
        var v := w.(store := w.store[r.jti := w.store[r.jti].(revokedAt := Some(w.now))]);
        IssuingKeepsInv(policy, v, token.user, r.newJti);
      }
    }
    assert token.jti == r.jti;
    hide Inv;
    hide DoIssue;
    hide DoRevokeAll;
    hide Mint;
    hide MintAccess;
  }

  lemma StepKeepsInv(policy: Policy, w: World, r: Request)
    requires Inv(policy, w) && Fresh(w, r)
    ensures Inv(policy, Step(policy, w, r).0)
  {
    match r {
      case Issue(user, jti, _) => IssuingKeepsInv(policy, w, user, jti);
      case Refresh(_, _, _) => RotatingKeepsInv(policy, w, r);
      case Logout(jti) =>
        if jti in w.store && w.store[jti].revokedAt.None? {
          RevokingOneKeepsInv(policy, w, jti);
        }
      case RevokeUser(user) => RevokingKeepsInv(policy, w, user);
      case _ =>
    }
    hide DoRotate;
    hide DoIssue;
    hide DoRevokeAll;
    hide Mint;
    hide MintAccess;
  }

  lemma {:induction false} EveryRunKeepsInv(policy: Policy, requests: seq<Request>)
    requires Run(policy, requests)
    ensures Inv(policy, After(policy, requests))
  {
    if |requests| > 0 {
      var n := |requests| - 1;
      RunPrefix(policy, requests);
      EveryRunKeepsInv(policy, requests[..n]);
      StepKeepsInv(policy, After(policy, requests[..n]), requests[n]);
    }
  }

  // ----- revocation is final ---------------------------------------------------------------------

  /** Minted, and its record is revoked or gone. */
  ghost predicate Spent(w: World, jti: nat) {
    jti in w.minted && (jti in w.store ==> w.store[jti].revokedAt.Some?)
  }

  /** No request revives a token, moves its revocation time or changes its expiry. */
  lemma RevocationIsFinal(policy: Policy, w: World, r: Request, jti: nat)
    requires Inv(policy, w) && Fresh(w, r)
    ensures var t := Step(policy, w, r).0;
            && (Spent(w, jti) ==> Spent(t, jti))
            && (jti in w.store && jti in t.store ==>
                  && t.store[jti].expiresAt == w.store[jti].expiresAt
                  && (w.store[jti].revokedAt.Some? ==> t.store[jti].revokedAt == w.store[jti].revokedAt))
            && (jti in w.minted ==> jti in t.minted && t.minted[jti] == w.minted[jti])
  {
  }

  predicate Exchanges(policy: Policy, w: World, r: Request, jti: nat) {
    r.Refresh? && r.jti == jti && Step(policy, w, r).1.Issued?
  }

  function TimesExchanged(policy: Policy, requests: seq<Request>, jti: nat): nat {
    if |requests| == 0 then 0
    else
      var n := |requests| - 1;
      TimesExchanged(policy, requests[..n], jti)
      + if Exchanges(policy, After(policy, requests[..n]), requests[n], jti) then 1 else 0
  }

  /** Over every run, purges included, a refresh token is exchanged at most once. */
  lemma {:induction false} ExchangedAtMostOnce(policy: Policy, requests: seq<Request>, jti: nat)
    requires Run(policy, requests)
    ensures TimesExchanged(policy, requests, jti) <= 1
    ensures TimesExchanged(policy, requests, jti) == 1 ==> Spent(After(policy, requests), jti)
  {
    if |requests| > 0 {
      var n := |requests| - 1;
      OneMoreExchange(policy, requests, jti);
      hide *;
      RunPrefix(policy, requests);
      ExchangedAtMostOnce(policy, requests[..n], jti);
      EveryRunKeepsInv(policy, requests[..n]);
      ExchangeSpends(policy, After(policy, requests[..n]), requests[n], jti);
    }
  }

  lemma OneMoreExchange(policy: Policy, requests: seq<Request>, jti: nat)
    requires |requests| > 0
    ensures var n := |requests| - 1;
            TimesExchanged(policy, requests, jti)
              == TimesExchanged(policy, requests[..n], jti)
               + if Exchanges(policy, After(policy, requests[..n]), requests[n], jti) then 1 else 0
  {
    hide Exchanges;
    hide After;
  }

  lemma ExchangeSpends(policy: Policy, w: World, r: Request, jti: nat)
    requires Inv(policy, w) && Fresh(w, r)
    ensures Spent(w, jti) ==> Spent(Step(policy, w, r).0, jti) && !Exchanges(policy, w, r, jti)
    ensures Exchanges(policy, w, r, jti) ==> Spent(Step(policy, w, r).0, jti)
  {
  }

  /** Presenting a spent token that is still on record cuts every session of its user. */
  lemma ReplayCutsTheFamily(policy: Policy, w: World, r: Request)
    requires Inv(policy, w) && r.Refresh? && r.jti in w.store
    requires w.store[r.jti].revokedAt.Some? && Decodes(w.minted[r.jti], w.now)
    ensures var (t, answer) := Step(policy, w, r);
            && answer == Replayed
            && (forall j :: j in t.store && t.store[j].user == w.store[r.jti].user ==> t.store[j].revokedAt.Some?)
            && (forall j :: j in t.store && t.store[j].user != w.store[r.jti].user ==> t.store[j] == w.store[j])
            && t.store.Keys == w.store.Keys
  {
  }

  /** A refresh succeeds exactly on a live token of an available user, and touches nothing else. */
  lemma RefreshSucceedsExactlyWhen(policy: Policy, w: World, r: Request)
    requires Inv(policy, w) && Fresh(w, r) && r.Refresh?
    ensures var (t, answer) := Step(policy, w, r);
            && (answer.Issued? <==>
                  && Decodes(w.minted[r.jti], w.now) && r.available
                  && r.jti in w.store && w.store[r.jti].revokedAt.None?)
            && (answer.Issued? ==>
                  && answer.token.user == w.minted[r.jti].user && answer.token.jti == r.newJti
                  && t.store[r.newJti] == Record(w.minted[r.jti].user, w.now + policy.ttlDays * DAY, None)
                  && t.store[r.jti] == w.store[r.jti].(revokedAt := Some(w.now))
                  && t.store.Keys == w.store.Keys + {r.newJti}
                  && forall j :: j in w.store && j != r.jti ==> t.store[j] == w.store[j])
            && answer != RecordExpired
  {
  }

  // ----- request by request, on the records ------------------------------------------------------

  /** The last whole second at or before t, where a second has a million ticks. */
  predicate WholeSecondOf(second: int, t: int) {
    second % 1_000_000 == 0 && second <= t < second + 1_000_000
  }

  /** Issuing adds one live record under the new jti, a token that ends with it, and an access token. */
  lemma IssueAddsASession(policy: Policy, w: World, r: Request)
    requires Inv(policy, w) && Fresh(w, r) && r.Issue?
    ensures var (t, answer) := Step(policy, w, r);
            var ends := w.now + policy.ttlDays * 86_400_000_000;
            && answer.Issued? && answer.token.jti == r.jti && answer.token.user == r.user
            && WholeSecondOf(answer.token.exp, ends)
            && t.store == w.store[r.jti := Record(r.user, ends, None)]
            && t.minted == w.minted[r.jti := answer.token] && t.now == w.now
            && exists a :: t.access == w.access + {a} && a.user == r.user
                 && WholeSecondOf(a.exp, w.now + policy.accessMinutes * 60_000_000)
  {
    var a := MintAccess(policy, r.user, w.now);
    LastWholeSecond(w.now + policy.ttlDays * 86_400_000_000);
    LastWholeSecond(w.now + policy.accessMinutes * 60_000_000);
    hide WholeSecond;
    hide WholeSecondOf;
    hide Inv;
    assert a.user == r.user && WholeSecondOf(a.exp, w.now + policy.accessMinutes * 60_000_000);
    assert Step(policy, w, r).0.access == w.access + {a};
  }

  lemma LastWholeSecond(t: int)
    ensures WholeSecondOf(WholeSecond(t), t)
  {
  }

  /** Logging out revokes the token's live record now, unless the token has expired, and nothing else ever. */
  lemma LogoutRevokesTheSession(policy: Policy, w: World, r: Request)
    requires Inv(policy, w) && Fresh(w, r) && r.Logout?
    ensures var (t, answer) := Step(policy, w, r);
            && answer == LoggedOut && t == w.(store := t.store) && t.store.Keys == w.store.Keys
            && (forall j :: j in w.store && j != r.jti ==> t.store[j] == w.store[j])
            && (r.jti in w.store ==>
                  var was, ended := w.store[r.jti], w.now >= w.minted[r.jti].exp;
                  t.store[r.jti] == if was.revokedAt.None? && !ended then was.(revokedAt := Some(w.now)) else was)
  {
  }

  /** Revoking a user revokes each of their live records now and changes no other. */
  lemma RevokeUserRevokesThemAll(policy: Policy, w: World, r: Request)
    requires r.RevokeUser?
    ensures var (t, answer) := Step(policy, w, r);
            && answer == Quiet && t == w.(store := t.store) && t.store.Keys == w.store.Keys
            && forall j :: j in w.store ==>
                 t.store[j] == if w.store[j].user == r.user && w.store[j].revokedAt.None?
                               then Record(r.user, w.store[j].expiresAt, Some(w.now)) else w.store[j]
  {
  }

  /** A purge removes the records that expired or were revoked before the retention began, and changes none. */
  lemma PurgeRemovesTheStale(policy: Policy, w: World)
    ensures var (t, answer) := Step(policy, w, Purge);
            var cutoff := w.now - policy.retainDays * 86_400_000_000;
            && answer == Quiet && t == w.(store := t.store)
            && (forall j :: j in t.store ==> j in w.store && t.store[j] == w.store[j])
            && forall j :: j in w.store ==>
                 (j !in t.store <==> w.store[j].expiresAt < cutoff
                                     || (w.store[j].revokedAt.Some? && w.store[j].revokedAt.value < cutoff))
  {
  }

  /** Every refusal of a refresh, and which ones leave the records alone. */
  lemma RefreshRefusedExactlyWhen(policy: Policy, w: World, r: Request)
    requires Inv(policy, w) && Fresh(w, r) && r.Refresh?
    ensures var (t, answer) := Step(policy, w, r);
            var decodes, known := w.now < w.minted[r.jti].exp, r.jti in w.store;
            && (answer == TokenExpired <==> !decodes)
            && (answer == NotRecognised <==> decodes && !known)
            && (answer == Replayed <==> decodes && known && w.store[r.jti].revokedAt.Some?)
            && (answer == Unavailable <==> decodes && known && w.store[r.jti].revokedAt.None? && !r.available)
            && (!answer.Issued? && answer != Replayed ==> t == w)
            && (answer == Replayed ==> t == Step(policy, w, RevokeUser(w.minted[r.jti].user)).0)
  {
  }

  /** After a logout, however the run goes on, the token is never exchanged again. */
  lemma LoggedOutForGood(policy: Policy, requests: seq<Request>, n: nat, r: Request)
    requires Run(policy, requests) && n < |requests| && requests[n].Logout?
    requires Fresh(After(policy, requests), r) && r.Refresh? && r.jti == requests[n].jti
    ensures !Step(policy, After(policy, requests), r).1.Issued?
  {
    hide *;
    LogoutEnds(policy, requests, n);
    EndedForGood(policy, requests, n + 1, r.jti);
    EveryRunKeepsInv(policy, requests);
    EndedIsRefused(policy, After(policy, requests), r);
  }

  /** Spent, or past its expiry. */
  ghost predicate Ended(w: World, jti: nat) {
    jti in w.minted && (Spent(w, jti) || w.now >= w.minted[jti].exp)
  }

  lemma LogoutEnds(policy: Policy, requests: seq<Request>, n: nat)
    requires Run(policy, requests) && n < |requests| && requests[n].Logout?
    ensures Ended(After(policy, requests[..n + 1]), requests[n].jti)
  {
    var front := requests[..n + 1];
    assert front[..n] == requests[..n] && front[n] == requests[n];
    RunUpTo(policy, requests, n);
    EveryRunKeepsInv(policy, requests[..n]);
    LogoutRevokesTheSession(policy, After(policy, requests[..n]), requests[n]);
    hide Step;
    hide Inv;
    hide Run;
  }

  lemma EndedStays(policy: Policy, w: World, r: Request, jti: nat)
    requires Inv(policy, w) && Fresh(w, r) && Ended(w, jti)
    ensures Ended(Step(policy, w, r).0, jti)
  {
    RevocationIsFinal(policy, w, r, jti);
    TimePasses(policy, w, r);
    hide Step;
    hide Inv;
  }

  lemma TimePasses(policy: Policy, w: World, r: Request)
    ensures Step(policy, w, r).0.now >= w.now
  {
  }

  lemma EndedIsRefused(policy: Policy, w: World, r: Request)
    requires Inv(policy, w) && Fresh(w, r) && r.Refresh? && Ended(w, r.jti)
    ensures !Step(policy, w, r).1.Issued?
  {
    RefreshSucceedsExactlyWhen(policy, w, r);
    hide Step;
    hide Inv;
  }

  lemma {:induction false} EndedForGood(policy: Policy, requests: seq<Request>, n: nat, jti: nat)
    requires Run(policy, requests) && n <= |requests| && Ended(After(policy, requests[..n]), jti)
    ensures Ended(After(policy, requests), jti)
  {
    hide *;
    if n == |requests| {
      assert requests[..n] == requests;
    } else {
      var m := |requests| - 1;
      RunPrefix(policy, requests);
      assert requests[..m][..n] == requests[..n];
      EndedForGood(policy, requests[..m], n, jti);
      EveryRunKeepsInv(policy, requests[..m]);
      EndedStays(policy, After(policy, requests[..m]), requests[m], jti);
    }
  }

  /** None of the user's records is live. */
  ghost predicate CutOff(w: World, user: nat) {
    forall j :: j in w.store && w.store[j].user == user ==> w.store[j].revokedAt.Some?
  }

  lemma CutOffRefusesRefreshes(policy: Policy, w: World, r: Request)
    requires Inv(policy, w) && Fresh(w, r) && r.Refresh? && CutOff(w, w.minted[r.jti].user)
    ensures !Step(policy, w, r).1.Issued?
  {
    RefreshSucceedsExactlyWhen(policy, w, r);
  }

  /** None of the user's sessions is live, and no access token of theirs lasts beyond `limit`. */
  ghost predicate Fenced(w: World, user: nat, limit: int) {
    CutOff(w, user) && forall a :: a in w.access && a.user == user ==> a.exp <= limit
  }

  /** A request that issues tokens to the user although they are fenced: not a switch after `limit`. */
  predicate Regrants(w: World, r: Request, user: nat, limit: int) {
    r.Issue? && r.user == user && (r.grant.Switching? ==> w.now < limit)
  }

  lemma StepKeepsFence(policy: Policy, w: World, r: Request, user: nat, limit: int)
    requires Inv(policy, w) && Fresh(w, r) && Fenced(w, user, limit) && !Regrants(w, r, user, limit)
    ensures Fenced(Step(policy, w, r).0, user, limit)
  {
    if r.Refresh? {
      RefreshSucceedsExactlyWhen(policy, w, r);
    }
    hide DoPurge;
    hide DoLogout;
  }

  lemma {:induction false} FencedUntilRegranted(policy: Policy, requests: seq<Request>, n: nat, user: nat, limit: int)
    requires Run(policy, requests) && n <= |requests| && Fenced(After(policy, requests[..n]), user, limit)
    requires forall k :: n <= k < |requests| ==> !Regrants(After(policy, requests[..k]), requests[k], user, limit)
    ensures Fenced(After(policy, requests), user, limit)
  {
    if n == |requests| {
      assert requests[..n] == requests;
    } else {
      var m := |requests| - 1;
      RunPrefix(policy, requests);
      assert forall k :: 0 <= k <= m ==> requests[..m][..k] == requests[..k];
      hide Step;
      hide Fresh;
      hide Inv;
      hide Fenced;
      hide Regrants;
      hide Run;
      FencedUntilRegranted(policy, requests[..m], n, user, limit);
      EveryRunKeepsInv(policy, requests[..m]);
      StepKeepsFence(policy, After(policy, requests[..m]), requests[m], user, limit);
    }
  }

  /** Request n of the run is a replay of one of the user's tokens. */
  ghost predicate ReplayAt(policy: Policy, requests: seq<Request>, n: nat, user: nat)
    requires n < |requests|
  {
    ReplayFrom(policy, After(policy, requests[..n]), requests[n], user)
  }

  /** A token of the user is answered as a replay. */
  ghost predicate ReplayFrom(policy: Policy, w: World, r: Request, user: nat) {
    r.Refresh? && r.jti in w.minted && w.minted[r.jti].user == user && Step(policy, w, r).1.Replayed?
  }

  /** The last moment an access token minted by now can be used. */
  function AccessLimit(policy: Policy, w: World): int {
    w.now + policy.accessMinutes * MINUTE
  }

  lemma FencedAfterReplay(policy: Policy, requests: seq<Request>, n: nat, user: nat)
    requires n < |requests| && Run(policy, requests) && ReplayAt(policy, requests, n, user)
    ensures Fenced(After(policy, requests[..n + 1]), user, AccessLimit(policy, After(policy, requests[..n])))
  {
    var front := requests[..n + 1];
    assert front[..n] == requests[..n] && front[n] == requests[n];
    RunUpTo(policy, requests, n);
    EveryRunKeepsInv(policy, requests[..n]);
    ReplayFences(policy, After(policy, requests[..n]), requests[n]);
    hide Fenced;
    hide Step;
    hide Inv;
    hide Run;
  }

  /**
   * After a replay, in any continuation of any run, no token of that user is
   * exchanged until they are granted tokens anew: with a password, a redeemed
   * invitation, or a switch of workspace within one access lifetime of the replay.
   */
  lemma ReplayEndsTheSessions(policy: Policy, requests: seq<Request>, n: nat, user: nat, r: Request)
    requires n < |requests| && Run(policy, requests) && ReplayAt(policy, requests, n, user)
    requires var limit := AccessLimit(policy, After(policy, requests[..n]));
             forall k :: n < k < |requests| ==> !Regrants(After(policy, requests[..k]), requests[k], user, limit)
    requires r.Refresh? && Fresh(After(policy, requests), r) && After(policy, requests).minted[r.jti].user == user
    ensures !Step(policy, After(policy, requests), r).1.Issued?
  {
    hide *;
    var limit := AccessLimit(policy, After(policy, requests[..n]));
    FencedAfterReplay(policy, requests, n, user);
    FencedUntilRegranted(policy, requests, n + 1, user, limit);
    EveryRunKeepsInv(policy, requests);
    FencedIsCutOff(After(policy, requests), user, limit);
    CutOffRefusesRefreshes(policy, After(policy, requests), r);
  }

  lemma FencedIsCutOff(w: World, user: nat, limit: int)
    requires Fenced(w, user, limit)
    ensures CutOff(w, user)
  {
  }

  lemma RunUpTo(policy: Policy, requests: seq<Request>, n: nat)
    requires Run(policy, requests) && n < |requests|
    ensures Run(policy, requests[..n]) && Fresh(After(policy, requests[..n]), requests[n])
  {
    hide Fresh;
    hide After;
    assert forall k :: 0 <= k < n ==> requests[..n][..k] == requests[..k];
  }

  lemma ReplayFences(policy: Policy, w: World, r: Request)
    requires Inv(policy, w) && Fresh(w, r) && r.Refresh? && Step(policy, w, r).1.Replayed?
    ensures Fenced(Step(policy, w, r).0, w.minted[r.jti].user, AccessLimit(policy, w))
  {
    ReplayCutsTheFamily(policy, w, r);
  }

  lemma OneMore(policy: Policy, requests: seq<Request>, r: Request)
    requires Run(policy, requests) && Fresh(After(policy, requests), r)
    ensures Run(policy, requests + [r])
    ensures After(policy, requests + [r]) == Step(policy, After(policy, requests), r).0
  {
    var longer := requests + [r];
    assert longer[..|requests|] == requests;
    forall k | 0 <= k < |longer|
      ensures Fresh(After(policy, longer[..k]), longer[k])
    {
      assert k < |requests| ==> longer[..k] == requests[..k];
    }
  }

  /** A session is replayed, and whoever holds its access token switches workspace. */
  function ReplayedThenSwitched(policy: Policy): seq<Request> {
    [] + [Issue(0, 0, Password)] + [Refresh(0, 1, true)] + [Refresh(0, 2, true)]
    + [Issue(0, 3, Switching(MintAccess(policy, 0, 0)))]
  }

  lemma SessionIsReplayed(policy: Policy) returns (w1: World, w2: World, w3: World)
    requires policy.ttlDays > 0
    ensures Fresh(START, Issue(0, 0, Password)) && w1 == Step(policy, START, Issue(0, 0, Password)).0
    ensures Fresh(w1, Refresh(0, 1, true)) && w2 == Step(policy, w1, Refresh(0, 1, true)).0
    ensures Fresh(w2, Refresh(0, 2, true)) && Step(policy, w2, Refresh(0, 2, true)) == (w3, Replayed)
    ensures ReplayFrom(policy, w2, Refresh(0, 2, true), 0)
    ensures w3.now == 0 && w3.minted.Keys == {0, 1} && MintAccess(policy, 0, 0) in w3.access
  {
    assert policy.ttlDays * DAY >= DAY && WholeSecond(policy.ttlDays * DAY) > 0;
    w1 := Step(policy, START, Issue(0, 0, Password)).0;
    w2 := Step(policy, w1, Refresh(0, 1, true)).0;
    assert w2.store[0].revokedAt == Some(0);
    w3 := Step(policy, w2, Refresh(0, 2, true)).0;
    assert Step(policy, w2, Refresh(0, 2, true)).1 == Replayed;
  }

  lemma SwitchedSessionIsLive(policy: Policy, w: World)
    requires policy.ttlDays > 0 && policy.accessMinutes > 0
    requires w.now == 0 && w.minted.Keys == {0, 1} && MintAccess(policy, 0, 0) in w.access
    ensures var switch := Issue(0, 3, Switching(MintAccess(policy, 0, 0)));
            && Fresh(w, switch)
            && var v := Step(policy, w, switch).0;
               Fresh(v, Refresh(3, 4, true)) && Step(policy, v, Refresh(3, 4, true)).1.Issued?
  {
    assert policy.ttlDays * DAY >= DAY && WholeSecond(policy.ttlDays * DAY) > 0;
    assert policy.accessMinutes * MINUTE >= MINUTE && WholeSecond(policy.accessMinutes * MINUTE) > 0;
  }

  /** So a replay does not end a user's sessions by itself: without any login the switched one refreshes on. */
  lemma SwitchOutlivesTheReplay(policy: Policy)
    requires policy.ttlDays > 0 && policy.accessMinutes > 0
    ensures var q, r := ReplayedThenSwitched(policy), Refresh(3, 4, true);
            && Run(policy, q) && Fresh(After(policy, q), r)
            && ReplayAt(policy, q, 2, 0)
            && Step(policy, After(policy, q), r).1.Issued?
  {
    hide *;
    var a, b, c := Issue(0, 0, Password), Refresh(0, 1, true), Refresh(0, 2, true);
    var d := Issue(0, 3, Switching(MintAccess(policy, 0, 0)));
    var w1, w2, w3 := SessionIsReplayed(policy);
    SwitchedSessionIsLive(policy, w3);
    NothingYet(policy);
    ReplayedThenSwitchedIs(policy);
    OneMore(policy, [], a);
    OneMore(policy, [] + [a], b);
    OneMore(policy, [] + [a] + [b], c);
    OneMore(policy, [] + [a] + [b] + [c], d);
    ReplayAtIs(policy, ReplayedThenSwitched(policy), 2, 0);
  }

  lemma NothingYet(policy: Policy)
    ensures Run(policy, []) && After(policy, []) == START
  {
  }

  lemma ReplayedThenSwitchedIs(policy: Policy)
    ensures var a, b, c := Issue(0, 0, Password), Refresh(0, 1, true), Refresh(0, 2, true);
            var q := ReplayedThenSwitched(policy);
            && q == [] + [a] + [b] + [c] + [Issue(0, 3, Switching(MintAccess(policy, 0, 0)))]
            && q[2] == c && q[..2] == [] + [a] + [b]
  {
    hide MintAccess;
  }

  lemma ReplayAtIs(policy: Policy, requests: seq<Request>, n: nat, user: nat)
    requires n < |requests|
    ensures ReplayAt(policy, requests, n, user) <==> ReplayFrom(policy, After(policy, requests[..n]), requests[n], user)
  {
  }

  // ----- purging is invisible --------------------------------------------------------------------

  function WithoutPurges(requests: seq<Request>): seq<Request> {
    if |requests| == 0 then []
    else
      var n := |requests| - 1;
      WithoutPurges(requests[..n]) + if requests[n].Purge? then [] else [requests[n]]
  }

  /** The purged store holds what the full one holds, less records whose token no longer decodes. */
  ghost predicate Shadows(purged: World, full: World) {
    && purged.now == full.now && purged.minted == full.minted && purged.access == full.access
    && purged.store.Keys <= full.store.Keys <= full.minted.Keys
    && (forall j :: j in purged.store ==> purged.store[j] == full.store[j])
    && (forall j :: j in full.store && j !in purged.store ==> !Decodes(full.minted[j], full.now))
  }

  lemma PurgeKeepsShadow(policy: Policy, purged: World, full: World)
    requires policy.ttlDays <= policy.retainDays
    requires Inv(policy, purged) && Inv(policy, full) && Shadows(purged, full)
    ensures Shadows(Step(policy, purged, Purge).0, full)
  {
    var t := Step(policy, purged, Purge).0;
    forall j | j in full.store && j !in t.store
      ensures !Decodes(full.minted[j], full.now)
    {
      if j in purged.store {
        assert policy.ttlDays * DAY <= policy.retainDays * DAY;
      }
    }
  }

  lemma StepKeepsShadow(policy: Policy, purged: World, full: World, r: Request)
    requires Inv(policy, purged) && Inv(policy, full) && Shadows(purged, full)
    requires !r.Purge? && Fresh(purged, r)
    ensures Step(policy, purged, r).1 == Step(policy, full, r).1
    ensures Shadows(Step(policy, purged, r).0, Step(policy, full, r).0)
  {
    if r.Refresh? {
      RefreshKeepsShadow(policy, purged, full, r);
    }
    hide DoRotate;
    hide DoPurge;
  }

  lemma RefreshKeepsShadow(policy: Policy, purged: World, full: World, r: Request)
    requires Inv(policy, purged) && Inv(policy, full) && Shadows(purged, full)
    requires r.Refresh? && Fresh(purged, r)
    ensures Step(policy, purged, r).1 == Step(policy, full, r).1
    ensures Shadows(Step(policy, purged, r).0, Step(policy, full, r).0)
  {
    hide Inv;
    assert full.minted[r.jti].jti == r.jti && purged.minted[r.jti].jti == r.jti by {
      MintedByName(policy, full, r.jti);
    }
    hide Mint;
  }

  lemma MintedByName(policy: Policy, w: World, jti: nat)
    requires Inv(policy, w) && jti in w.minted
    ensures w.minted[jti].jti == jti
    ensures jti in w.store && w.minted[jti].exp > w.now ==> w.store[jti].expiresAt > w.now
  {
  }

  lemma {:induction false} RunsShadow(policy: Policy, requests: seq<Request>)
    requires policy.ttlDays <= policy.retainDays && Run(policy, requests)
    ensures Shadows(After(policy, requests), After(policy, WithoutPurges(requests)))
    ensures Inv(policy, After(policy, WithoutPurges(requests)))
  {
    if |requests| > 0 {
      var n := |requests| - 1;
      RunPrefix(policy, requests);
      RunsShadow(policy, requests[..n]);
      EveryRunKeepsInv(policy, requests[..n]);
      var purged, full := After(policy, requests[..n]), After(policy, WithoutPurges(requests[..n]));
      if requests[n].Purge? {
        PurgeKeepsShadow(policy, purged, full);
        assert WithoutPurges(requests) == WithoutPurges(requests[..n]);
      } else {
        StepKeepsShadow(policy, purged, full, requests[n]);
        StepKeepsInv(policy, full, requests[n]);
        var kept := WithoutPurges(requests);
        assert kept[..|kept| - 1] == WithoutPurges(requests[..n]);
      }
    }
  }

  /** Every request is answered as a server that never purges would answer it. */
  ghost predicate PurgingIsInvisible(policy: Policy) {
    forall requests: seq<Request>, r: Request {:trigger Run(policy, requests), Fresh(After(policy, requests), r)} ::
      Run(policy, requests) && Fresh(After(policy, requests), r) && !r.Purge? ==>
        Step(policy, After(policy, requests), r).1 == Step(policy, After(policy, WithoutPurges(requests)), r).1
  }

  /**
   * Purging is invisible exactly when a token's lifetime does not exceed the
   * retention of its record.
   */
  lemma PurgingIsInvisibleExactlyWhen(policy: Policy)
    ensures PurgingIsInvisible(policy) <==> policy.ttlDays <= policy.retainDays
  {
    if policy.ttlDays <= policy.retainDays {
      forall requests: seq<Request>, r: Request |
        Run(policy, requests) && Fresh(After(policy, requests), r) && !r.Purge?
        ensures Step(policy, After(policy, requests), r).1
             == Step(policy, After(policy, WithoutPurges(requests)), r).1
      {
        RunsShadow(policy, requests);
        EveryRunKeepsInv(policy, requests);
        StepKeepsShadow(policy, After(policy, requests), After(policy, WithoutPurges(requests)), r);
      }
    } else {
      LostReplay(policy);
    }
  }

  function RotateWaitPurge(policy: Policy): seq<Request> {
    [Issue(0, 0, Password), Refresh(0, 1, true), Wait(policy.retainDays * DAY + 1), Purge]
  }

  /** With a longer lifetime a replay can arrive after its evidence was deleted. */
  lemma LostReplay(policy: Policy)
    requires policy.ttlDays > policy.retainDays
    ensures Run(policy, RotateWaitPurge(policy))
    ensures var replay := Refresh(0, 2, true);
            && Fresh(After(policy, RotateWaitPurge(policy)), replay)
            && Step(policy, After(policy, RotateWaitPurge(policy)), replay).1 == NotRecognised
            && Step(policy, After(policy, WithoutPurges(RotateWaitPurge(policy))), replay).1 == Replayed
  {
    var q := RotateWaitPurge(policy);
    var ttl, retain := policy.ttlDays * DAY, policy.retainDays * DAY;
    assert ttl >= retain + DAY;
    assert ttl % SECOND == 0 by {
      assert ttl == policy.ttlDays * 86400 * SECOND;
    }
    assert q[..0] == [] && q[..1][..0] == [] && q[..2][..1] == q[..1] && q[..3][..2] == q[..2] && q[..4] == q
        && q[..4][..3] == q[..3];
    assert WholeSecond(0 + ttl) == ttl;
    assert After(policy, q[..0]) == START;
    assert Step(policy, START, q[0]).0.store == map[0 := Record(0, ttl, None)];
    var w1 := After(policy, q[..1]);
    assert q[..1][|q[..1]| - 1] == q[0];
    assert w1 == Step(policy, START, q[0]).0;
    var pass := MintAccess(policy, 0, 0);
    assert w1 == World(0, map[0 := Record(0, ttl, None)], map[0 := Token(0, 0, ttl)], {pass});
    var w2 := After(policy, q[..2]);
    assert w2 == World(0, map[0 := Record(0, ttl, Some(0)), 1 := Record(0, ttl, None)],
                       map[0 := Token(0, 0, ttl), 1 := Token(1, 0, ttl)], {pass});
    var w3 := After(policy, q[..3]);
    assert w3 == w2.(now := retain + 1);
    var w4 := After(policy, q);
    assert 0 !in w4.store;
    assert WithoutPurges(q[..1]) == [q[0]];
    assert WithoutPurges(q[..2]) == [q[0], q[1]];
    assert WithoutPurges(q[..3]) == q[..3];
    assert WithoutPurges(q) == q[..3];
  }

  /** The service's own settings: 14 days of life, 30 days of retention. */
  lemma DefaultPurgingIsInvisible()
    ensures PurgingIsInvisible(DEFAULT_POLICY)
  {
    PurgingIsInvisibleExactlyWhen(DEFAULT_POLICY);
  }
}
