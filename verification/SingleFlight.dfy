/**
 * The browser client of web/lib/api.ts against the refresh-token service.
 *
 * `request` and `refreshSession` run to their next await without interruption,
 * so each stretch between awaits is one step. Requests, refresh calls, the
 * server and the rest of the world interleave freely between the steps.
 */
module SingleFlight {
  import opened Options
  import opened RefreshTokens

  // ----- the client's own state ----------------------------------------------------------

  /** localStorage, the in-memory access token, and the refresh promise shared by callers. */
  datatype Client = Client(stored: Option<Token>, hasAccess: bool, inFlight: Option<nat>)

  /** What the first stretch of `refreshSession` does: give up, join a refresh, or start one. */
  datatype Decision = NoSession | Join(call: nat) | Begin(call: nat, token: Token)

  function DecideRefresh(c: Client, newCall: nat): (Client, Decision) {
    if c.stored.None? then (c, NoSession)
    else if c.inFlight.Some? then (c, Join(c.inFlight.value))
    else (c.(inFlight := Some(newCall)), Begin(newCall, c.stored.value))
  }

  /** The refresh response arrives: new tokens or none, and the promise is settled. */
  function Settle(c: Client, answer: Answer): Client {
    if answer.Issued? then Client(Some(answer.token), true, None) else Client(None, false, None)
  }

  class ApiClient {
    var accessToken: bool
    var refreshToken: Option<Token>
    var refreshInFlight: Option<nat>

    constructor (token: Token)
      ensures Snapshot() == Client(Some(token), true, None)
    {
      accessToken, refreshToken, refreshInFlight := true, Some(token), None;
    }

    function Snapshot(): Client
      reads this
    {
      Client(refreshToken, accessToken, refreshInFlight)
    }

    method SetTokens(refresh: Token)
      modifies this`accessToken, this`refreshToken
      ensures accessToken && refreshToken == Some(refresh)
    {
      accessToken := true;
      refreshToken := Some(refresh);
    }

    method ClearTokens()
      modifies this`accessToken, this`refreshToken
      ensures !accessToken && refreshToken == None
    {
      accessToken := false;
      refreshToken := None;
    }

    method RefreshSession(newCall: nat) returns (d: Decision)
      modifies this`refreshInFlight
      ensures (Snapshot(), d) == DecideRefresh(old(Snapshot()), newCall)
      ensures refreshToken == old(refreshToken) && accessToken == old(accessToken)
      ensures old(refreshToken).None? ==> d == NoSession && refreshInFlight == old(refreshInFlight)
      ensures old(refreshToken).Some? && old(refreshInFlight).Some? ==>
                d == Join(old(refreshInFlight).value) && refreshInFlight == old(refreshInFlight)
      ensures old(refreshToken).Some? && old(refreshInFlight).None? ==>
                d == Begin(newCall, old(refreshToken).value) && refreshInFlight == Some(newCall)
    {
      if refreshToken.None? {
        return NoSession;
      }
      var refresh := refreshToken.value;
      if refreshInFlight.None? {
        refreshInFlight := Some(newCall);
        return Begin(newCall, refresh);
      }
      return Join(refreshInFlight.value);
    }

    method OnRefreshResponse(answer: Answer) returns (ok: bool)
      modifies this
      ensures Snapshot() == Settle(old(Snapshot()), answer)
      ensures (ok <==> answer.Issued?) && refreshInFlight == None
      ensures answer.Issued? ==> accessToken && refreshToken == Some(answer.token)
      ensures !answer.Issued? ==> !accessToken && refreshToken == None
    {
      if !answer.Issued? {
        ClearTokens();
        ok := false;
      } else {
        SetTokens(answer.token);
        ok := true;
      }
      refreshInFlight := None;
    }
  }

  // ----- one tab and the world around it ---------------------------------------------------

  /**
   * A refresh call; the answer is set once the server has handled it. A call whose
   * fetch was rejected is abandoned: the client forgets it, the server may still handle it.
   */
  datatype Call = Call(token: Token, answer: Option<Answer>, abandoned: bool)
  datatype Phase = Fetching(retry: bool) | Awaiting(call: nat) | Resuming(ok: bool) | Finished

  datatype Tab = Tab(
    client: Client,
    calls: map<nat, Call>,
    requests: map<nat, Phase>,
    sends: map<nat, nat>,        // how often each request went out
    world: World,
    user: nat,
    session: set<nat>,           // every jti this login led to
    refreshed: seq<nat>,         // the refresh-token values sent, in order
    exchanged: set<nat>,         // those the server traded for a new one
    cut: set<nat>,               // tokens of the session revoked from outside while they were live
    replays: nat)                // times the server's replay branch answered this tab

  datatype Event =
    | StartRequest(id: nat)
    | Respond(id: nat, unauthorized: bool, newCall: nat)
    | ServerHandles(call: nat, newJti: nat, available: bool)
    | Deliver(call: nat)
    | Lose(call: nat)
    | Resume(id: nat)
    | SignOut
    | Outside(request: Request)

  /** Everything else the server is asked. This session's tokens are in this tab only; its user has other sessions. */
  ghost predicate UsesOtherTokens(t: Tab, r: Request) {
    && Fresh(t.world, r)
    && (r.Refresh? ==> r.jti !in t.session)
    && (r.Logout? ==> r.jti !in t.session)
  }

  /** Of that, what does not revoke this session either. */
  ghost predicate LeavesSessionAlone(policy: Policy, t: Tab, r: Request) {
    && Fresh(t.world, r)
    && match r
       case Refresh(jti, _, _) =>
         jti !in t.session
         && (Step(policy, t.world, r).1.Replayed? ==> t.world.minted[jti].user != t.user)
       case Logout(jti) => jti !in t.session
       case RevokeUser(user) => user != t.user
       case _ => true
  }

  ghost predicate Enabled(t: Tab, e: Event) {
    match e
    case StartRequest(id) => id !in t.requests
    case Respond(id, _, newCall) => id in t.requests && t.requests[id].Fetching? && newCall !in t.calls
    case ServerHandles(call, newJti, _) =>
      call in t.calls && t.calls[call].answer.None? && newJti !in t.world.minted
    case Deliver(call) => call in t.calls && t.calls[call].answer.Some? && !t.calls[call].abandoned
    case Lose(call) => call in t.calls && !t.calls[call].abandoned
    case Resume(id) => id in t.requests && t.requests[id].Resuming?
    case SignOut => true
    case Outside(r) => UsesOtherTokens(t, r)
  }

  function SendsOf(t: Tab, id: nat): nat {
    if id in t.sends then t.sends[id] else 0
  }

  function Answered(t: Tab, call: nat, ok: bool): map<nat, Phase> {
    map id | id in t.requests :: if t.requests[id] == Awaiting(call) then Resuming(ok) else t.requests[id]
  }

  /** Tokens of the session that were live and are revoked now. */
  function NewlyRevoked(t: Tab, world: World): set<nat> {
    set j | j in t.session && j in t.world.store && t.world.store[j].revokedAt.None?
            && j in world.store && world.store[j].revokedAt.Some?
  }

  function Apply(policy: Policy, t: Tab, e: Event): Tab {
    match e
    case StartRequest(id) =>
      t.(requests := t.requests[id := Fetching(true)], sends := t.sends[id := SendsOf(t, id) + 1])
    case Respond(id, unauthorized, newCall) =>
      if id !in t.requests || !t.requests[id].Fetching? then t
      else if !unauthorized || !t.requests[id].retry then t.(requests := t.requests[id := Finished])
      else
        var (client, decision) := DecideRefresh(t.client, newCall);
        (match decision
         case NoSession => t.(requests := t.requests[id := Finished])
         case Join(call) => t.(requests := t.requests[id := Awaiting(call)])
         case Begin(call, token) =>
           t.(client := client, requests := t.requests[id := Awaiting(call)],
              calls := t.calls[call := Call(token, None, false)], refreshed := t.refreshed + [token.jti]))
    case ServerHandles(call, newJti, available) =>
      if call !in t.calls then t
      else
        var (world, answer) := Step(policy, t.world, Refresh(t.calls[call].token.jti, newJti, available));
        t.(world := world, calls := t.calls[call := t.calls[call].(answer := Some(answer))],
           session := if answer.Issued? then t.session + {newJti} else t.session,
           exchanged := if answer.Issued? then t.exchanged + {t.calls[call].token.jti} else t.exchanged,
           replays := if answer.Replayed? then t.replays + 1 else t.replays)
    case Deliver(call) =>
      if call !in t.calls || t.calls[call].answer.None? || t.calls[call].abandoned then t
      else
        var answer := t.calls[call].answer.value;
        t.(client := Settle(t.client, answer), calls := t.calls - {call},
           requests := Answered(t, call, answer.Issued?))
    case Lose(call) =>
      // The fetch rejects: the `catch` keeps the tokens and settles the promise with false.
      if call !in t.calls || t.calls[call].abandoned then t
      else t.(client := t.client.(inFlight := None),
              calls := t.calls[call := t.calls[call].(abandoned := true)], requests := Answered(t, call, false))
    case Resume(id) =>
      if id !in t.requests || !t.requests[id].Resuming? then t
      else if t.requests[id].ok then
        t.(requests := t.requests[id := Fetching(false)], sends := t.sends[id := SendsOf(t, id) + 1])
      else t.(requests := t.requests[id := Finished])
    case SignOut => t.(client := Client(None, false, t.client.inFlight))
    case Outside(r) =>
      var world := Step(policy, t.world, r).0;
      t.(world := world, cut := t.cut + NewlyRevoked(t, world))
  }

  // ----- event by event ---------------------------------------------------------------------

  /** Nothing of the tab moved but its requests and how often they went out. */
  ghost predicate OnlyRequests(t: Tab, u: Tab) {
    u == t.(requests := u.requests, sends := u.sends)
  }

  /** One request is in this phase now and has gone out that often; the others are as they were. */
  ghost predicate OneRequest(t: Tab, u: Tab, id: nat, phase: Phase, sent: nat) {
    && u.requests == t.requests[id := phase]
    && u.sends.Keys == t.sends.Keys + (if sent > 0 then {id} else {}) && SendsOf(u, id) == sent
    && forall other :: other in t.sends && other != id ==> u.sends[other] == t.sends[other]
  }

  /** A request goes out with one retry in hand; a resumed one goes out again, with none, if the refresh worked. */
  lemma FetchMeans(policy: Policy, t: Tab, e: Event)
    requires (e.StartRequest? || e.Resume?) && Enabled(t, e)
    ensures var u := Apply(policy, t, e);
            && OnlyRequests(t, u)
            && (e.StartRequest? ==> OneRequest(t, u, e.id, Fetching(true), SendsOf(t, e.id) + 1))
            && (e.Resume? && t.requests[e.id].ok ==> OneRequest(t, u, e.id, Fetching(false), SendsOf(t, e.id) + 1))
            && (e.Resume? && !t.requests[e.id].ok ==> OneRequest(t, u, e.id, Finished, SendsOf(t, e.id)))
  {
  }

  /**
   * A response ends its request unless it is the first 401 of a signed-in client.
   * That one waits for the refresh in flight, or else for a new one, which carries
   * the stored token.
   */
  lemma RespondMeans(policy: Policy, t: Tab, e: Event)
    requires e.Respond? && Enabled(t, e)
    ensures var u := Apply(policy, t, e);
            var refreshes := e.unauthorized && t.requests[e.id].retry && t.client.stored.Some?;
            && u.sends == t.sends && u.world == t.world
            && (!refreshes ==> OnlyRequests(t, u) && u.requests == t.requests[e.id := Finished])
            && (refreshes && t.client.inFlight.Some? ==>
                  OnlyRequests(t, u) && u.requests == t.requests[e.id := Awaiting(t.client.inFlight.value)])
            && (refreshes && t.client.inFlight.None? ==>
                  && u.requests == t.requests[e.id := Awaiting(e.newCall)]
                  && u.client == Client(t.client.stored, t.client.hasAccess, Some(e.newCall))
                  && u.calls == t.calls[e.newCall := Call(t.client.stored.value, None, false)]
                  && u.refreshed == t.refreshed + [t.client.stored.value.jti])
  {
  }

  /**
   * A delivered answer replaces the client's tokens, or clears them, and a lost one
   * leaves them; either way the refresh is over, and whoever waited for it is resumed.
   */
  lemma SettlingMeans(policy: Policy, t: Tab, e: Event)
    requires (e.Deliver? || e.Lose?) && Enabled(t, e)
    ensures var u, call := Apply(policy, t, e), t.calls[e.call];
            var ok := e.Deliver? && call.answer.value.Issued?;
            && u.world == t.world && u.sends == t.sends && u.refreshed == t.refreshed
            && u.client.inFlight.None?
            && (e.Lose? ==> u.client.stored == t.client.stored && u.client.hasAccess == t.client.hasAccess)
            && (ok ==> u.client.stored == Some(call.answer.value.token) && u.client.hasAccess)
            && (e.Deliver? && !ok ==> u.client.stored.None? && !u.client.hasAccess)
            && u.calls == (if e.Deliver? then t.calls - {e.call}
                           else t.calls[e.call := Call(call.token, call.answer, true)])
            && u.requests.Keys == t.requests.Keys
            && forall id :: id in t.requests ==>
                 u.requests[id] == if t.requests[id] == Awaiting(e.call) then Resuming(ok) else t.requests[id]
  {
  }

  /** The server answers a call as it answers a refresh of its token, and the client has not heard yet. */
  lemma ServerMeans(policy: Policy, t: Tab, e: Event)
    requires e.ServerHandles? && Enabled(t, e)
    ensures var u, token := Apply(policy, t, e), t.calls[e.call].token;
            var (world, answer) := Step(policy, t.world, Refresh(token.jti, e.newJti, e.available));
            && u.world == world && u.client == t.client && u.requests == t.requests && u.sends == t.sends
            && u.calls == t.calls[e.call := Call(token, Some(answer), t.calls[e.call].abandoned)]
            && u.session == (if answer.Issued? then t.session + {e.newJti} else t.session)
            && u.exchanged == (if answer.Issued? then t.exchanged + {token.jti} else t.exchanged)
            && u.replays == t.replays + (if answer.Replayed? then 1 else 0)
  {
    hide Step;
  }

  /** A token of the session that was live is revoked now. */
  ghost predicate JustRevoked(t: Tab, u: Tab, jti: nat) {
    && jti in t.session && jti in t.world.store && t.world.store[jti].revokedAt.None?
    && jti in u.world.store && u.world.store[jti].revokedAt.Some?
  }

  /** Signing out clears the tokens, and what happens elsewhere touches the server only. */
  lemma OthersMean(policy: Policy, t: Tab, e: Event)
    requires (e.SignOut? || e.Outside?) && Enabled(t, e)
    ensures var u := Apply(policy, t, e);
            && (e.SignOut? ==> u == t.(client := u.client) && u.client == Client(None, false, t.client.inFlight))
            && (e.Outside? ==> u == t.(world := Step(policy, t.world, e.request).0, cut := u.cut))
            && (e.Outside? ==> forall j :: (j in u.cut <==> j in t.cut || JustRevoked(t, u, j)))
  {
    hide Step;
  }

  ghost predicate FreshlyIssued(w: World, token: Token, user: nat) {
    && token.jti in w.store && w.store[token.jti].revokedAt.None?
    && token.jti in w.minted && w.minted[token.jti] == token && token.user == user
  }

  /** A tab right after a login, in any world. */
  ghost predicate JustLoggedIn(policy: Policy, t: Tab) {
    && RefreshTokens.Inv(policy, t.world)
    && t.client.stored.Some? && t.client.inFlight.None?
    && t.session == {t.client.stored.value.jti}
    && FreshlyIssued(t.world, t.client.stored.value, t.user)
    && t.calls == map[] && t.requests == map[] && t.sends == map[] && t.refreshed == []
    && t.exchanged == {} && t.cut == {} && t.replays == 0
  }

  function AfterEvents(policy: Policy, start: Tab, events: seq<Event>): Tab {
    if |events| == 0 then start
    else Apply(policy, AfterEvents(policy, start, events[..|events| - 1]), events[|events| - 1])
  }

  /** A run: every event possible when it happens. */
  ghost predicate Interleaving(policy: Policy, start: Tab, events: seq<Event>) {
    forall k :: 0 <= k < |events| ==> Enabled(AfterEvents(policy, start, events[..k]), events[k])
  }

  /** Responses are delivered. */
  ghost predicate NothingLost(events: seq<Event>) {
    forall k :: 0 <= k < |events| ==> !events[k].Lose?
  }

  /** Nobody signs out, and nobody outside revokes the session. */
  ghost predicate LeftAlone(policy: Policy, start: Tab, events: seq<Event>) {
    forall k :: 0 <= k < |events| ==> StaysIn(policy, AfterEvents(policy, start, events[..k]), events[k])
  }

  ghost predicate StaysIn(policy: Policy, t: Tab, e: Event) {
    && !e.SignOut?
    && (e.Outside? ==> LeavesSessionAlone(policy, t, e.request))
  }

  // ----- the invariant ---------------------------------------------------------------------------

  ghost predicate NoRepeats(s: seq<nat>) {
    forall i, j :: 0 <= i < j < |s| ==> s[i] != s[j]
  }

  /** The one token of the session that still counts: unrevoked on record, or past its expiry. */
  ghost predicate IsHead(t: Tab, token: Token) {
    && token.jti in t.session && token.jti in t.world.minted && t.world.minted[token.jti] == token
    && (Decodes(token, t.world.now) ==>
          token.jti in t.world.store && t.world.store[token.jti].revokedAt.None?)
    && (forall j :: j in t.session && j != token.jti ==> Spent(t.world, j))
  }

  /** No refresh in flight: the stored token is the head and was never sent. */
  ghost predicate Settled(t: Tab) {
    && t.calls == map[]
    && (t.client.stored.Some? ==>
          IsHead(t, t.client.stored.value) && t.client.stored.value.jti !in t.refreshed)
  }

  /** One refresh in flight: it carries the stored token; the head is that token or its successor. */
  ghost predicate Flying(t: Tab, call: nat) {
    && t.calls.Keys == {call} && t.client.stored.Some? && !t.calls[call].abandoned
    && t.calls[call].token == t.client.stored.value
    && match t.calls[call].answer
       case None => IsHead(t, t.client.stored.value)
       case Some(Issued(next)) => IsHead(t, next) && next.jti !in t.refreshed
       case Some(answer) => answer in {TokenExpired, Unavailable}
  }

  ghost predicate RequestsInStep(t: Tab) {
    && t.sends.Keys == t.requests.Keys
    && forall id :: id in t.requests ==>
         match t.requests[id]
         case Fetching(retry) => t.sends[id] == if retry then 1 else 2
         case Awaiting(call) => t.sends[id] == 1 && t.client.inFlight == Some(call)
         case Resuming(_) => t.sends[id] == 1
         case Finished => t.sends[id] <= 2
  }

  ghost predicate SessionSound(t: Tab) {
    && t.session <= t.world.minted.Keys
    && (forall j :: j in t.session ==> t.world.minted[j].user == t.user)
    && (forall j :: j in t.refreshed ==> j in t.session)
    && NoRepeats(t.refreshed)
    && t.replays == 0
  }

  ghost predicate TabInv(policy: Policy, t: Tab) {
    && RefreshTokens.Inv(policy, t.world)
    && SessionSound(t)
    && RequestsInStep(t)
    && match t.client.inFlight
       case None => Settled(t)
       case Some(call) => Flying(t, call)
  }

  // ----- every step keeps it ---------------------------------------------------------------------

  lemma RespondKeepsInv(policy: Policy, t: Tab, e: Event)
    requires e.Respond? && TabInv(policy, t) && Enabled(t, e)
    ensures TabInv(policy, Apply(policy, t, e))
  {
    hide RefreshTokens.Inv;
    hide Spent;
    var u := Apply(policy, t, e);
    if u.client.inFlight != t.client.inFlight {
      assert IsHead(u, u.client.stored.value);
      assert forall j :: j in u.refreshed ==> j in t.refreshed || j == u.client.stored.value.jti;
    }
  }

  lemma ServerKeepsInv(policy: Policy, t: Tab, e: Event)
    requires e.ServerHandles? && TabInv(policy, t) && Enabled(t, e)
    ensures TabInv(policy, Apply(policy, t, e))
  {
    var u := Apply(policy, t, e);
    var token := t.calls[e.call].token;
    var r := Refresh(token.jti, e.newJti, e.available);
    StepKeepsInv(policy, t.world, r);
    RefreshSucceedsExactlyWhen(policy, t.world, r);
    var answer := Step(policy, t.world, r).1;
    forall j | j in t.session && j != token.jti
      ensures Spent(u.world, j)
    {
      RevocationIsFinal(policy, t.world, r, j);
    }
    if answer.Issued? {
      assert e.newJti !in t.refreshed;
      assert IsHead(u, answer.token);
    }
  }

  lemma DeliverKeepsInv(policy: Policy, t: Tab, e: Event)
    requires e.Deliver? && TabInv(policy, t) && Enabled(t, e)
    ensures TabInv(policy, Apply(policy, t, e))
  {
    hide RefreshTokens.Inv;
    hide Spent;
    var u := Apply(policy, t, e);
    assert u.calls == map[];
    if t.calls[e.call].answer.value.Issued? {
      assert IsHead(u, u.client.stored.value);
    }
  }

  lemma OutsideKeepsHead(policy: Policy, t: Tab, r: Request, token: Token)
    requires RefreshTokens.Inv(policy, t.world) && SessionSound(t) && LeavesSessionAlone(policy, t, r)
    requires IsHead(t, token)
    ensures IsHead(Apply(policy, t, Outside(r)), token)
  {
    var u := Apply(policy, t, Outside(r));
    forall j | j in t.session
      ensures j != token.jti ==> Spent(u.world, j)
      ensures u.world.minted[j] == t.world.minted[j]
    {
      RevocationIsFinal(policy, t.world, r, j);
    }
  }

  lemma OutsideKeepsInv(policy: Policy, t: Tab, e: Event)
    requires e.Outside? && TabInv(policy, t) && Enabled(t, e) && LeavesSessionAlone(policy, t, e.request)
    ensures TabInv(policy, Apply(policy, t, e))
  {
    var r := e.request;
    var u := Apply(policy, t, e);
    StepKeepsInv(policy, t.world, r);
    forall j | j in t.session
      ensures j in u.world.minted && u.world.minted[j] == t.world.minted[j]
    {
      RevocationIsFinal(policy, t.world, r, j);
    }
    if t.client.inFlight.None? {
      if t.client.stored.Some? {
        OutsideKeepsHead(policy, t, r, t.client.stored.value);
      }
    } else {
      match t.calls[t.client.inFlight.value].answer {
        case None => OutsideKeepsHead(policy, t, r, t.client.stored.value);
        case Some(Issued(next)) => OutsideKeepsHead(policy, t, r, next);
        case Some(_) =>
      }
    }
  }

  lemma FetchKeepsInv(policy: Policy, t: Tab, e: Event)
    requires (e.StartRequest? || e.Resume?) && TabInv(policy, t) && Enabled(t, e)
    ensures TabInv(policy, Apply(policy, t, e))
  {
    hide RefreshTokens.Inv;
    hide Spent;
    hide Decodes;
    hide Step;
    hide LeavesSessionAlone;
    hide NoRepeats;
  }

  lemma EventKeepsInv(policy: Policy, t: Tab, e: Event)
    requires TabInv(policy, t) && Enabled(t, e) && !e.Lose? && StaysIn(policy, t, e)
    ensures TabInv(policy, Apply(policy, t, e))
  {
    hide TabInv;
    hide Apply;
    hide Enabled;
    match e {
      case Respond(_, _, _) => RespondKeepsInv(policy, t, e);
      case ServerHandles(_, _, _) => ServerKeepsInv(policy, t, e);
      case Deliver(_) => DeliverKeepsInv(policy, t, e);
      case Outside(_) => OutsideKeepsInv(policy, t, e);
      case StartRequest(_) => FetchKeepsInv(policy, t, e);
      case Resume(_) => FetchKeepsInv(policy, t, e);
    }
  }

  lemma {:induction false} EveryInterleavingKeepsInv(policy: Policy, start: Tab, events: seq<Event>)
    requires JustLoggedIn(policy, start) && Interleaving(policy, start, events) && NothingLost(events)
    requires LeftAlone(policy, start, events)
    ensures TabInv(policy, AfterEvents(policy, start, events))
  {
    if |events| > 0 {
      var n := |events| - 1;
      assert forall k :: 0 <= k < n ==> events[..n][..k] == events[..k];
      EveryInterleavingKeepsInv(policy, start, events[..n]);
      EventKeepsInv(policy, AfterEvents(policy, start, events[..n]), events[n]);
    }
  }

  // ----- what it means --------------------------------------------------------------------------------

  /**
   * In every interleaving of any number of requests after one login: at most one
   * refresh is in flight, no refresh-token value is sent twice, the server's
   * replay branch is never reached, every request goes out at most twice, and
   * with no refresh in flight the stored token is the session's only unrevoked one.
   */
  lemma OneRefreshAtATime(policy: Policy, start: Tab, events: seq<Event>)
    requires JustLoggedIn(policy, start) && Interleaving(policy, start, events) && NothingLost(events)
    requires LeftAlone(policy, start, events)
    ensures var t := AfterEvents(policy, start, events);
            && |t.calls| <= 1
            && NoRepeats(t.refreshed)
            && t.replays == 0
            && (forall id :: id in t.sends ==> t.sends[id] <= 2)
            && (t.calls == map[] && t.client.stored.Some? ==>
                  && var token := t.client.stored.value;
                     && (Decodes(token, t.world.now) ==>
                           token.jti in t.world.store && t.world.store[token.jti].revokedAt.None?)
                     && forall j :: j in t.session && j in t.world.store && t.world.store[j].revokedAt.None?
                          ==> j == token.jti)
  {
    EveryInterleavingKeepsInv(policy, start, events);
    var t := AfterEvents(policy, start, events);
    if t.client.inFlight.Some? {
      assert |t.calls.Keys| == 1;
      assert t.client.inFlight.value in t.calls;
    }
  }

  /**
   * The session ends on the client only because its token ran out or the account
   * became unavailable; nothing the client does makes the server reject it.
   */
  lemma SessionEndsOnlyByExpiryOrAccount(policy: Policy, start: Tab, events: seq<Event>, call: nat)
    requires JustLoggedIn(policy, start) && Interleaving(policy, start, events) && NothingLost(events)
    requires LeftAlone(policy, start, events)
    requires var t := AfterEvents(policy, start, events); call in t.calls && t.calls[call].answer.Some?
    ensures var answer := AfterEvents(policy, start, events).calls[call].answer.value;
            answer.Issued? || answer == TokenExpired || answer == Unavailable
  {
    EveryInterleavingKeepsInv(policy, start, events);
    var t := AfterEvents(policy, start, events);
    assert t.client.inFlight == Some(call);
  }
}
