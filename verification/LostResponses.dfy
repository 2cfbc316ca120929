/**
 * The client of web/lib/api.ts when refresh responses can get lost, the user can
 * sign out, and their sessions can be revoked from elsewhere. A rejected fetch
 * leaves the tokens as they were, and the server may have handled the call
 * already, may handle it later, or never.
 */
module LostResponses {
  import opened Options
  import opened RefreshTokens
  import opened SingleFlight

  // ----- the invariant of every interleaving, losses included -------------------------------

  ghost predicate SessionKnown(t: Tab) {
    && t.session <= t.world.minted.Keys
    && (forall j :: j in t.session ==> t.world.minted[j].user == t.user)
    && (forall j :: j in t.refreshed ==> j in t.session)
    && (t.client.stored.Some? ==> Known(t, t.client.stored.value))
  }

  ghost predicate Known(t: Tab, token: Token) {
    token.jti in t.session && token.jti in t.world.minted && t.world.minted[token.jti] == token
  }

  /** The refresh in flight is the one call not abandoned, and it carries the stored token. */
  ghost predicate OneCallCounts(t: Tab) {
    && (forall c :: c in t.calls && !t.calls[c].abandoned ==> t.client.inFlight == Some(c))
    && match t.client.inFlight
       case None => true
       case Some(c) =>
         && c in t.calls && !t.calls[c].abandoned
         && (t.client.stored.Some? ==> t.client.stored.value == t.calls[c].token)
         && (t.calls[c].answer.Some? && t.calls[c].answer.value.Issued? ==>
               Known(t, t.calls[c].answer.value.token) && t.calls[c].answer.value.token.jti !in t.refreshed)
  }

  predicate Traded(call: Call) {
    call.answer.Some? && call.answer.value.Issued?
  }

  ghost predicate CallsKnown(t: Tab) {
    forall c :: c in t.calls ==>
      && Known(t, t.calls[c].token) && t.calls[c].token.jti in t.refreshed
      && (Traded(t.calls[c]) ==> t.calls[c].token.jti in t.exchanged)
  }

  /** Traded, or revoked from outside. */
  predicate Dead(t: Tab, jti: nat) {
    jti in t.exchanged || jti in t.cut
  }

  /** Traded tokens were sent, and they and the ones cut from outside are spent for good. */
  ghost predicate ExchangesSpend(t: Tab) {
    && (forall j :: j in t.exchanged ==> j in t.refreshed && Spent(t.world, j))
    && (forall j :: j in t.cut ==> j in t.session && Spent(t.world, j))
  }

  /** Until the first replay nothing but a trade or the outside revokes a token of the session. */
  ghost predicate OnlyExchangesSpend(t: Tab) {
    t.replays == 0 ==>
      forall j :: j in t.session && j in t.world.store && t.world.store[j].revokedAt.Some? ==> Dead(t, j)
  }

  /** The token stored or on its way in the refresh in flight. */
  ghost predicate Current(t: Tab, jti: nat) {
    || (t.client.stored.Some? && t.client.stored.value.jti == jti)
    || (t.client.inFlight.Some? && t.client.inFlight.value in t.calls
        && t.calls[t.client.inFlight.value].token.jti == jti)
  }

  /** A current token that was traded: the call that did it is still around, undelivered. */
  ghost predicate TradeOnRecord(t: Tab) {
    forall j :: Current(t, j) && j in t.exchanged ==> TradedBy(t.calls, j)
  }

  /** A call with this token was traded. */
  ghost predicate TradedBy(calls: map<nat, Call>, jti: nat) {
    exists c :: c in calls && calls[c].token.jti == jti && Traded(calls[c])
  }

  /** The call was given up although the server traded its token, or the server found it too late. */
  predicate Harmful(call: Call) {
    call.abandoned && call.answer.Some? && (call.answer.value.Issued? || call.answer.value.Replayed?)
  }

  ghost predicate ReplaysLeaveATrace(t: Tab) {
    t.replays > 0 ==> t.cut != {} || exists c :: c in t.calls && Harmful(t.calls[c])
  }

  /** All but the server's own invariant and the request table. */
  ghost predicate CoreInv(t: Tab) {
    && SessionKnown(t)
    && OneCallCounts(t)
    && CallsKnown(t)
    && ExchangesSpend(t)
    && OnlyExchangesSpend(t)
    && TradeOnRecord(t)
    && ReplaysLeaveATrace(t)
  }

  ghost predicate LossyInv(policy: Policy, t: Tab) {
    RefreshTokens.Inv(policy, t.world) && RequestsInStep(t) && CoreInv(t)
  }

  // ----- every step keeps it -----------------------------------------------------------------

  lemma StepKeepsRequests(policy: Policy, t: Tab, e: Event)
    requires RequestsInStep(t) && OneCallCounts(t) && Enabled(t, e)
    ensures RequestsInStep(Apply(policy, t, e))
  {
    hide Step;
    hide LeavesSessionAlone;
    hide Known;
  }

  /** The server's side as it was. */
  ghost predicate SameServer(t: Tab, u: Tab) {
    && u.world == t.world && u.user == t.user && u.session == t.session
    && u.exchanged == t.exchanged && u.cut == t.cut && u.replays == t.replays
  }

  /** A new call carries the stored token. */
  ghost predicate Began(t: Tab, u: Tab, call: nat) {
    && t.client.stored.Some? && t.client.inFlight.None? && call !in t.calls
    && u.client == t.client.(inFlight := Some(call))
    && u.calls == t.calls[call := Call(t.client.stored.value, None, false)]
    && u.refreshed == t.refreshed + [t.client.stored.value.jti]
  }

  ghost predicate Unmoved(t: Tab, u: Tab) {
    u.client == t.client && u.calls == t.calls && u.refreshed == t.refreshed
  }

  lemma LocalEffect(policy: Policy, t: Tab, e: Event)
    requires (e.StartRequest? || e.Resume? || e.Respond?) && Enabled(t, e)
    ensures var u := Apply(policy, t, e);
            SameServer(t, u) && (Unmoved(t, u) || (e.Respond? && Began(t, u, e.newCall)))
  {
  }

  lemma TradeStaysOnRecord(t: Tab, u: Tab)
    requires TradeOnRecord(t)
    requires u.client == t.client && u.calls == t.calls && u.exchanged == t.exchanged
    ensures TradeOnRecord(u)
  {
    hide Traded;
    assert forall j :: Current(u, j) <==> Current(t, j);
  }

  lemma UnmovedKeepsCore(t: Tab, u: Tab)
    requires CoreInv(t) && SameServer(t, u) && Unmoved(t, u)
    ensures CoreInv(u)
  {
    TradeStaysOnRecord(t, u);
    hide TradeOnRecord;
    hide Spent;
  }

  lemma BeganKeepsCalls(t: Tab, u: Tab, call: nat)
    requires CoreInv(t) && SameServer(t, u) && Began(t, u, call)
    ensures SessionKnown(u) && OneCallCounts(u) && CallsKnown(u)
  {
    hide ExchangesSpend;
    hide OnlyExchangesSpend;
    hide TradeOnRecord;
    hide ReplaysLeaveATrace;
    assert forall j :: j in u.refreshed <==> j in t.refreshed || j == t.client.stored.value.jti;
    assert forall c :: c in t.calls ==> u.calls[c] == t.calls[c];
  }

  lemma BeganKeepsCore(t: Tab, u: Tab, call: nat)
    requires CoreInv(t) && SameServer(t, u) && Began(t, u, call)
    ensures CoreInv(u)
  {
    BeganKeepsCalls(t, u, call);
    hide SessionKnown;
    hide OneCallCounts;
    hide CallsKnown;
    hide Spent;
    assert forall j :: j in t.refreshed ==> j in u.refreshed;
    assert forall c :: c in t.calls ==> c in u.calls && u.calls[c] == t.calls[c];
  }

  lemma LocalKeepsCore(policy: Policy, t: Tab, e: Event)
    requires e.StartRequest? || e.Resume? || e.Respond?
    requires CoreInv(t) && Enabled(t, e)
    ensures CoreInv(Apply(policy, t, e))
  {
    LocalEffect(policy, t, e);
    hide *;
    var u := Apply(policy, t, e);
    if Unmoved(t, u) {
      UnmovedKeepsCore(t, u);
    } else {
      BeganKeepsCore(t, u, e.newCall);
    }
  }

  /** What a delivered answer leaves of the client and its calls. */
  ghost predicate Delivered(t: Tab, u: Tab, call: nat) {
    && call in t.calls && t.calls[call].answer.Some? && !t.calls[call].abandoned
    && u.client == Settle(t.client, t.calls[call].answer.value)
    && u.calls == t.calls - {call} && u.refreshed == t.refreshed
  }

  lemma DeliveredKeepsCore(t: Tab, u: Tab, call: nat)
    requires CoreInv(t) && SameServer(t, u) && Delivered(t, u, call)
    ensures CoreInv(u)
  {
    hide Spent;
    assert forall c :: c in u.calls ==> c in t.calls && c != call && u.calls[c] == t.calls[c];
    if c :| c in t.calls && Harmful(t.calls[c]) {
      assert c in u.calls;
    }
  }

  lemma DeliverKeepsCore(policy: Policy, t: Tab, e: Event)
    requires e.Deliver? && CoreInv(t) && Enabled(t, e)
    ensures CoreInv(Apply(policy, t, e))
  {
    var u := Apply(policy, t, e);
    assert SameServer(t, u) && Delivered(t, u, e.call);
    hide *;
    DeliveredKeepsCore(t, u, e.call);
  }

  ghost predicate GivenUp(t: Tab, u: Tab, call: nat) {
    && call in t.calls && !t.calls[call].abandoned
    && u.client == t.client.(inFlight := None)
    && u.calls == t.calls[call := t.calls[call].(abandoned := true)] && u.refreshed == t.refreshed
  }

  lemma GivenUpKeepsCalls(t: Tab, u: Tab, call: nat)
    requires CoreInv(t) && SameServer(t, u) && GivenUp(t, u, call)
    ensures SessionKnown(u) && OneCallCounts(u) && CallsKnown(u)
  {
    hide ExchangesSpend;
    hide OnlyExchangesSpend;
    hide TradeOnRecord;
    hide ReplaysLeaveATrace;
    assert forall c :: c in u.calls ==> c in t.calls && u.calls[c].token == t.calls[c].token;
  }

  lemma GivenUpKeepsCore(t: Tab, u: Tab, call: nat)
    requires CoreInv(t) && SameServer(t, u) && GivenUp(t, u, call)
    ensures CoreInv(u)
  {
    GivenUpKeepsCalls(t, u, call);
    hide SessionKnown;
    hide OneCallCounts;
    hide CallsKnown;
    hide Spent;
    forall j | Current(u, j) && j in u.exchanged
      ensures TradedBy(u.calls, j)
    {
      assert Current(t, j);
      var c :| c in t.calls && t.calls[c].token.jti == j && Traded(t.calls[c]);
      assert u.calls[c].token.jti == j && Traded(u.calls[c]);
    }
    if c :| c in t.calls && Harmful(t.calls[c]) {
      assert Harmful(u.calls[c]);
    }
  }

  lemma LoseKeepsCore(policy: Policy, t: Tab, e: Event)
    requires e.Lose? && CoreInv(t) && Enabled(t, e)
    ensures CoreInv(Apply(policy, t, e))
  {
    var u := Apply(policy, t, e);
    assert SameServer(t, u) && GivenUp(t, u, e.call);
    hide *;
    GivenUpKeepsCore(t, u, e.call);
  }

  /** Only the world moved, and what it revoked of the session is on the list. */
  ghost predicate WorldMoved(t: Tab, u: Tab) {
    && u == t.(world := u.world, cut := t.cut + NewlyRevoked(t, u.world))
    && forall j :: j in t.session && j in t.world.minted ==>
         && j in u.world.minted && u.world.minted[j] == t.world.minted[j]
         && (Spent(t.world, j) ==> Spent(u.world, j))
         && (j in u.world.store ==> j in t.world.store)
  }

  lemma WorldMovedKeepsSpending(t: Tab, u: Tab)
    requires SessionKnown(t) && ExchangesSpend(t) && OnlyExchangesSpend(t) && WorldMoved(t, u)
    ensures ExchangesSpend(u) && OnlyExchangesSpend(u)
  {
    assert forall j :: j in t.session ==> j in t.world.minted;
    assert forall j :: Dead(t, j) ==> Dead(u, j);
    assert forall j :: (j in u.session && j in u.world.store && u.world.store[j].revokedAt.Some?
                        && !Dead(t, j) && t.replays == 0) ==> j in NewlyRevoked(t, u.world);
  }

  lemma WorldMovedKeepsCore(t: Tab, u: Tab)
    requires CoreInv(t) && WorldMoved(t, u)
    ensures CoreInv(u)
  {
    WorldMovedKeepsSpending(t, u);
    TradeStaysOnRecord(t, u);
    hide ExchangesSpend;
    hide OnlyExchangesSpend;
    hide TradeOnRecord;
    hide Spent;
    hide Traded;
    assert forall j :: j in t.session ==> j in t.world.minted;
  }

  lemma OutsideKeepsCore(policy: Policy, t: Tab, e: Event)
    requires RefreshTokens.Inv(policy, t.world)
    requires e.Outside? && CoreInv(t) && Enabled(t, e)
    ensures RefreshTokens.Inv(policy, Apply(policy, t, e).world) && CoreInv(Apply(policy, t, e))
  {
    var r := e.request;
    var u := Apply(policy, t, e);
    StepKeepsInv(policy, t.world, r);
    hide RefreshTokens.Inv;
    hide Step;
    hide Spent;
    forall j | j in t.session && j in t.world.minted
      ensures j in u.world.minted && u.world.minted[j] == t.world.minted[j]
      ensures Spent(t.world, j) ==> Spent(u.world, j)
      ensures j in u.world.store ==> j in t.world.store
    {
      RevocationIsFinal(policy, t.world, r, j);
      NothingReappears(policy, t.world, r, j);
    }
    assert WorldMoved(t, u);
    hide *;
    WorldMovedKeepsCore(t, u);
  }

  lemma NothingReappears(policy: Policy, w: World, r: Request, jti: nat)
    requires RefreshTokens.Inv(policy, w) && RefreshTokens.Fresh(w, r) && jti in w.minted
    ensures jti in Step(policy, w, r).0.store ==> jti in w.store
  {
  }

  /** All of the user's sessions are revoked: a role change, a removal, or a replay of some session of theirs. */
  predicate RevokesUser(policy: Policy, w: World, r: Request, user: nat) {
    || r == RevokeUser(user)
    || (r.Refresh? && r.jti in w.minted && w.minted[r.jti].user == user && Step(policy, w, r).1.Replayed?)
  }

  /** What the outside revokes of a session: every live token of it, or none. */
  lemma OutsideCutsAllOrNothing(policy: Policy, t: Tab, r: Request)
    requires LossyInv(policy, t) && UsesOtherTokens(t, r)
    ensures NewlyRevoked(t, Step(policy, t.world, r).0)
         == if RevokesUser(policy, t.world, r, t.user)
            then set j | j in t.session && j in t.world.store && t.world.store[j].revokedAt.None?
            else {}
  {
    if r.Refresh? {
      RefreshSucceedsExactlyWhen(policy, t.world, r);
    }
    hide DoPurge;
  }

  /** What one refresh of `token` does to the world. */
  ghost predicate Refreshed(w: World, v: World, token: Token, answer: Answer) {
    && (answer.Issued? ==>
          && !Spent(w, token.jti) && Spent(v, token.jti)
          && answer.token.jti !in w.minted && answer.token.jti in v.minted
          && v.minted[answer.token.jti] == answer.token && answer.token.user == token.user
          && answer.token.jti in v.store && v.store[answer.token.jti].revokedAt.None?)
    && (answer.Replayed? <==>
          Decodes(token, w.now) && token.jti in w.store && w.store[token.jti].revokedAt.Some?)
    && (!answer.Issued? && !answer.Replayed? ==> v == w)
    && (forall j :: j in w.minted ==>
          && j in v.minted && v.minted[j] == w.minted[j]
          && (Spent(w, j) ==> Spent(v, j))
          && (!answer.Replayed? && j in v.store && v.store[j].revokedAt.Some? && j != token.jti ==>
                j in w.store && w.store[j].revokedAt.Some?))
  }

  lemma RefreshEffect(policy: Policy, w: World, r: Request)
    requires RefreshTokens.Inv(policy, w) && RefreshTokens.Fresh(w, r) && r.Refresh?
    ensures RefreshTokens.Inv(policy, Step(policy, w, r).0)
    ensures Refreshed(w, Step(policy, w, r).0, w.minted[r.jti], Step(policy, w, r).1)
    ensures Step(policy, w, r).1.Issued? ==> Step(policy, w, r).1.token.jti == r.newJti
  {
    StepKeepsInv(policy, w, r);
    RefreshSucceedsExactlyWhen(policy, w, r);
    forall j | j in w.minted
      ensures Spent(w, j) ==> Spent(Step(policy, w, r).0, j)
      ensures j in Step(policy, w, r).0.minted && Step(policy, w, r).0.minted[j] == w.minted[j]
    {
      RevocationIsFinal(policy, w, r, j);
    }
  }

  /** What the server does with a call of this tab. */
  ghost predicate Handled(t: Tab, u: Tab, call: nat, answer: Answer) {
    && call in t.calls && t.calls[call].answer.None?
    && u.client == t.client && u.refreshed == t.refreshed && u.user == t.user && u.cut == t.cut
    && u.calls == t.calls[call := t.calls[call].(answer := Some(answer))]
    && var token := t.calls[call].token;
       && u.session == (if answer.Issued? then t.session + {answer.token.jti} else t.session)
       && u.exchanged == (if answer.Issued? then t.exchanged + {token.jti} else t.exchanged)
       && u.replays == (if answer.Replayed? then t.replays + 1 else t.replays)
       && Refreshed(t.world, u.world, token, answer)
  }

  lemma ServerEffect(policy: Policy, t: Tab, e: Event)
    requires RefreshTokens.Inv(policy, t.world)
    requires e.ServerHandles? && CoreInv(t) && Enabled(t, e)
    ensures RefreshTokens.Inv(policy, Apply(policy, t, e).world)
    ensures Apply(policy, t, e).calls[e.call].answer.Some?
    ensures Handled(t, Apply(policy, t, e), e.call, Apply(policy, t, e).calls[e.call].answer.value)
  {
    var token := t.calls[e.call].token;
    var r := Refresh(token.jti, e.newJti, e.available);
    assert Known(t, token);
    RefreshEffect(policy, t.world, r);
    hide CoreInv;
    hide Refreshed;
    hide Step;
    hide RefreshTokens.Inv;
  }

  lemma HandledKeepsSession(t: Tab, u: Tab, call: nat, answer: Answer)
    requires SessionKnown(t) && CallsKnown(t) && Handled(t, u, call, answer)
    ensures SessionKnown(u)
  {
    hide Spent;
    hide Decodes;
  }

  lemma HandledKeepsCallsKnown(t: Tab, u: Tab, call: nat, answer: Answer)
    requires SessionKnown(t) && CallsKnown(t) && Handled(t, u, call, answer)
    ensures CallsKnown(u)
  {
    hide Spent;
    hide Decodes;
    assert forall c :: c in u.calls ==> c in t.calls && u.calls[c].token == t.calls[c].token;
  }

  lemma HandledKeepsCalls(t: Tab, u: Tab, call: nat, answer: Answer)
    requires SessionKnown(t) && OneCallCounts(t) && CallsKnown(t) && Handled(t, u, call, answer)
    ensures SessionKnown(u) && OneCallCounts(u) && CallsKnown(u)
  {
    HandledKeepsSession(t, u, call, answer);
    HandledKeepsCallsKnown(t, u, call, answer);
    HandledKeepsOneCall(t, u, call, answer);
    hide *;
  }

  lemma HandledKeepsOneCall(t: Tab, u: Tab, call: nat, answer: Answer)
    requires SessionKnown(t) && OneCallCounts(t) && Handled(t, u, call, answer)
    ensures OneCallCounts(u)
  {
    hide Spent;
    hide Decodes;
    hide Traded;
    assert forall c :: c in u.calls ==> c in t.calls && u.calls[c].token == t.calls[c].token
                                        && u.calls[c].abandoned == t.calls[c].abandoned;
    assert forall c :: c in u.calls && c != call ==> u.calls[c] == t.calls[c];
    assert forall j :: j in t.refreshed ==> j in t.world.minted;
  }

  lemma HandledKeepsSpending(t: Tab, u: Tab, call: nat, answer: Answer)
    requires CoreInv(t) && Handled(t, u, call, answer)
    ensures ExchangesSpend(u) && OnlyExchangesSpend(u)
  {
    hide OneCallCounts;
    hide TradeOnRecord;
    hide ReplaysLeaveATrace;
    hide Decodes;
  }

  lemma HandledKeepsTrade(t: Tab, u: Tab, call: nat, answer: Answer)
    requires TradeOnRecord(t) && Handled(t, u, call, answer)
    ensures TradeOnRecord(u)
  {
    hide Spent;
    forall j | Current(u, j) && j in u.exchanged
      ensures TradedBy(u.calls, j)
    {
      if j in t.exchanged {
        assert Current(t, j);
        var c :| c in t.calls && t.calls[c].token.jti == j && Traded(t.calls[c]);
        assert u.calls[c] == t.calls[c];
      } else {
        assert Traded(u.calls[call]);
      }
    }
  }

  /** The first replay has an abandoned call behind it: the one replayed, or the one that traded its token. */
  lemma HandledLeavesATrace(t: Tab, u: Tab, call: nat, answer: Answer)
    requires CoreInv(t) && Handled(t, u, call, answer)
    ensures ReplaysLeaveATrace(u)
  {
    hide Spent;
    if c :| c in t.calls && Harmful(t.calls[c]) {
      assert Harmful(u.calls[c]);
    }
    if t.replays == 0 && u.replays > 0 && t.cut == {} {
      if t.calls[call].abandoned {
        assert Harmful(u.calls[call]);
      } else {
        var j := t.calls[call].token.jti;
        assert Current(t, j) && j in t.exchanged;
        var c :| c in t.calls && t.calls[c].token.jti == j && Traded(t.calls[c]);
        assert c != call && Harmful(u.calls[c]);
      }
    }
  }

  lemma ServerKeepsCore(policy: Policy, t: Tab, e: Event)
    requires RefreshTokens.Inv(policy, t.world)
    requires e.ServerHandles? && CoreInv(t) && Enabled(t, e)
    ensures RefreshTokens.Inv(policy, Apply(policy, t, e).world) && CoreInv(Apply(policy, t, e))
  {
    ServerEffect(policy, t, e);
    var u := Apply(policy, t, e);
    var answer := u.calls[e.call].answer.value;
    HandledKeepsCalls(t, u, e.call, answer);
    HandledKeepsSpending(t, u, e.call, answer);
    TradeIsOnRecord(t);
    HandledKeepsTrade(t, u, e.call, answer);
    HandledLeavesATrace(t, u, e.call, answer);
    CoreFromParts(u);
    hide *;
  }

  lemma TradeIsOnRecord(t: Tab)
    requires CoreInv(t)
    ensures TradeOnRecord(t)
  {
  }

  lemma CoreFromParts(t: Tab)
    requires SessionKnown(t) && OneCallCounts(t) && CallsKnown(t) && ExchangesSpend(t)
    requires OnlyExchangesSpend(t) && TradeOnRecord(t) && ReplaysLeaveATrace(t)
    ensures CoreInv(t)
  {
    hide SessionKnown;
    hide OneCallCounts;
    hide CallsKnown;
    hide ExchangesSpend;
    hide OnlyExchangesSpend;
    hide TradeOnRecord;
    hide ReplaysLeaveATrace;
  }

  lemma EventKeepsCore(policy: Policy, t: Tab, e: Event)
    requires RefreshTokens.Inv(policy, t.world) && CoreInv(t) && Enabled(t, e)
    ensures CoreInv(Apply(policy, t, e))
    ensures RefreshTokens.Inv(policy, Apply(policy, t, e).world)
  {
    OnlyTwoMoveTheWorld(policy, t, e);
    hide *;
    match e {
      case ServerHandles(_, _, _) => ServerKeepsCore(policy, t, e);
      case Deliver(_) => DeliverKeepsCore(policy, t, e);
      case Lose(_) => LoseKeepsCore(policy, t, e);
      case Outside(_) => OutsideKeepsCore(policy, t, e);
      case SignOut => SignOutKeepsCore(policy, t, e);
      case _ => LocalKeepsCore(policy, t, e);
    }
  }

  lemma SignOutKeepsCore(policy: Policy, t: Tab, e: Event)
    requires e.SignOut? && CoreInv(t)
    ensures CoreInv(Apply(policy, t, e))
  {
    hide Spent;
    var u := Apply(policy, t, e);
    assert forall j :: Current(u, j) ==> Current(t, j);
  }

  lemma OnlyTwoMoveTheWorld(policy: Policy, t: Tab, e: Event)
    ensures !e.ServerHandles? && !e.Outside? ==> Apply(policy, t, e).world == t.world
  {
  }

  lemma CallsAreCounted(t: Tab)
    requires CoreInv(t)
    ensures OneCallCounts(t)
  {
  }

  lemma EventKeepsLossyInv(policy: Policy, t: Tab, e: Event)
    requires LossyInv(policy, t) && Enabled(t, e)
    ensures LossyInv(policy, Apply(policy, t, e))
  {
    hide Apply;
    hide Enabled;
    hide CoreInv;
    hide RequestsInStep;
    hide RefreshTokens.Inv;
    CallsAreCounted(t);
    EventKeepsCore(policy, t, e);
    StepKeepsRequests(policy, t, e);
  }

  lemma LastEvent(policy: Policy, start: Tab, events: seq<Event>)
    requires |events| > 0 && Interleaving(policy, start, events)
    ensures var n := |events| - 1;
            && Interleaving(policy, start, events[..n])
            && Enabled(AfterEvents(policy, start, events[..n]), events[n])
            && AfterEvents(policy, start, events) == Apply(policy, AfterEvents(policy, start, events[..n]), events[n])
  {
    hide Apply;
    hide Enabled;
    var n := |events| - 1;
    assert forall k :: 0 <= k < n ==> events[..n][..k] == events[..k];
  }

  lemma StartsWithInv(policy: Policy, start: Tab)
    requires JustLoggedIn(policy, start)
    ensures LossyInv(policy, start)
  {
  }

  lemma {:induction false} EveryLossyRunKeepsInv(policy: Policy, start: Tab, events: seq<Event>)
    requires JustLoggedIn(policy, start) && Interleaving(policy, start, events)
    ensures LossyInv(policy, AfterEvents(policy, start, events))
  {
    if |events| == 0 {
      StartsWithInv(policy, start);
    } else {
      var n := |events| - 1;
      LastEvent(policy, start, events);
      hide *;
      EveryLossyRunKeepsInv(policy, start, events[..n]);
      EventKeepsLossyInv(policy, AfterEvents(policy, start, events[..n]), events[n]);
    }
  }

  // ----- when the replay branch is reached ------------------------------------------------------

  /**
   * About to be handled: a call whose token another call of this tab has already
   * traded, or that was revoked from outside, while the token decodes and its
   * record is still kept.
   */
  ghost predicate PresentsDead(t: Tab, e: Event) {
    && e.ServerHandles? && e.call in t.calls
    && var token := t.calls[e.call].token;
       Dead(t, token.jti) && Decodes(token, t.world.now) && token.jti in t.world.store
  }

  ghost predicate NeverPresentsDead(policy: Policy, start: Tab, events: seq<Event>) {
    forall k :: 0 <= k < |events| ==> !PresentsDead(AfterEvents(policy, start, events[..k]), events[k])
  }

  lemma FirstReplay(policy: Policy, t: Tab, e: Event)
    requires LossyInv(policy, t) && Enabled(t, e)
    ensures Apply(policy, t, e).replays >= t.replays
    ensures PresentsDead(t, e) ==> Apply(policy, t, e).replays > t.replays
    ensures t.replays == 0 && Apply(policy, t, e).replays > 0 ==> PresentsDead(t, e)
  {
    if e.ServerHandles? {
      ServerEffect(policy, t, e);
      assert Known(t, t.calls[e.call].token);
      hide RefreshTokens.Inv;
      hide Apply;
      hide Decodes;
    }
  }

  /**
   * Over every interleaving, with losses, sign-outs and revocations from outside,
   * the server's replay branch stays unreached exactly when no call is handled
   * after another traded its token or the outside revoked it.
   */
  lemma {:induction false} ReplayReachedExactlyWhen(policy: Policy, start: Tab, events: seq<Event>)
    requires JustLoggedIn(policy, start) && Interleaving(policy, start, events)
    ensures AfterEvents(policy, start, events).replays == 0 <==> NeverPresentsDead(policy, start, events)
  {
    if |events| != 0 {
      var n := |events| - 1;
      LastEvent(policy, start, events);
      EveryLossyRunKeepsInv(policy, start, events[..n]);
      SplitPresents(policy, start, events);
      hide *;
      ReplayReachedExactlyWhen(policy, start, events[..n]);
      FirstReplay(policy, AfterEvents(policy, start, events[..n]), events[n]);
    }
  }

  lemma SplitPresents(policy: Policy, start: Tab, events: seq<Event>)
    requires |events| > 0
    ensures var n := |events| - 1;
            NeverPresentsDead(policy, start, events)
            <==> NeverPresentsDead(policy, start, events[..n])
                 && !PresentsDead(AfterEvents(policy, start, events[..n]), events[n])
  {
    hide PresentsDead;
    hide AfterEvents;
    var n := |events| - 1;
    assert forall k :: 0 <= k < n ==> events[..n][..k] == events[..k] && events[..n][k] == events[k];
  }

  /**
   * In terms of what went wrong before: without a revocation from outside, and
   * without an abandoned call that the server traded or came to only after a later
   * call had, there is no replay.
   */
  lemma ReplaysHaveACause(policy: Policy, start: Tab, events: seq<Event>)
    requires JustLoggedIn(policy, start) && Interleaving(policy, start, events)
    ensures var t := AfterEvents(policy, start, events);
            && (t.replays > 0 ==> t.cut != {} || exists c :: c in t.calls && Harmful(t.calls[c]))
            && (forall c, d :: c in t.calls && d in t.calls && !t.calls[c].abandoned && !t.calls[d].abandoned ==>
                  c == d)
            && (forall id :: id in t.sends ==> t.sends[id] <= 2)
  {
    EveryLossyRunKeepsInv(policy, start, events);
  }

  // ----- losing a response that carried a new token ------------------------------------------------

  /** The stored token was traded and the client will not hear of it, or it was revoked from outside. */
  ghost predicate Stranded(t: Tab) {
    && t.client.stored.Some? && Dead(t, t.client.stored.value.jti)
    && (t.client.inFlight.Some? && t.client.inFlight.value in t.calls ==> !Traded(t.calls[t.client.inFlight.value]))
  }

  /** Giving up a call that the server has traded strands the tab. */
  lemma LosingTheTradeStrands(policy: Policy, t: Tab, call: nat)
    requires LossyInv(policy, t) && Enabled(t, Lose(call)) && Traded(t.calls[call])
    ensures StuckOn(Apply(policy, t, Lose(call)), t.calls[call].token)
    ensures t.client.stored.Some? ==> Stranded(Apply(policy, t, Lose(call)))
  {
    hide RefreshTokens.Inv;
    hide Spent;
    hide TradeOnRecord;
  }

  /** So does a given-up call that the server trades only later, while its token is still the stored one. */
  lemma LateTradeStrands(policy: Policy, t: Tab, e: Event)
    requires LossyInv(policy, t) && Enabled(t, e) && e.ServerHandles?
    requires t.calls[e.call].abandoned && Traded(Apply(policy, t, e).calls[e.call])
    requires t.client.stored == Some(t.calls[e.call].token)
    ensures Stranded(Apply(policy, t, e))
  {
    ServerEffect(policy, t, e);
    hide RefreshTokens.Inv;
    hide Apply;
    hide Decodes;
  }

  /** So does a revocation from outside that finds the stored token live and untraded. */
  lemma RevocationStrands(policy: Policy, t: Tab, r: Request)
    requires LossyInv(policy, t) && UsesOtherTokens(t, r) && RevokesUser(policy, t.world, r, t.user)
    requires t.client.stored.Some?
    requires var j := t.client.stored.value.jti; j in t.world.store && t.world.store[j].revokedAt.None?
    ensures Stranded(Apply(policy, t, Outside(r)))
  {
    OutsideCutsAllOrNothing(policy, t, r);
    hide RefreshTokens.Inv;
    hide Step;
  }

  /** A stranded tab's next refresh is a replay: it ends every session of the user. */
  lemma StrandedRefreshIsReplayed(policy: Policy, t: Tab, e: Event)
    requires LossyInv(policy, t) && Stranded(t) && Enabled(t, e)
    requires e.ServerHandles? && t.client.inFlight == Some(e.call)
    requires Decodes(t.client.stored.value, t.world.now) && t.client.stored.value.jti in t.world.store
    ensures var u := Apply(policy, t, e);
            && u.calls[e.call].answer == Some(Replayed) && u.replays == t.replays + 1
            && forall j :: j in u.world.store && u.world.store[j].user == t.user ==> u.world.store[j].revokedAt.Some?
  {
    var token := t.calls[e.call].token;
    ServerEffect(policy, t, e);
    ReplayCutsTheFamily(policy, t.world, Refresh(token.jti, e.newJti, e.available));
  }

  /** Signed out, or stranded on that very token, with nothing better under way. */
  ghost predicate StuckOn(t: Tab, token: Token) {
    && Dead(t, token.jti)
    && (t.client.stored.None? || t.client.stored.value == token)
    && (t.client.inFlight.Some? && t.client.inFlight.value in t.calls ==>
          && t.calls[t.client.inFlight.value].token == token
          && !Traded(t.calls[t.client.inFlight.value]))
  }

  lemma HandledKeepsStuck(t: Tab, u: Tab, call: nat, answer: Answer, token: Token)
    requires CallsKnown(t) && ExchangesSpend(t) && Handled(t, u, call, answer) && StuckOn(t, token)
    ensures StuckOn(u, token)
  {
    hide Decodes;
  }

  lemma StuckStaysStuck(policy: Policy, t: Tab, e: Event, token: Token)
    requires LossyInv(policy, t) && Enabled(t, e) && StuckOn(t, token)
    ensures StuckOn(Apply(policy, t, e), token)
  {
    hide RefreshTokens.Inv;
    hide Step;
    hide Spent;
    hide Known;
    if e.ServerHandles? {
      hide Apply;
      ServerEffect(policy, t, e);
      var u := Apply(policy, t, e);
      HandledKeepsStuck(t, u, e.call, u.calls[e.call].answer.value, token);
    }
  }

  lemma StrandedIsStuck(t: Tab)
    requires OneCallCounts(t) && Stranded(t)
    ensures StuckOn(t, t.client.stored.value)
  {
  }

  lemma CallsCountInRuns(policy: Policy, start: Tab, events: seq<Event>)
    requires JustLoggedIn(policy, start) && Interleaving(policy, start, events)
    ensures OneCallCounts(AfterEvents(policy, start, events))
  {
    hide AfterEvents;
    hide Interleaving;
    hide JustLoggedIn;
    hide CoreInv;
    hide RequestsInStep;
    hide RefreshTokens.Inv;
    EveryLossyRunKeepsInv(policy, start, events);
    CallsAreCounted(AfterEvents(policy, start, events));
  }

  /** Over any continuation a stranded tab never gets a new token: it is signed out or still stranded. */
  lemma {:induction false} StrandedForGood(policy: Policy, start: Tab, events: seq<Event>, n: nat)
    requires JustLoggedIn(policy, start) && Interleaving(policy, start, events) && n <= |events|
    requires Stranded(AfterEvents(policy, start, events[..n]))
    ensures StuckOn(AfterEvents(policy, start, events), AfterEvents(policy, start, events[..n]).client.stored.value)
  {
    var token := AfterEvents(policy, start, events[..n]).client.stored.value;
    hide *;
    if n == |events| {
      assert events[..n] == events;
      CallsCountInRuns(policy, start, events);
      StrandedIsStuck(AfterEvents(policy, start, events));
    } else {
      var m := |events| - 1;
      LastEvent(policy, start, events);
      assert events[..m][..n] == events[..n];
      StrandedForGood(policy, start, events[..m], n);
      EveryLossyRunKeepsInv(policy, start, events[..m]);
      StuckStaysStuck(policy, AfterEvents(policy, start, events[..m]), events[m], token);
    }
  }

  // ----- signing out -----------------------------------------------------------------------------------

  /**
   * A signed-out client has tokens again exactly when the refresh that was in
   * flight is answered with new ones: the response is stored after the sign-out.
   */
  lemma SignOutUndoneExactlyWhen(policy: Policy, t: Tab, e: Event)
    requires LossyInv(policy, t) && Enabled(t, e) && t.client.stored.None?
    ensures Apply(policy, t, e).client.stored.Some?
       <==> e.Deliver? && t.client.inFlight == Some(e.call) && Traded(t.calls[e.call])
    ensures Apply(policy, t, e).client.stored.None? ==>
              Apply(policy, t, e).client.inFlight in {None, t.client.inFlight}
  {
    hide RefreshTokens.Inv;
    hide Step;
  }

  ghost predicate SignedOut(t: Tab, flight: Option<nat>) {
    t.client.stored.None? && t.client.inFlight in {None, flight}
  }

  lemma SignOutLastsAStep(policy: Policy, t: Tab, e: Event, flight: Option<nat>)
    requires LossyInv(policy, t) && Enabled(t, e) && SignedOut(t, flight)
    requires e.Deliver? ==> flight != Some(e.call)
    ensures SignedOut(Apply(policy, t, e), flight)
  {
    hide LossyInv;
    hide Apply;
    hide Enabled;
    SignOutUndoneExactlyWhen(policy, t, e);
  }

  /** So with none in flight, or none delivered, it stays signed out whatever happens. */
  lemma {:induction false} SignOutLasts(policy: Policy, start: Tab, events: seq<Event>, n: nat, flight: Option<nat>)
    requires JustLoggedIn(policy, start) && Interleaving(policy, start, events) && n <= |events|
    requires SignedOut(AfterEvents(policy, start, events[..n]), flight)
    requires forall k :: n <= k < |events| && events[k].Deliver? ==> flight != Some(events[k].call)
    ensures SignedOut(AfterEvents(policy, start, events), flight)
  {
    hide *;
    if n == |events| {
      assert events[..n] == events;
    } else {
      var m := |events| - 1;
      LastEvent(policy, start, events);
      assert events[..m][..n] == events[..n];
      SignOutLasts(policy, start, events[..m], n, flight);
      EveryLossyRunKeepsInv(policy, start, events[..m]);
      SignOutLastsAStep(policy, AfterEvents(policy, start, events[..m]), events[m], flight);
    }
  }

  // ----- the runs that show it ------------------------------------------------------------------------

  function FirstToken(policy: Policy): Token {
    Mint(policy, 0, 0, 0)
  }

  function LoggedInTab(policy: Policy): Tab {
    Tab(Client(Some(FirstToken(policy)), true, None), map[], map[], map[],
        Step(policy, START, Issue(0, 0, Password)).0, 0, {0}, [], {}, {}, 0)
  }

  /** One request came back 401 and its refresh, call 0, is on the wire. */
  function FirstRefreshSent(policy: Policy): Tab {
    LoggedInTab(policy).(client := Client(Some(FirstToken(policy)), true, Some(0)),
                         calls := map[0 := Call(FirstToken(policy), None, false)],
                         requests := map[0 := Awaiting(0)], sends := map[0 := 1], refreshed := [0])
  }

  function SendFirst(): seq<Event> {
    [] + [StartRequest(0)] + [Respond(0, true, 0)]
  }

  /** The server trades the token, the response gets lost, and another request needs a refresh. */
  function LostResponse(): seq<Event> {
    SendFirst() + [ServerHandles(0, 1, true)] + [Lose(0)]
    + [StartRequest(1)] + [Respond(1, true, 1)] + [ServerHandles(1, 2, true)]
  }

  /** The call is given up before the server sees it, and another request's refresh goes through. */
  function HarmlessLoss(): seq<Event> {
    SendFirst() + [Lose(0)] + [StartRequest(1)] + [Respond(1, true, 1)] + [ServerHandles(1, 1, true)]
  }

  /** Then the server comes to the abandoned call after all. */
  function LateHandling(): seq<Event> {
    HarmlessLoss() + [ServerHandles(0, 2, true)]
  }

  lemma OneMore(policy: Policy, start: Tab, events: seq<Event>, e: Event)
    requires Interleaving(policy, start, events)
    requires Enabled(AfterEvents(policy, start, events), e)
    ensures Interleaving(policy, start, events + [e])
    ensures AfterEvents(policy, start, events + [e]) == Apply(policy, AfterEvents(policy, start, events), e)
  {
    var longer := events + [e];
    assert longer[..|events|] == events;
    forall k | 0 <= k < |longer|
      ensures Enabled(AfterEvents(policy, start, longer[..k]), longer[k])
    {
      assert k < |events| ==> longer[..k] == events[..k];
    }
  }

  lemma LoginIsFresh(policy: Policy)
    requires policy.ttlDays > 0
    ensures JustLoggedIn(policy, LoggedInTab(policy))
    ensures Decodes(FirstToken(policy), 0)
    ensures var w := LoggedInTab(policy).world;
            && w.now == 0 && w.minted == map[0 := FirstToken(policy)] && w.store.Keys == {0}
            && w.store[0].user == 0 && w.store[0].revokedAt.None? && w.store[0].expiresAt > 0
  {
    assert policy.ttlDays * DAY >= DAY && WholeSecond(policy.ttlDays * DAY) > 0;
  }

  lemma SendFirstReaches(policy: Policy)
    requires policy.ttlDays > 0
    ensures Interleaving(policy, LoggedInTab(policy), SendFirst())
    ensures AfterEvents(policy, LoggedInTab(policy), SendFirst()) == FirstRefreshSent(policy)
  {
    var start := LoggedInTab(policy);
    OneMore(policy, start, [], StartRequest(0));
    var t1 := start.(requests := map[0 := Fetching(true)], sends := map[0 := 1]);
    assert Apply(policy, start, StartRequest(0)) == t1;
    assert Apply(policy, t1, Respond(0, true, 0)) == FirstRefreshSent(policy);
    OneMore(policy, start, [] + [StartRequest(0)], Respond(0, true, 0));
  }

  /** A second request needs a refresh while call 0 is abandoned. */
  lemma SecondRefreshSent(policy: Policy, t: Tab)
    requires t.client == Client(Some(FirstToken(policy)), true, None)
    requires t.calls.Keys == {0} && t.requests.Keys == {0} && t.refreshed == [0]
    ensures Enabled(t, StartRequest(1))
    ensures var t1 := Apply(policy, t, StartRequest(1));
            && Enabled(t1, Respond(1, true, 1))
            && var t2 := Apply(policy, t1, Respond(1, true, 1));
               && t2.calls == t.calls[1 := Call(FirstToken(policy), None, false)]
               && t2.client == t.client.(inFlight := Some(1))
               && t2.world == t.world && t2.refreshed == [0, 0] && t2.replays == t.replays
  {
  }

  lemma TradeFirst(policy: Policy, t: Tab, call: nat)
    requires policy.ttlDays > 0 && t.world == LoggedInTab(policy).world
    requires call in t.calls && t.calls[call].token == FirstToken(policy) && t.calls[call].answer.None?
    ensures Enabled(t, ServerHandles(call, 1, true))
    ensures var u := Apply(policy, t, ServerHandles(call, 1, true));
            && u.calls == t.calls[call := t.calls[call].(answer := Some(Issued(Mint(policy, 0, 1, 0))))]
            && u.client == t.client && u.requests == t.requests && u.refreshed == t.refreshed && u.replays == t.replays
            && u.world.now == 0 && u.world.minted == map[0 := FirstToken(policy), 1 := Mint(policy, 0, 1, 0)]
            && 0 in u.world.store && u.world.store[0].revokedAt.Some?
  {
    LoginIsFresh(policy);
  }

  lemma ReplayFirst(policy: Policy, t: Tab, call: nat)
    requires policy.ttlDays > 0
    requires t.world.now == 0 && t.world.minted == map[0 := FirstToken(policy), 1 := Mint(policy, 0, 1, 0)]
    requires 0 in t.world.store && t.world.store[0].revokedAt.Some?
    requires call in t.calls && t.calls[call].token == FirstToken(policy) && t.calls[call].answer.None?
    ensures Enabled(t, ServerHandles(call, 2, true))
    ensures var u := Apply(policy, t, ServerHandles(call, 2, true));
            && u.replays == t.replays + 1 && u.refreshed == t.refreshed
            && u.calls == t.calls[call := t.calls[call].(answer := Some(Replayed))]
  {
    LoginIsFresh(policy);
    hide Decodes;
    assert Step(policy, t.world, Refresh(0, 2, true)).1 == Replayed;
  }

  /** A lost response: the token goes out a second time and the server answers with a replay. */
  lemma LostResponseEndsInReplay(policy: Policy)
    requires policy.ttlDays > 0
    ensures var start := LoggedInTab(policy);
            && JustLoggedIn(policy, start)
            && Interleaving(policy, start, LostResponse())
            && AfterEvents(policy, start, LostResponse()).replays == 1
            && AfterEvents(policy, start, LostResponse()).refreshed == [0, 0]
  {
    var start, q := LoggedInTab(policy), SendFirst();
    LoginIsFresh(policy);
    SendFirstReaches(policy);
    var t2 := FirstRefreshSent(policy);
    TradeFirst(policy, t2, 0);
    var t3 := Apply(policy, t2, ServerHandles(0, 1, true));
    GiveUpFirst(policy, t3);
    var t4 := Apply(policy, t3, Lose(0));
    SecondRefreshSent(policy, t4);
    var t5 := Apply(policy, t4, StartRequest(1));
    var t6 := Apply(policy, t5, Respond(1, true, 1));
    ReplayFirst(policy, t6, 1);
    assert t2 == AfterEvents(policy, start, q);
    hide *;
    OneMore(policy, start, q, ServerHandles(0, 1, true));
    OneMore(policy, start, q + [ServerHandles(0, 1, true)], Lose(0));
    OneMore(policy, start, q + [ServerHandles(0, 1, true)] + [Lose(0)], StartRequest(1));
    OneMore(policy, start, q + [ServerHandles(0, 1, true)] + [Lose(0)] + [StartRequest(1)], Respond(1, true, 1));
    OneMore(policy, start, q + [ServerHandles(0, 1, true)] + [Lose(0)] + [StartRequest(1)] + [Respond(1, true, 1)],
            ServerHandles(1, 2, true));
    LostResponseIs();
  }

  lemma LostResponseIs()
    ensures LostResponse() == SendFirst() + [ServerHandles(0, 1, true)] + [Lose(0)]
                            + [StartRequest(1)] + [Respond(1, true, 1)] + [ServerHandles(1, 2, true)]
  {
  }

  lemma GiveUpFirst(policy: Policy, t: Tab)
    requires t.calls.Keys == {0} && !t.calls[0].abandoned && t.requests == map[0 := Awaiting(0)]
    ensures Enabled(t, Lose(0))
    ensures var u := Apply(policy, t, Lose(0));
            && u.client == t.client.(inFlight := None) && u.calls == map[0 := t.calls[0].(abandoned := true)]
            && u.requests.Keys == {0} && u.world == t.world && u.refreshed == t.refreshed && u.replays == t.replays
  {
  }

  /** The tab once the first call is given up and the second refresh is on the wire. */
  lemma SecondCallOnTheWire(policy: Policy) returns (t: Tab)
    requires policy.ttlDays > 0
    ensures var q := SendFirst() + [Lose(0)] + [StartRequest(1)] + [Respond(1, true, 1)];
            Interleaving(policy, LoggedInTab(policy), q) && t == AfterEvents(policy, LoggedInTab(policy), q)
    ensures t.calls == map[0 := Call(FirstToken(policy), None, true), 1 := Call(FirstToken(policy), None, false)]
    ensures t.world == LoggedInTab(policy).world && t.replays == 0
  {
    var start, q, t2 := LoggedInTab(policy), SendFirst(), FirstRefreshSent(policy);
    SendFirstReaches(policy);
    GiveUpFirst(policy, t2);
    var t3 := Apply(policy, t2, Lose(0));
    SecondRefreshSent(policy, t3);
    var t4 := Apply(policy, t3, StartRequest(1));
    t := Apply(policy, t4, Respond(1, true, 1));
    hide *;
    OneMore(policy, start, q, Lose(0));
    OneMore(policy, start, q + [Lose(0)], StartRequest(1));
    OneMore(policy, start, q + [Lose(0)] + [StartRequest(1)], Respond(1, true, 1));
  }

  /** The tab after a loss that did no harm: the next refresh was traded as if nothing had happened. */
  lemma LossAloneIsHarmless(policy: Policy) returns (t: Tab)
    requires policy.ttlDays > 0
    ensures JustLoggedIn(policy, LoggedInTab(policy))
    ensures Interleaving(policy, LoggedInTab(policy), HarmlessLoss())
    ensures t == AfterEvents(policy, LoggedInTab(policy), HarmlessLoss())
    ensures t.replays == 0 && t.calls.Keys == {0, 1} && Traded(t.calls[1]) && !t.calls[1].abandoned
    ensures t.calls[0] == Call(FirstToken(policy), None, true)
    ensures t.world.now == 0 && t.world.minted == map[0 := FirstToken(policy), 1 := Mint(policy, 0, 1, 0)]
    ensures 0 in t.world.store && t.world.store[0].revokedAt.Some?
  {
    LoginIsFresh(policy);
    var t5 := SecondCallOnTheWire(policy);
    TradeFirst(policy, t5, 1);
    t := Apply(policy, t5, ServerHandles(1, 1, true));
    HarmlessLossIs();
    TradedWhenIssued(Call(FirstToken(policy), Some(Issued(Mint(policy, 0, 1, 0))), false));
    hide *;
    OneMore(policy, LoggedInTab(policy), SendFirst() + [Lose(0)] + [StartRequest(1)] + [Respond(1, true, 1)],
            ServerHandles(1, 1, true));
  }

  lemma HarmlessLossIs()
    ensures HarmlessLoss()
         == SendFirst() + [Lose(0)] + [StartRequest(1)] + [Respond(1, true, 1)] + [ServerHandles(1, 1, true)]
  {
  }

  lemma TradedWhenIssued(call: Call)
    requires call.answer.Some? && call.answer.value.Issued?
    ensures Traded(call)
  {
  }

  /** But the abandoned call itself, handled late, is a replay, although no abandoned call was traded. */
  lemma LateHandlingIsReplayed(policy: Policy)
    requires policy.ttlDays > 0
    ensures var start := LoggedInTab(policy);
            var t := AfterEvents(policy, start, LateHandling());
            && JustLoggedIn(policy, start) && Interleaving(policy, start, LateHandling())
            && t.replays == 1
            && forall c :: c in t.calls && t.calls[c].abandoned ==> !Traded(t.calls[c])
  {
    var t := LossAloneIsHarmless(policy);
    ReplayFirst(policy, t, 0);
    hide Apply;
    hide Interleaving;
    hide AfterEvents;
    hide Enabled;
    hide JustLoggedIn;
    hide LoggedInTab;
    hide HarmlessLoss;
    hide FirstToken;
    hide Mint;
    OneMore(policy, LoggedInTab(policy), HarmlessLoss(), ServerHandles(0, 2, true));
  }

  /** A role change elsewhere, then a new session elsewhere, then this tab's refresh. */
  function RoleChangedThenRefreshed(): seq<Event> {
    [] + [Outside(RevokeUser(0))] + [Outside(Issue(0, 5, Password))] + [StartRequest(0)] + [Respond(0, true, 0)]
    + [ServerHandles(0, 1, true)]
  }

  lemma RoleIsChanged(policy: Policy) returns (t: Tab)
    requires policy.ttlDays > 0
    ensures var start := LoggedInTab(policy);
            && Enabled(start, Outside(RevokeUser(0)))
            && var t1 := Apply(policy, start, Outside(RevokeUser(0)));
               && Enabled(t1, Outside(Issue(0, 5, Password)))
               && t == Apply(policy, t1, Outside(Issue(0, 5, Password)))
    ensures t.client == Client(Some(FirstToken(policy)), true, None)
    ensures t.calls == map[] && t.requests == map[] && t.refreshed == [] && t.exchanged == {} && t.replays == 0
    ensures t.cut == {0} && t.session == {0}
    ensures t.world.now == 0 && t.world.minted == map[0 := FirstToken(policy), 5 := Mint(policy, 0, 5, 0)]
    ensures t.world.store.Keys == {0, 5} && t.world.store[0].revokedAt.Some? && t.world.store[5].revokedAt.None?
    ensures t.world.store[5].user == 0
  {
    LoginIsFresh(policy);
    var start := LoggedInTab(policy);
    var t1 := Apply(policy, start, Outside(RevokeUser(0)));
    assert NewlyRevoked(start, t1.world) == {0};
    t := Apply(policy, t1, Outside(Issue(0, 5, Password)));
    assert NewlyRevoked(t1, t.world) == {};
  }

  lemma FirstCallSent(policy: Policy, t: Tab) returns (u: Tab)
    requires t.client == Client(Some(FirstToken(policy)), true, None)
    requires t.calls == map[] && t.requests == map[] && t.refreshed == []
    ensures Enabled(t, StartRequest(0))
    ensures var t1 := Apply(policy, t, StartRequest(0));
            Enabled(t1, Respond(0, true, 0)) && u == Apply(policy, t1, Respond(0, true, 0))
    ensures u.calls == map[0 := Call(FirstToken(policy), None, false)]
    ensures SameServer(t, u)
  {
    u := Apply(policy, Apply(policy, t, StartRequest(0)), Respond(0, true, 0));
  }

  lemma RevokedIsReplayed(policy: Policy, t: Tab)
    requires policy.ttlDays > 0
    requires t.calls == map[0 := Call(FirstToken(policy), None, false)] && t.exchanged == {} && t.replays == 0
    requires t.world.now == 0 && t.world.minted == map[0 := FirstToken(policy), 5 := Mint(policy, 0, 5, 0)]
    requires t.world.store.Keys == {0, 5} && t.world.store[0].revokedAt.Some? && t.world.store[5].user == 0
    ensures Enabled(t, ServerHandles(0, 1, true))
    ensures var u := Apply(policy, t, ServerHandles(0, 1, true));
            && u.replays == 1 && u.exchanged == {} && u.calls.Keys == {0} && !u.calls[0].abandoned
            && 5 in u.world.store && u.world.store[5].revokedAt.Some?
  {
    LoginIsFresh(policy);
    hide Decodes;
    assert Step(policy, t.world, Refresh(0, 1, true)).1 == Replayed;
  }

  /**
   * The tab of a user whose role was changed elsewhere runs into the replay branch
   * although no call was lost, and takes down a session begun after the change.
   */
  lemma RoleChangeEndsInReplay(policy: Policy)
    requires policy.ttlDays > 0
    ensures var start, q := LoggedInTab(policy), RoleChangedThenRefreshed();
            var t := AfterEvents(policy, start, q);
            && JustLoggedIn(policy, start) && Interleaving(policy, start, q) && NothingLost(q)
            && t.replays == 1 && t.exchanged == {} && t.calls.Keys == {0} && !t.calls[0].abandoned
            && 5 in t.world.store && t.world.store[5].revokedAt.Some?
  {
    var start, q := LoggedInTab(policy), RoleChangedThenRefreshed();
    var a, b := Outside(RevokeUser(0)), Outside(Issue(0, 5, Password));
    var c, d, e := StartRequest(0), Respond(0, true, 0), ServerHandles(0, 1, true);
    LoginIsFresh(policy);
    var t2 := RoleIsChanged(policy);
    var t4 := FirstCallSent(policy, t2);
    ServerUnmoved(t2, t4);
    RevokedIsReplayed(policy, t4);
    RoleChangedThenRefreshedIs();
    EmptyRun(policy, start);
    hide *;
    OneMore(policy, start, [], a);
    OneMore(policy, start, [] + [a], b);
    OneMore(policy, start, [] + [a] + [b], c);
    OneMore(policy, start, [] + [a] + [b] + [c], d);
    OneMore(policy, start, [] + [a] + [b] + [c] + [d], e);
  }

  lemma RoleChangedThenRefreshedIs()
    ensures var q := RoleChangedThenRefreshed();
            && q == [] + [Outside(RevokeUser(0))] + [Outside(Issue(0, 5, Password))]
                    + [StartRequest(0)] + [Respond(0, true, 0)] + [ServerHandles(0, 1, true)]
            && NothingLost(q)
  {
  }

  lemma EmptyRun(policy: Policy, start: Tab)
    ensures Interleaving(policy, start, []) && AfterEvents(policy, start, []) == start
  {
  }

  lemma ServerUnmoved(t: Tab, u: Tab)
    requires SameServer(t, u)
    ensures u.world == t.world && u.exchanged == t.exchanged && u.replays == t.replays
  {
  }

  /** Signing out while a refresh is in flight. */
  function SignedOutMidway(): seq<Event> {
    SendFirst() + [SignOut] + [ServerHandles(0, 1, true)] + [Deliver(0)]
  }

  lemma DeliveredAfterSignOut(policy: Policy, t: Tab)
    requires t.calls == map[0 := Call(FirstToken(policy), Some(Issued(Mint(policy, 0, 1, 0))), false)]
    ensures Enabled(t, Deliver(0))
    ensures Apply(policy, t, Deliver(0)).client == Client(Some(Mint(policy, 0, 1, 0)), true, None)
  {
  }

  /** The response signs the user in again. */
  lemma SignOutIsUndone(policy: Policy)
    requires policy.ttlDays > 0
    ensures var start, q := LoggedInTab(policy), SignedOutMidway();
            && JustLoggedIn(policy, start) && Interleaving(policy, start, q)
            && AfterEvents(policy, start, q).client == Client(Some(Mint(policy, 0, 1, 0)), true, None)
  {
    var start, q, t2 := LoggedInTab(policy), SendFirst(), FirstRefreshSent(policy);
    LoginIsFresh(policy);
    SendFirstReaches(policy);
    var t3 := Apply(policy, t2, SignOut);
    assert Enabled(t2, SignOut) && t3.calls == t2.calls && t3.world == start.world;
    TradeFirst(policy, t3, 0);
    var t4 := Apply(policy, t3, ServerHandles(0, 1, true));
    DeliveredAfterSignOut(policy, t4);
    assert SignedOutMidway() == q + [SignOut] + [ServerHandles(0, 1, true)] + [Deliver(0)];
    hide *;
    OneMore(policy, start, q, SignOut);
    OneMore(policy, start, q + [SignOut], ServerHandles(0, 1, true));
    OneMore(policy, start, q + [SignOut] + [ServerHandles(0, 1, true)], Deliver(0));
  }
}
