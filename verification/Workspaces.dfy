/**
 * Workspace ownership and membership of services/auth.py, with the checks the
 * router (api/v1/orgs.py) makes before it calls the service. Every call is one
 * atomic step; the database's unique constraints are not used, so what is proved
 * rests on the service's own checks.
 */
module Workspaces {
  import opened Options
  import opened Strings
  import Tokens = RefreshTokens

  const INVITE_TTL_DAYS := 7
  const SECONDS_PER_DAY := 86400

  datatype Role = Owner | Admin | Analyst | Viewer
  {
    /** Lower rank is more privilege. */
    function Rank(): nat {
      match this
      case Owner => 0
      case Admin => 1
      case Analyst => 2
      case Viewer => 3
    }

    predicate Satisfies(minimum: Role) {
      Rank() <= minimum.Rank()
    }
  }

  /** The roles form a ladder, owner at the top and viewer at the bottom, no two on one rung. */
  lemma RolesFormALadder(a: Role, b: Role, c: Role)
    ensures Owner.Satisfies(a) && a.Satisfies(Viewer)
    ensures a.Satisfies(b) || b.Satisfies(a)
    ensures a.Satisfies(b) && b.Satisfies(a) ==> a == b
    ensures a.Satisfies(b) && b.Satisfies(c) ==> a.Satisfies(c)
    ensures Admin.Satisfies(Analyst)
  {
  }

  datatype User = User(id: nat, email: string)
  datatype Membership = Membership(org: nat, user: nat, role: Role)
  datatype Invitation = Invitation(org: nat, email: string, role: Role, token: nat, expiresAt: int,
                                   acceptedAt: Option<int>)
  datatype Error = Conflict | NotFound | Invalid | Denied

  datatype State = State(users: seq<User>, orgs: set<nat>, members: seq<Membership>, invites: seq<Invitation>)

  /** A request; identifiers and tokens that the database or the generator picks come with it. */
  datatype Request =
    | Register(email: string, newUser: nat, newOrg: nat, slugFree: bool)
    | CreateOrg(user: nat, newOrg: nat, slugFree: bool)
    | Invite(actor: nat, org: nat, email: string, role: Role, newToken: nat, now: int)
    | Accept(token: nat, hasPassword: bool, newUser: nat, now: int)
    | ChangeRole(actor: nat, org: nat, target: nat, role: Role)
    | Remove(actor: nat, org: nat, target: nat)

  // ----- lookups ------------------------------------------------------------------------

  function UserByEmail(users: seq<User>, email: string): (r: Option<User>)
    ensures r.None? <==> forall u :: u in users ==> Lower(u.email) != Lower(email)
    ensures r.Some? ==> r.value in users && Lower(r.value.email) == Lower(email)
  {
    if |users| == 0 then None
    else if Lower(users[0].email) == Lower(email) then Some(users[0])
    else UserByEmail(users[1..], email)
  }

  function FindMember(members: seq<Membership>, org: nat, user: nat): (r: Option<nat>)
    ensures r.None? <==> forall m :: m in members ==> !(m.org == org && m.user == user)
    ensures r.Some? ==> r.value < |members| && members[r.value].org == org && members[r.value].user == user
  {
    if |members| == 0 then None
    else if members[0].org == org && members[0].user == user then Some(0)
    else
      var r := FindMember(members[1..], org, user);
      if r.Some? then Some(r.value + 1) else None
  }

  function FindPending(invites: seq<Invitation>, org: nat, email: string): (r: Option<nat>)
    ensures r.None? <==>
              forall v :: v in invites ==> !(v.org == org && v.email == email && v.acceptedAt.None?)
    ensures r.Some? ==> r.value < |invites| && invites[r.value].acceptedAt.None?
    ensures r.Some? ==> invites[r.value].org == org && invites[r.value].email == email
  {
    if |invites| == 0 then None
    else if invites[0].org == org && invites[0].email == email && invites[0].acceptedAt.None? then Some(0)
    else
      var r := FindPending(invites[1..], org, email);
      if r.Some? then Some(r.value + 1) else None
  }

  function FindToken(invites: seq<Invitation>, token: nat): (r: Option<nat>)
    ensures r.None? <==> forall v :: v in invites ==> v.token != token
    ensures r.Some? ==> r.value < |invites| && invites[r.value].token == token
  {
    if |invites| == 0 then None
    else if invites[0].token == token then Some(0)
    else
      var r := FindToken(invites[1..], token);
      if r.Some? then Some(r.value + 1) else None
  }

  function CountOwners(members: seq<Membership>, org: nat): nat {
    if |members| == 0 then 0
    else
      var n := |members| - 1;
      CountOwners(members[..n], org) + if members[n].org == org && members[n].role == Owner then 1 else 0
  }

  function WithoutAt<T>(s: seq<T>, i: nat): seq<T>
    requires i < |s|
  {
    s[..i] + s[i + 1..]
  }

  // ----- the service ----------------------------------------------------------------------

  function RoleOf(s: State, org: nat, user: nat): Option<Role> {
    match FindMember(s.members, org, user)
    case None => None
    case Some(i) => Some(s.members[i].role)
  }

  function DoRegister(s: State, email: string, newUser: nat, newOrg: nat, slugFree: bool): Result<State, Error> {
    if UserByEmail(s.users, email).Some? || !slugFree then Err(Conflict)
    else Ok(s.(users := s.users + [User(newUser, Lower(email))], orgs := s.orgs + {newOrg},
               members := s.members + [Membership(newOrg, newUser, Owner)]))
  }

  function DoCreateOrg(s: State, user: nat, newOrg: nat, slugFree: bool): Result<State, Error> {
    if !slugFree then Err(Conflict)
    else Ok(s.(orgs := s.orgs + {newOrg}, members := s.members + [Membership(newOrg, user, Owner)]))
  }

  function DoInvite(s: State, org: nat, email: string, role: Role, token: nat, now: int): Result<State, Error> {
    var address := Lower(email);
    var known := UserByEmail(s.users, address);
    if known.Some? && FindMember(s.members, org, known.value.id).Some? then Err(Conflict)
    else if FindPending(s.invites, org, address).Some? then Err(Conflict)
    else Ok(s.(invites := s.invites
                 + [Invitation(org, address, role, token, now + INVITE_TTL_DAYS * SECONDS_PER_DAY, None)]))
  }

  /** The account an invitation leads to: the one at its address, or a new one there. */
  function Invitee(s: State, invitation: Invitation, newUser: nat): User {
    match UserByEmail(s.users, invitation.email)
    case Some(user) => user
    case None => User(newUser, invitation.email)
  }

  function DoAccept(s: State, token: nat, hasPassword: bool, newUser: nat, now: int): Result<State, Error> {
    match FindToken(s.invites, token)
    case None => Err(NotFound)
    case Some(i) =>
      var invitation := s.invites[i];
      var known := UserByEmail(s.users, invitation.email);
      if invitation.acceptedAt.Some? then Err(Conflict)
      else if invitation.expiresAt <= now then Err(Invalid)
      else if known.None? && !hasPassword then Err(Invalid)
      else
        var user := Invitee(s, invitation, newUser);
        Ok(s.(users := if known.Some? then s.users else s.users + [user],
              members := if FindMember(s.members, invitation.org, user.id).Some? then s.members
                         else s.members + [Membership(invitation.org, user.id, invitation.role)],
              invites := s.invites[i := invitation.(acceptedAt := Some(now))]))
  }

  function DoChangeRole(s: State, org: nat, target: nat, role: Role, actorRole: Role): Result<State, Error> {
    match FindMember(s.members, org, target)
    case None => Err(NotFound)
    case Some(i) =>
      var current := s.members[i].role;
      if (current == Owner || role == Owner) && actorRole != Owner then Err(Denied)
      else if current == Owner && role != Owner && CountOwners(s.members, org) <= 1 then Err(Invalid)
      else Ok(s.(members := s.members[i := s.members[i].(role := role)]))
  }

  function DoRemove(s: State, org: nat, target: nat, actor: nat, actorRole: Role): Result<State, Error> {
    match FindMember(s.members, org, target)
    case None => Err(NotFound)
    case Some(i) =>
      var current := s.members[i].role;
      if target != actor && !actorRole.Satisfies(Admin) then Err(Denied)
      else if target != actor && current == Owner && actorRole != Owner then Err(Denied)
      else if current == Owner && CountOwners(s.members, org) <= 1 then Err(Invalid)
      else Ok(s.(members := WithoutAt(s.members, i)))
  }

  /** A request as the router passes it on, with the actor's live role. */
  function Handle(s: State, r: Request): Result<State, Error> {
    match r
    case Register(email, newUser, newOrg, slugFree) => DoRegister(s, email, newUser, newOrg, slugFree)
    case CreateOrg(user, newOrg, slugFree) => DoCreateOrg(s, user, newOrg, slugFree)
    case Invite(actor, org, email, role, newToken, now) =>
      var actorRole := RoleOf(s, org, actor);
      if role == Owner then Err(Invalid)
      else if actorRole.None? || !actorRole.value.Satisfies(Admin) then Err(Denied)
      else DoInvite(s, org, email, role, newToken, now)
    case Accept(token, hasPassword, newUser, now) => DoAccept(s, token, hasPassword, newUser, now)
    case ChangeRole(actor, org, target, role) =>
      var actorRole := RoleOf(s, org, actor);
      if actorRole.None? || !actorRole.value.Satisfies(Admin) then Err(Denied)
      else if actor == target then Err(Invalid)
      else DoChangeRole(s, org, target, role, actorRole.value)
    case Remove(actor, org, target) =>
      var actorRole := RoleOf(s, org, actor);
      if actorRole.None? then Err(Denied)
      else DoRemove(s, org, target, actor, actorRole.value)
  }

  function Next(s: State, r: Request): State {
    match Handle(s, r)
    case Ok(t) => t
    case Err(_) => s
  }

  // ----- runs -----------------------------------------------------------------------------

  /** Generated identifiers and tokens are new, and only users create workspaces. */
  ghost predicate Fresh(s: State, r: Request) {
    match r
    case Register(_, newUser, newOrg, _) => newOrg !in s.orgs && forall u :: u in s.users ==> u.id != newUser
    case CreateOrg(user, newOrg, _) => newOrg !in s.orgs && exists u :: u in s.users && u.id == user
    case Invite(_, _, _, _, newToken, _) => forall v :: v in s.invites ==> v.token != newToken
    case Accept(_, _, newUser, _) => forall u :: u in s.users ==> u.id != newUser
    case ChangeRole(_, _, _, _) => true
    case Remove(_, _, _) => true
  }

  function After(requests: seq<Request>): State {
    if |requests| == 0 then State([], {}, [], [])
    else Next(After(requests[..|requests| - 1]), requests[|requests| - 1])
  }

  ghost predicate Run(requests: seq<Request>) {
    forall k :: 0 <= k < |requests| ==> Fresh(After(requests[..k]), requests[k])
  }

  // ----- the invariant ----------------------------------------------------------------------

  ghost predicate IsOwner(s: State, org: nat, user: nat) {
    exists m :: m in s.members && m.org == org && m.user == user && m.role == Owner
  }

  ghost predicate EveryWorkspaceOwned(s: State) {
    forall org :: org in s.orgs ==> exists m :: m in s.members && m.org == org && m.role == Owner
  }

  ghost predicate MembershipUnique(members: seq<Membership>) {
    forall i, j :: 0 <= i < j < |members| ==> members[i].org != members[j].org || members[i].user != members[j].user
  }

  ghost predicate PendingUnique(invites: seq<Invitation>) {
    forall i, j :: 0 <= i < j < |invites| ==>
      !(invites[i].org == invites[j].org && invites[i].email == invites[j].email
        && invites[i].acceptedAt.None? && invites[j].acceptedAt.None?)
  }

  ghost predicate TokensUnique(invites: seq<Invitation>) {
    forall i, j :: 0 <= i < j < |invites| ==> invites[i].token != invites[j].token
  }

  /** No dangling rows: members belong to known workspaces and users. */
  ghost predicate WellReferenced(s: State) {
    && (forall m :: m in s.members ==> m.org in s.orgs && exists u :: u in s.users && u.id == m.user)
    && (forall i, j :: 0 <= i < j < |s.users| ==>
          s.users[i].id != s.users[j].id && Lower(s.users[i].email) != Lower(s.users[j].email))
  }

  ghost predicate NoOwnerInvited(invites: seq<Invitation>) {
    forall v :: v in invites ==> v.role != Owner
  }

  ghost predicate Inv(s: State) {
    && EveryWorkspaceOwned(s)
    && MembershipUnique(s.members)
    && PendingUnique(s.invites)
    && TokensUnique(s.invites)
    && WellReferenced(s)
    && NoOwnerInvited(s.invites)
  }

  /** Invitations name known workspaces. */
  ghost predicate InvitesReferenced(s: State) {
    forall v :: v in s.invites ==> v.org in s.orgs
  }

  // ----- owners -------------------------------------------------------------------------------

  lemma {:induction false} AnOwnerIsCounted(members: seq<Membership>, org: nat)
    ensures CountOwners(members, org) > 0 <==> exists m :: m in members && m.org == org && m.role == Owner
  {
    if |members| > 0 {
      var n := |members| - 1;
      AnOwnerIsCounted(members[..n], org);
      assert members == members[..n] + [members[n]];
      assert forall m :: m in members <==> m in members[..n] || m == members[n];
    }
  }

  lemma {:induction false} CountWithout(members: seq<Membership>, org: nat, i: nat)
    requires i < |members|
    ensures CountOwners(members, org)
         == CountOwners(WithoutAt(members, i), org) + if members[i].org == org && members[i].role == Owner then 1 else 0
  {
    var n := |members| - 1;
    if i == n {
      assert WithoutAt(members, i) == members[..n];
    } else {
      CountWithout(members[..n], org, i);
      assert WithoutAt(members, i)[..n - 1] == WithoutAt(members[..n], i);
    }
  }

  /** Two owners before, so one is left when row i stops being one. */
  lemma OwnerRemains(members: seq<Membership>, org: nat, i: nat)
    requires i < |members| && CountOwners(members, org) > 1
    ensures exists m :: m in WithoutAt(members, i) && m.org == org && m.role == Owner
  {
    CountWithout(members, org, i);
    AnOwnerIsCounted(WithoutAt(members, i), org);
  }

  lemma WithoutMembers(members: seq<Membership>, i: nat)
    requires i < |members|
    ensures forall m :: m in members <==> m in WithoutAt(members, i) || m == members[i]
  {
    assert members == members[..i] + [members[i]] + members[i + 1..];
  }

  lemma UpdatedMembers(members: seq<Membership>, i: nat, x: Membership)
    requires i < |members|
    ensures forall m :: m in members[i := x] <==> m in WithoutAt(members, i) || m == x
  {
    assert members[i := x] == members[..i] + [x] + members[i + 1..];
  }

  // ----- every request keeps the invariant ----------------------------------------------------------

  lemma OneMemberMore(members: seq<Membership>, m: Membership)
    requires MembershipUnique(members)
    requires forall x :: x in members ==> x.org != m.org || x.user != m.user
    ensures MembershipUnique(members + [m])
    ensures forall x :: x in members + [m] <==> x in members || x == m
  {
    assert forall i :: 0 <= i < |members| ==> members[i] in members;
  }

  lemma NewMemberKeepsInv(s: State, m: Membership)
    requires Inv(s) && FindMember(s.members, m.org, m.user).None? && m.org in s.orgs
    requires exists u :: u in s.users && u.id == m.user
    ensures Inv(s.(members := s.members + [m]))
  {
    OneMemberMore(s.members, m);
    hide MembershipUnique;
    hide PendingUnique;
    hide TokensUnique;
    hide NoOwnerInvited;
    hide FindMember;
    hide Lower;
  }

  lemma NewUserKeepsInv(s: State, u: User)
    requires Inv(s) && UserByEmail(s.users, u.email).None?
    requires forall v :: v in s.users ==> v.id != u.id
    ensures Inv(s.(users := s.users + [u]))
    ensures u in (s.users + [u])
  {
    var t := s.(users := s.users + [u]);
    assert forall x :: x in s.users ==> x in t.users;
    assert forall i :: 0 <= i < |s.users| ==> s.users[i] in s.users;
  }

  /** A fresh workspace whose creator is its owner. */
  lemma NewWorkspaceKeepsInv(s: State, user: nat, org: nat)
    requires Inv(s) && org !in s.orgs && exists u :: u in s.users && u.id == user
    ensures Inv(s.(orgs := s.orgs + {org}, members := s.members + [Membership(org, user, Owner)]))
  {
    var m := Membership(org, user, Owner);
    OneMemberMore(s.members, m);
    hide MembershipUnique;
    hide PendingUnique;
    hide TokensUnique;
    hide NoOwnerInvited;
    hide Lower;
    forall o | o in s.orgs + {org}
      ensures exists x :: x in s.members + [m] && x.org == o && x.role == Owner
    {
      assert m in s.members + [m];
    }
  }

  lemma RegisterKeepsInv(s: State, email: string, newUser: nat, newOrg: nat, slugFree: bool)
    requires Inv(s) && Fresh(s, Register(email, newUser, newOrg, slugFree))
    ensures Inv(Next(s, Register(email, newUser, newOrg, slugFree)))
  {
    if DoRegister(s, email, newUser, newOrg, slugFree).Ok? {
      LowerTwice(email);
      var u := User(newUser, Lower(email));
      NewUserKeepsInv(s, u);
      NewWorkspaceKeepsInv(s.(users := s.users + [u]), newUser, newOrg);
    }
  }

  lemma OneInvitationMore(invites: seq<Invitation>, v: Invitation)
    requires PendingUnique(invites) && TokensUnique(invites) && NoOwnerInvited(invites)
    requires forall x :: x in invites ==> x.token != v.token
    requires forall x :: x in invites ==> !(x.org == v.org && x.email == v.email && x.acceptedAt.None?)
    requires v.role != Owner
    ensures PendingUnique(invites + [v]) && TokensUnique(invites + [v]) && NoOwnerInvited(invites + [v])
  {
    assert forall i :: 0 <= i < |invites| ==> invites[i] in invites;
    assert forall x :: x in invites + [v] <==> x in invites || x == v;
  }

  lemma InviteKeepsInv(s: State, r: Request)
    requires r.Invite? && Inv(s) && Fresh(s, r)
    ensures Inv(Next(s, r))
  {
    hide FindMember;
    hide UserByEmail;
    hide FindPending;
    hide Lower;
    var t := Next(s, r);
    if Handle(s, r).Ok? {
      var v := t.invites[|s.invites|];
      assert t.invites == s.invites + [v];
      OneInvitationMore(s.invites, v);
      hide PendingUnique;
      hide TokensUnique;
      hide NoOwnerInvited;
      hide MembershipUnique;
    }
  }

  lemma AcceptedInviteKeepsInv(s: State, i: nat, now: int)
    requires Inv(s) && i < |s.invites|
    ensures Inv(s.(invites := s.invites[i := s.invites[i].(acceptedAt := Some(now))]))
  {
    var after := s.invites[i := s.invites[i].(acceptedAt := Some(now))];
    forall v | v in after
      ensures v.role != Owner
    {
      var k :| 0 <= k < |after| && after[k] == v;
      assert s.invites[k] in s.invites;
    }
  }

  /** Redeeming for a user who is already in `s.users`. */
  lemma RedeemKeepsInv(s: State, i: nat, user: User, now: int)
    requires Inv(s) && i < |s.invites| && user in s.users && s.invites[i].org in s.orgs
    ensures var v := s.invites[i];
            Inv(s.(members := if FindMember(s.members, v.org, user.id).Some? then s.members
                              else s.members + [Membership(v.org, user.id, v.role)],
                   invites := s.invites[i := v.(acceptedAt := Some(now))]))
  {
    var v := s.invites[i];
    AcceptedInviteKeepsInv(s, i, now);
    hide Inv;
    var s1 := s.(invites := s.invites[i := v.(acceptedAt := Some(now))]);
    if FindMember(s.members, v.org, user.id).None? {
      NewMemberKeepsInv(s1, Membership(v.org, user.id, v.role));
    }
  }

  lemma AcceptKeepsInv(s: State, r: Request)
    requires r.Accept? && Inv(s) && Fresh(s, r) && InvitesReferenced(s)
    ensures Inv(Next(s, r))
  {
    hide Inv;
    hide FindMember;
    hide FindToken;
    hide UserByEmail;
    hide Lower;
    if DoAccept(s, r.token, r.hasPassword, r.newUser, r.now).Ok? {
      var i := FindToken(s.invites, r.token).value;
      var v := s.invites[i];
      assert v in s.invites;
      var known := UserByEmail(s.users, v.email);
      if known.Some? {
        RedeemKeepsInv(s, i, known.value, r.now);
      } else {
        var user := User(r.newUser, v.email);
        NewUserKeepsInv(s, user);
        RedeemKeepsInv(s.(users := s.users + [user]), i, user, r.now);
      }
    }
  }

  lemma RoleUpdateKeepsInv(s: State, i: nat, role: Role)
    requires Inv(s) && i < |s.members|
    requires s.members[i].role == Owner && role != Owner ==> CountOwners(s.members, s.members[i].org) > 1
    ensures Inv(s.(members := s.members[i := s.members[i].(role := role)]))
  {
    var before, now_ := s.members[i], s.members[i].(role := role);
    var after := s.members[i := now_];
    WithoutMembers(s.members, i);
    UpdatedMembers(s.members, i, now_);
    assert after[i] == now_ && now_ in after && before in s.members;
    forall o | o in s.orgs
      ensures exists m :: m in after && m.org == o && m.role == Owner
    {
      if o == before.org && before.role == Owner && role != Owner {
        OwnerRemains(s.members, o, i);
      } else {
        var m :| m in s.members && m.org == o && m.role == Owner;
        assert m in WithoutAt(s.members, i) || m == before;
      }
    }
  }

  lemma WithoutKeepsUnique(members: seq<Membership>, i: nat)
    requires i < |members| && MembershipUnique(members)
    ensures MembershipUnique(WithoutAt(members, i))
  {
    var rest := WithoutAt(members, i);
    forall j, k | 0 <= j < k < |rest|
      ensures rest[j].org != rest[k].org || rest[j].user != rest[k].user
    {
      assert rest[j] == members[if j < i then j else j + 1];
      assert rest[k] == members[if k < i then k else k + 1];
    }
  }

  lemma RemovalKeepsInv(s: State, i: nat)
    requires Inv(s) && i < |s.members|
    requires s.members[i].role == Owner ==> CountOwners(s.members, s.members[i].org) > 1
    ensures Inv(s.(members := WithoutAt(s.members, i)))
  {
    var gone, rest := s.members[i], WithoutAt(s.members, i);
    WithoutMembers(s.members, i);
    WithoutKeepsUnique(s.members, i);
    hide WithoutAt;
    hide MembershipUnique;
    forall o | o in s.orgs
      ensures exists m :: m in rest && m.org == o && m.role == Owner
    {
      if o == gone.org && gone.role == Owner {
        OwnerRemains(s.members, o, i);
      } else {
        var m :| m in s.members && m.org == o && m.role == Owner;
        assert m in rest;
      }
    }
  }

  lemma StepKeepsInv(s: State, r: Request)
    requires Inv(s) && InvitesReferenced(s) && Fresh(s, r)
    ensures Inv(Next(s, r)) && InvitesReferenced(Next(s, r))
  {
    hide Inv;
    match r {
      case Register(email, newUser, newOrg, slugFree) => RegisterKeepsInv(s, email, newUser, newOrg, slugFree);
      case CreateOrg(user, newOrg, _) => NewWorkspaceKeepsInv(s, user, newOrg);
      case Invite(_, _, _, _, _, _) => InviteKeepsInv(s, r);
      case Accept(_, _, _, _) => AcceptKeepsInv(s, r);
      case ChangeRole(actor, org, target, role) =>
        if FindMember(s.members, org, target).Some? && Next(s, r) != s {
          RoleUpdateKeepsInv(s, FindMember(s.members, org, target).value, role);
        }
      case Remove(actor, org, target) =>
        if FindMember(s.members, org, target).Some? && Handle(s, r).Ok? {
          RemovalKeepsInv(s, FindMember(s.members, org, target).value);
        }
    }
    StepKeepsReferences(s, r);
  }

  lemma StepKeepsReferences(s: State, r: Request)
    requires Inv(s) && InvitesReferenced(s)
    ensures InvitesReferenced(Next(s, r))
  {
    hide UserByEmail;
    hide FindPending;
    hide FindMember;
    hide FindToken;
    hide CountOwners;
    hide WithoutAt;
    hide Lower;
    var t := Next(s, r);
    forall v | v in t.invites
      ensures v.org in t.orgs
    {
      var k :| 0 <= k < |t.invites| && t.invites[k] == v;
      if k < |s.invites| {
        assert s.invites[k] in s.invites;
      } else {
        var i := FindMember(s.members, r.org, r.actor).value;
        assert s.members[i] in s.members;
      }
    }
  }

  /**
   * In every reachable state each workspace has an owner, (workspace, user) is
   * unique among members, and at most one invitation per (workspace, address)
   * is pending.
   */
  lemma {:induction false} EveryRunKeepsOwnership(requests: seq<Request>)
    requires Run(requests)
    ensures Inv(After(requests)) && InvitesReferenced(After(requests))
  {
    if |requests| > 0 {
      hide Inv;
      var n := |requests| - 1;
      assert Run(requests[..n]) by {
        assert forall k :: 0 <= k < n ==> requests[..n][..k] == requests[..k];
      }
      EveryRunKeepsOwnership(requests[..n]);
      StepKeepsInv(After(requests[..n]), requests[n]);
    }
  }

  // ----- who makes and unmakes owners ------------------------------------------------------------

  /** Anyone becomes owner only by creating the workspace or by the act of a current owner. */
  lemma OwnershipComesFromOwners(s: State, r: Request, org: nat, user: nat)
    requires Inv(s) && Fresh(s, r)
    ensures !IsOwner(s, org, user) && IsOwner(Next(s, r), org, user) ==>
              || (r.Register? && r.newOrg == org && r.newUser == user && org !in s.orgs)
              || (r.CreateOrg? && r.newOrg == org && r.user == user && org !in s.orgs)
              || (r.ChangeRole? && r.org == org && r.target == user && r.role == Owner
                  && r.actor != user && IsOwner(s, org, r.actor))
  {
    hide FindToken;
    hide FindMember;
    hide UserByEmail;
    hide CountOwners;
    var t := Next(s, r);
    if !IsOwner(s, org, user) && IsOwner(t, org, user) {
      var m :| m in t.members && m.org == org && m.user == user && m.role == Owner;
      match r {
        case ChangeRole(actor, o, target, role) =>
          var i := FindMember(s.members, o, target).value;
          UpdatedMembers(s.members, i, s.members[i].(role := role));
          WithoutMembers(s.members, i);
          var a := s.members[FindMember(s.members, o, actor).value];
          assert a in s.members;
        case Remove(_, o, target) =>
          WithoutMembers(s.members, FindMember(s.members, o, target).value);
        case _ =>
      }
    }
  }

  lemma OwnerChanged(s: State, r: Request, m: Membership)
    requires r.ChangeRole? && m in s.members && m !in Next(s, r).members && m.role == Owner
    ensures r.org == m.org && r.target == m.user && r.actor != m.user && IsOwner(s, m.org, r.actor)
  {
    hide CountOwners;
    var i := FindMember(s.members, r.org, r.target).value;
    UpdatedMembers(s.members, i, s.members[i].(role := r.role));
    WithoutMembers(s.members, i);
    assert s.members[FindMember(s.members, r.org, r.actor).value] in s.members;
  }

  lemma OwnerRemoved(s: State, r: Request, m: Membership)
    requires r.Remove? && m in s.members && m !in Next(s, r).members && m.role == Owner
    ensures r.org == m.org && r.target == m.user && (r.actor == m.user || IsOwner(s, m.org, r.actor))
  {
    hide CountOwners;
    WithoutMembers(s.members, FindMember(s.members, r.org, r.target).value);
    assert s.members[FindMember(s.members, r.org, r.actor).value] in s.members;
  }

  lemma OthersKeepMembers(s: State, r: Request)
    ensures !r.ChangeRole? && !r.Remove? ==> forall m :: m in s.members ==> m in Next(s, r).members
  {
    hide FindToken;
    hide FindMember;
    hide UserByEmail;
    hide FindPending;
  }

  /** An owner stops being one only by leaving or by the act of another current owner. */
  lemma OwnershipLostOnlyToOwners(s: State, r: Request, org: nat, user: nat)
    requires Inv(s) && Fresh(s, r)
    requires IsOwner(s, org, user) && !IsOwner(Next(s, r), org, user)
    ensures || (r.Remove? && r.org == org && r.target == user && r.actor == user)
            || ((r.Remove? || r.ChangeRole?) && r.org == org && r.target == user
                && r.actor != user && IsOwner(s, org, r.actor))
  {
    hide Next;
    hide Inv;
    hide Fresh;
    var m :| m in s.members && m.org == org && m.user == user && m.role == Owner;
    OthersKeepMembers(s, r);
    if r.ChangeRole? {
      OwnerChanged(s, r, m);
    } else if r.Remove? {
      OwnerRemoved(s, r, m);
    }
  }

  /** Nobody enters an existing workspace except on an invitation to it. */
  lemma MembersEnterByInvitation(s: State, r: Request, org: nat, user: nat)
    requires Inv(s) && Fresh(s, r) && org in s.orgs
    requires RoleOf(s, org, user).None? && RoleOf(Next(s, r), org, user).Some?
    ensures r.Accept?
    ensures exists v ::
              && v in s.invites && v.token == r.token && v.org == org
              && v.acceptedAt.None? && r.now < v.expiresAt
              && RoleOf(Next(s, r), org, user) == Some(v.role)
  {
    hide FindToken;
    hide FindMember;
    hide UserByEmail;
    hide CountOwners;
    var t := Next(s, r);
    var m := t.members[FindMember(t.members, org, user).value];
    assert m in t.members && m !in s.members;
    match r {
      case Accept(token, _, _, _) =>
        var v := s.invites[FindToken(s.invites, token).value];
        assert v in s.invites;
      case ChangeRole(actor, o, target, role) =>
        var i := FindMember(s.members, o, target).value;
        UpdatedMembers(s.members, i, s.members[i].(role := role));
        WithoutMembers(s.members, i);
      case Remove(_, o, target) =>
        WithoutMembers(s.members, FindMember(s.members, o, target).value);
      case _ =>
    }
  }

  // ----- an invitation is redeemed at most once -------------------------------------------------------

  ghost predicate Redeemed(s: State, token: nat) {
    exists v :: v in s.invites && v.token == token && v.acceptedAt.Some?
  }

  predicate Redeems(s: State, r: Request, token: nat) {
    r.Accept? && r.token == token && Handle(s, r).Ok?
  }

  /** How many requests of the run redeem the invitation. */
  function Redemptions(requests: seq<Request>, token: nat): nat {
    if |requests| == 0 then 0
    else
      var n := |requests| - 1;
      Redemptions(requests[..n], token) + if Redeems(After(requests[..n]), requests[n], token) then 1 else 0
  }

  lemma RedemptionIsFinal(s: State, r: Request, token: nat)
    requires TokensUnique(s.invites)
    ensures Redeemed(s, token) ==> Redeemed(Next(s, r), token)
    ensures Redeems(s, r, token) ==> !Redeemed(s, token) && Redeemed(Next(s, r), token)
  {
    hide FindToken;
    hide FindMember;
    hide UserByEmail;
    hide FindPending;
    var t := Next(s, r);
    if Redeems(s, r, token) {
      var i := FindToken(s.invites, token).value;
      assert t.invites[i] in t.invites;
    }
    if v :| v in s.invites && v.token == token && v.acceptedAt.Some? {
      var k :| 0 <= k < |s.invites| && s.invites[k] == v;
      assert t.invites[k] == v;
      assert v in t.invites;
    }
  }

  lemma {:induction false} RedeemedAtMostOnce(requests: seq<Request>, token: nat)
    requires Run(requests)
    ensures Redemptions(requests, token) <= 1
    ensures Redemptions(requests, token) == 1 ==> Redeemed(After(requests), token)
  {
    hide Inv;
    if |requests| > 0 {
      var n := |requests| - 1;
      assert Run(requests[..n]) by {
        assert forall k :: 0 <= k < n ==> requests[..n][..k] == requests[..k];
      }
      RedeemedAtMostOnce(requests[..n], token);
      EveryRunKeepsOwnership(requests[..n]);
      InvGivesUniqueTokens(After(requests[..n]));
      RedemptionIsFinal(After(requests[..n]), requests[n], token);
    }
  }

  lemma InvGivesUniqueTokens(s: State)
    requires Inv(s)
    ensures TokensUnique(s.invites)
  {
  }

  // ----- whom redeeming an invitation signs in ---------------------------------------------------------

  predicate Opened(v: Invitation, token: nat, now: int) {
    v.token == token && v.acceptedAt.None? && now < v.expiresAt
  }

  ghost predicate HasAccount(s: State, email: string) {
    exists u :: u in s.users && Lower(u.email) == Lower(email)
  }

  /**
   * Redeeming succeeds exactly for an unredeemed, unexpired invitation whose
   * address has an account already or, if not, with a password for a new one.
   */
  lemma AcceptSucceedsExactlyWhen(s: State, r: Request)
    requires Inv(s) && r.Accept?
    ensures Handle(s, r).Ok?
       <==> exists v :: v in s.invites && Opened(v, r.token, r.now) && (r.hasPassword || HasAccount(s, v.email))
  {
    hide FindMember;
    hide UserByEmail;
    hide FindToken;
    hide Lower;
    if FindToken(s.invites, r.token).Some? {
      var i := FindToken(s.invites, r.token).value;
      forall v | v in s.invites && v.token == r.token
        ensures v == s.invites[i]
      {
        var k :| 0 <= k < |s.invites| && s.invites[k] == v;
        assert k == i;
      }
    }
  }

  /** The account signed in is at the invited address: the one there before, kept as it was, or else a new one. */
  lemma AcceptSignsInTheAddressee(s: State, r: Request, v: Invitation)
    requires Inv(s) && Fresh(s, r) && r.Accept? && Handle(s, r).Ok?
    requires v in s.invites && v.token == r.token
    ensures var u, t := Invitee(s, v, r.newUser), Next(s, r);
            && Lower(u.email) == Lower(v.email)
            && (u in s.users <==> HasAccount(s, v.email))
            && t.users == (if u in s.users then s.users else s.users + [u])
            && RoleOf(t, v.org, u.id).Some?
            && (RoleOf(s, v.org, u.id).None? ==> RoleOf(t, v.org, u.id) == Some(v.role))
  {
    hide UserByEmail;
    hide FindToken;
    hide FindMember;
    hide Lower;
    var i := FindToken(s.invites, r.token).value;
    var k :| 0 <= k < |s.invites| && s.invites[k] == v;
    assert k == i;
    var u, t := Invitee(s, v, r.newUser), Next(s, r);
    if FindMember(s.members, v.org, u.id).None? {
      assert t.members[|s.members|] == Membership(v.org, u.id, v.role);
      var m := FindMember(t.members, v.org, u.id);
      assert t.members[m.value] in t.members;
    }
  }

  /** So without a password only existing accounts are signed in, and none is made. */
  lemma SignInWithoutPassword(s: State, r: Request)
    requires Inv(s) && r.Accept? && !r.hasPassword
    ensures Handle(s, r).Ok?
       <==> exists v, u :: v in s.invites && u in s.users
              && Opened(v, r.token, r.now) && Lower(u.email) == Lower(v.email)
    ensures Next(s, r).users == s.users
  {
    AcceptSucceedsExactlyWhen(s, r);
    hide Inv;
    hide UserByEmail;
    hide FindToken;
    hide FindMember;
    hide Lower;
    hide Opened;
  }

  /** The k-th request of the run made this invitation, in the name of an admin of its workspace at that time. */
  ghost predicate MadeBy(requests: seq<Request>, k: nat, v: Invitation)
    requires k < |requests|
  {
    var r, s := requests[k], After(requests[..k]);
    && r.Invite? && r.newToken == v.token && r.org == v.org && r.role == v.role && Lower(r.email) == v.email
    && RoleOf(s, r.org, r.actor).Some? && RoleOf(s, r.org, r.actor).value.Satisfies(Admin)
  }

  lemma InvitationsAreMade(s: State, r: Request, v: Invitation)
    requires v in Next(s, r).invites
    ensures || (exists w :: w in s.invites && w.(acceptedAt := v.acceptedAt) == v)
            || (r.Invite? && r.newToken == v.token && r.org == v.org && r.role == v.role && Lower(r.email) == v.email
                && RoleOf(s, r.org, r.actor).Some? && RoleOf(s, r.org, r.actor).value.Satisfies(Admin))
  {
    hide UserByEmail;
    hide FindMember;
    hide FindPending;
    hide CountOwners;
    hide Lower;
    var t := Next(s, r);
    if v in s.invites {
      assert v.(acceptedAt := v.acceptedAt) == v;
    } else if r.Accept? {
      var i := FindToken(s.invites, r.token).value;
      assert s.invites[i] in s.invites;
    }
  }

  /** Every invitation on record was made by an admin of its workspace. */
  lemma {:induction false} InvitationsComeFromAdmins(requests: seq<Request>, v: Invitation)
    requires Run(requests) && v in After(requests).invites
    ensures exists k :: 0 <= k < |requests| && MadeBy(requests, k, v)
  {
    if |requests| > 0 {
      var n := |requests| - 1;
      LastStep(requests);
      InvitationsAreMade(After(requests[..n]), requests[n], v);
      if w :| w in After(requests[..n]).invites && w.(acceptedAt := v.acceptedAt) == v {
        hide *;
        InvitationsComeFromAdmins(requests[..n], w);
        var k :| 0 <= k < n && MadeBy(requests[..n], k, w);
        StillMadeBy(requests, n, k, w, v);
      } else {
        assert MadeBy(requests, n, v);
        hide *;
      }
    }
  }

  lemma StillMadeBy(requests: seq<Request>, n: nat, k: nat, w: Invitation, v: Invitation)
    requires k < n <= |requests| && MadeBy(requests[..n], k, w) && w.(acceptedAt := v.acceptedAt) == v
    ensures MadeBy(requests, k, v)
  {
    hide RoleOf;
    hide Lower;
    hide After;
    assert requests[..n][..k] == requests[..k];
  }

  // ----- a lapsed invitation stays in the way -----------------------------------------------------------

  /**
   * The pending check ignores expiry, and expiry is all that ends an invitation
   * nobody redeems: once lapsed it can be neither redeemed nor replaced, by any
   * request at all.
   */
  lemma LapsedInvitationBlocks(s: State, i: nat, r: Request, now: int)
    requires Inv(s) && i < |s.invites| && s.invites[i].acceptedAt.None? && s.invites[i].expiresAt <= now
    requires r.Accept? ==> r.now >= now
    ensures |Next(s, r).invites| > i && Next(s, r).invites[i] == s.invites[i]
    ensures r.Invite? && r.org == s.invites[i].org && Lower(r.email) == s.invites[i].email ==> Handle(s, r).Err?
    ensures r.Accept? && r.token == s.invites[i].token ==> Handle(s, r) == Err(Invalid)
  {
    hide UserByEmail;
    hide FindMember;
    hide CountOwners;
    hide Lower;
    assert s.invites[i] in s.invites;
    if r.Accept? && FindToken(s.invites, r.token).Some? {
      var k := FindToken(s.invites, r.token).value;
      assert k == i || s.invites[k].token != s.invites[i].token;
    }
  }

  /** So over any continuation of a run the lapsed row stays as it was, pending and in the way. */
  lemma {:induction false} LapsedForGood(requests: seq<Request>, n: nat, i: nat, now: int)
    requires Run(requests) && n <= |requests| && i < |After(requests[..n]).invites|
    requires var v := After(requests[..n]).invites[i]; v.acceptedAt.None? && v.expiresAt <= now
    requires forall k :: n <= k < |requests| && requests[k].Accept? ==> requests[k].now >= now
    ensures i < |After(requests).invites| && After(requests).invites[i] == After(requests[..n]).invites[i]
  {
    hide *;
    if n == |requests| {
      assert requests[..n] == requests;
    } else {
      var m := |requests| - 1;
      LastStep(requests);
      assert requests[..m][..n] == requests[..n];
      LapsedForGood(requests[..m], n, i, now);
      EveryRunKeepsOwnership(requests[..m]);
      LapsedInvitationBlocks(After(requests[..m]), i, requests[m], now);
    }
  }

  lemma LastStep(requests: seq<Request>)
    requires |requests| > 0 && Run(requests)
    ensures var m := |requests| - 1;
            && Run(requests[..m]) && Fresh(After(requests[..m]), requests[m])
            && After(requests) == Next(After(requests[..m]), requests[m])
  {
    hide Next;
    hide Fresh;
    var m := |requests| - 1;
    assert forall k :: 0 <= k < m ==> requests[..m][..k] == requests[..k];
  }

  // ----- when an invitation is refused ------------------------------------------------------------------

  ghost predicate IsAdmin(s: State, org: nat, user: nat) {
    exists m :: m in s.members && m.org == org && m.user == user && m.role.Satisfies(Admin)
  }

  ghost predicate AddressIsMember(s: State, org: nat, email: string) {
    exists u, m :: u in s.users && Lower(u.email) == Lower(email) && m in s.members && m.org == org && m.user == u.id
  }

  /** Not redeemed, lapsed or not. */
  ghost predicate AddressIsPending(s: State, org: nat, email: string) {
    exists v :: v in s.invites && v.org == org && v.email == Lower(email) && v.acceptedAt.None?
  }

  lemma MemberIsFound(s: State, m: Membership)
    requires MembershipUnique(s.members) && m in s.members
    ensures RoleOf(s, m.org, m.user) == Some(m.role)
  {
    var i, k := FindMember(s.members, m.org, m.user).value, IndexOf(s.members, m);
    assert i == k;
  }

  function IndexOf(members: seq<Membership>, m: Membership): (i: nat)
    requires m in members
    ensures i < |members| && members[i] == m
  {
    if members[0] == m then 0 else 1 + IndexOf(members[1..], m)
  }

  lemma UserIsFound(s: State, u: User, email: string)
    requires WellReferenced(s) && u in s.users && Lower(u.email) == Lower(email)
    ensures UserByEmail(s.users, Lower(email)) == Some(u)
  {
    LowerTwice(email);
    var known := UserByEmail(s.users, Lower(email)).value;
    var i :| 0 <= i < |s.users| && s.users[i] == u;
    var k :| 0 <= k < |s.users| && s.users[k] == known;
    assert i == k;
  }

  lemma AdminIsSeen(s: State, org: nat, user: nat)
    requires Inv(s)
    ensures IsAdmin(s, org, user) <==> RoleOf(s, org, user).Some? && RoleOf(s, org, user).value.Satisfies(Admin)
  {
    hide FindMember;
    if m :| m in s.members && m.org == org && m.user == user && m.role.Satisfies(Admin) {
      MemberIsFound(s, m);
    }
    if RoleOf(s, org, user).Some? {
      assert s.members[FindMember(s.members, org, user).value] in s.members;
    }
  }

  lemma MemberAddressIsSeen(s: State, org: nat, email: string)
    requires Inv(s)
    ensures var known := UserByEmail(s.users, Lower(email));
            AddressIsMember(s, org, email) <==> known.Some? && FindMember(s.members, org, known.value.id).Some?
  {
    hide FindMember;
    hide UserByEmail;
    LowerTwice(email);
    var known := UserByEmail(s.users, Lower(email));
    if u, m :| u in s.users && Lower(u.email) == Lower(email) && m in s.members && m.org == org && m.user == u.id {
      UserIsFound(s, u, email);
    }
    if known.Some? && FindMember(s.members, org, known.value.id).Some? {
      assert s.members[FindMember(s.members, org, known.value.id).value] in s.members;
    }
  }

  lemma PendingIsSeen(s: State, org: nat, email: string)
    ensures AddressIsPending(s, org, email) <==> FindPending(s.invites, org, Lower(email)).Some?
  {
    hide FindPending;
    var at := FindPending(s.invites, org, Lower(email));
    if at.Some? {
      assert s.invites[at.value] in s.invites;
    }
  }

  /**
   * The exact line: an invitation is refused for the owner role, from anyone but
   * a live admin, to a member's address, and to an address that has an unredeemed
   * invitation to the workspace, whether that one can still be redeemed or not.
   */
  lemma InvitationRefusedExactlyWhen(s: State, r: Request)
    requires Inv(s) && r.Invite?
    ensures Handle(s, r).Err?
       <==> || r.role == Owner
            || !IsAdmin(s, r.org, r.actor)
            || AddressIsMember(s, r.org, r.email)
            || AddressIsPending(s, r.org, r.email)
  {
    AdminIsSeen(s, r.org, r.actor);
    MemberAddressIsSeen(s, r.org, r.email);
    PendingIsSeen(s, r.org, r.email);
    hide Inv;
    hide FindMember;
    hide FindPending;
    hide UserByEmail;
    hide Lower;
    hide IsAdmin;
    hide AddressIsMember;
    hide AddressIsPending;
  }

  // ----- request by request, on who holds which role ----------------------------------------------------

  /** Everybody's role everywhere is as before, but for one user's in one workspace. */
  ghost predicate OnlyRoleOf(s: State, t: State, org: nat, user: nat) {
    forall o, u :: (o != org || u != user) ==> RoleOf(t, o, u) == RoleOf(s, o, u)
  }

  ghost predicate SoleOwner(s: State, org: nat, user: nat) {
    RoleOf(s, org, user) == Some(Owner) && forall u :: u != user ==> RoleOf(s, org, u) != Some(Owner)
  }

  /** With one row a person, a role is what the row says. */
  lemma RoleIsTheRows(members: seq<Membership>, s: State, org: nat, user: nat)
    requires MembershipUnique(members) && s.members == members
    ensures forall role :: RoleOf(s, org, user) == Some(role) <==> Membership(org, user, role) in members
    ensures RoleOf(s, org, user).None? <==> forall m :: m in members ==> !(m.org == org && m.user == user)
  {
    forall role
      ensures RoleOf(s, org, user) == Some(role) <==> Membership(org, user, role) in members
    {
      var at := FindMember(members, org, user);
      if at.Some? {
        assert members[at.value] in members;
        if Membership(org, user, role) in members {
          var k :| 0 <= k < |members| && members[k] == Membership(org, user, role);
          assert k == at.value;
        }
      }
    }
  }

  /** Two rows for one place come to one role. */
  lemma SameRowsSameRole(s: State, t: State, org: nat, user: nat)
    requires MembershipUnique(s.members) && MembershipUnique(t.members)
    requires forall m: Membership :: m.org == org && m.user == user ==> (m in s.members <==> m in t.members)
    ensures RoleOf(t, org, user) == RoleOf(s, org, user)
  {
    RoleIsTheRows(s.members, s, org, user);
    RoleIsTheRows(t.members, t, org, user);
    hide RoleOf;
    hide MembershipUnique;
    if RoleOf(s, org, user).Some? {
      assert Membership(org, user, RoleOf(s, org, user).value) in t.members;
    }
  }

  /** Another owner of the same workspace has a row beside the i-th. */
  ghost predicate OwnedBesides(members: seq<Membership>, org: nat, user: nat) {
    exists u :: u != user && Membership(org, u, Owner) in members
  }

  lemma OthersAreInTheRest(members: seq<Membership>, org: nat, i: nat)
    requires MembershipUnique(members) && i < |members| && members[i].org == org
    ensures (exists m :: m in WithoutAt(members, i) && m.org == org && m.role == Owner)
       <==> OwnedBesides(members, org, members[i].user)
  {
    var rest, user := WithoutAt(members, i), members[i].user;
    WithoutMembers(members, i);
    if m :| m in rest && m.org == org && m.role == Owner {
      RowGone(members, i, m);
      assert m == Membership(org, m.user, Owner);
    }
    hide WithoutAt;
    hide MembershipUnique;
    if u :| u != user && Membership(org, u, Owner) in members {
      assert Membership(org, u, Owner) in rest;
    }
  }

  lemma SoleOwnerMeans(s: State, org: nat, user: nat)
    requires MembershipUnique(s.members) && Membership(org, user, Owner) in s.members
    ensures SoleOwner(s, org, user) <==> !OwnedBesides(s.members, org, user)
  {
    forall u
      ensures RoleOf(s, org, u) == Some(Owner) <==> Membership(org, u, Owner) in s.members
    {
      RoleIsTheRows(s.members, s, org, u);
    }
    hide RoleOf;
    hide MembershipUnique;
  }

  /** The count of owners sees whether there is another one. */
  lemma OwnersAreCounted(s: State, org: nat, i: nat)
    requires MembershipUnique(s.members) && i < |s.members|
    requires s.members[i].org == org && s.members[i].role == Owner
    ensures CountOwners(s.members, org) <= 1 <==> SoleOwner(s, org, s.members[i].user)
  {
    CountWithout(s.members, org, i);
    AnOwnerIsCounted(WithoutAt(s.members, i), org);
    OthersAreInTheRest(s.members, org, i);
    assert s.members[i] in s.members && s.members[i] == Membership(org, s.members[i].user, Owner);
    hide *;
    SoleOwnerMeans(s, org, s.members[i].user);
  }

  lemma RowGone(members: seq<Membership>, i: nat, m: Membership)
    requires MembershipUnique(members) && i < |members| && m in WithoutAt(members, i)
    ensures !(m.org == members[i].org && m.user == members[i].user)
  {
    var rest := WithoutAt(members, i);
    var k :| 0 <= k < |rest| && rest[k] == m;
    assert m == members[if k < i then k else k + 1];
  }

  /**
   * Leaving and removing succeed exactly for two members of the workspace, the one
   * who asks being the one who goes, or an admin, and an owner if an owner goes;
   * and never for the only owner.
   */
  lemma RemovalSucceedsExactlyWhen(s: State, r: Request)
    requires Inv(s) && r.Remove?
    ensures var asks, goes := RoleOf(s, r.org, r.actor), RoleOf(s, r.org, r.target);
            && (Handle(s, r).Ok? <==>
                  && asks.Some? && goes.Some?
                  && (r.actor != r.target ==>
                        asks.value in {Owner, Admin} && (goes.value == Owner ==> asks.value == Owner))
                  && !SoleOwner(s, r.org, r.target))
            && (Handle(s, r) == Err(NotFound) <==> asks.Some? && goes.None?)
  {
    hide CountOwners;
    var at := FindMember(s.members, r.org, r.target);
    if at.Some? && s.members[at.value].role == Owner {
      OwnersAreCounted(s, r.org, at.value);
    }
    hide EveryWorkspaceOwned;
    hide WellReferenced;
  }

  /** The one who goes has no role in the workspace any more; every other role, the people and the invitations stay. */
  lemma RemovalRemoves(s: State, r: Request)
    requires Inv(s) && r.Remove? && Handle(s, r).Ok?
    ensures var t := Next(s, r);
            && t == s.(members := t.members)
            && RoleOf(t, r.org, r.target).None? && OnlyRoleOf(s, t, r.org, r.target)
  {
    var i := FindMember(s.members, r.org, r.target).value;
    var t := Next(s, r);
    assert t.members == WithoutAt(s.members, i);
    WithoutMembers(s.members, i);
    WithoutIsUnique(s.members, i);
    forall m | m in t.members
      ensures !(m.org == r.org && m.user == r.target)
    {
      RowGone(s.members, i, m);
    }
    hide Handle;
    hide Next;
    hide WithoutAt;
    forall o, u | o != r.org || u != r.target
      ensures RoleOf(t, o, u) == RoleOf(s, o, u)
    {
      SameRowsSameRole(s, t, o, u);
    }
  }

  lemma WithoutIsUnique(members: seq<Membership>, i: nat)
    requires MembershipUnique(members) && i < |members|
    ensures MembershipUnique(WithoutAt(members, i))
  {
    var rest := WithoutAt(members, i);
    assert forall k :: 0 <= k < |rest| ==> rest[k] == members[if k < i then k else k + 1];
  }

  /**
   * A role changes exactly when an admin asks it for another member, and an owner
   * asks it where ownership is given or taken. No owner is then ever the last.
   */
  lemma RoleChangeSucceedsExactlyWhen(s: State, r: Request)
    requires Inv(s) && r.ChangeRole?
    ensures var asks, was := RoleOf(s, r.org, r.actor), RoleOf(s, r.org, r.target);
            Handle(s, r).Ok? <==>
              && r.actor != r.target && asks.Some? && was.Some? && asks.value in {Owner, Admin}
              && (was.value == Owner || r.role == Owner ==> asks.value == Owner)
  {
    hide CountOwners;
    var at := FindMember(s.members, r.org, r.target);
    if at.Some? && s.members[at.value].role == Owner {
      OwnersAreCounted(s, r.org, at.value);
    }
    hide EveryWorkspaceOwned;
    hide WellReferenced;
  }

  /** The member has the new role in the workspace; every other role, the people and the invitations stay. */
  lemma RoleChangeChanges(s: State, r: Request)
    requires Inv(s) && r.ChangeRole? && Handle(s, r).Ok?
    ensures var t := Next(s, r);
            && t == s.(members := t.members)
            && RoleOf(t, r.org, r.target) == Some(r.role) && OnlyRoleOf(s, t, r.org, r.target)
  {
    var i := FindMember(s.members, r.org, r.target).value;
    var row := Membership(r.org, r.target, r.role);
    var t := Next(s, r);
    assert t == s.(members := s.members[i := row]);
    hide Handle;
    hide Next;
    hide RoleOf;
    UpdatedRole(s, t, i, row);
  }

  lemma UpdatedRole(s: State, t: State, i: nat, row: Membership)
    requires MembershipUnique(s.members) && i < |s.members| && t.members == s.members[i := row]
    requires s.members[i].org == row.org && s.members[i].user == row.user
    ensures RoleOf(t, row.org, row.user) == Some(row.role) && OnlyRoleOf(s, t, row.org, row.user)
  {
    UpdatedMembers(s.members, i, row);
    WithoutMembers(s.members, i);
    assert MembershipUnique(t.members);
    RoleIsTheRows(t.members, t, row.org, row.user);
    assert t.members[i] == row == Membership(row.org, row.user, row.role);
    assert Membership(row.org, row.user, row.role) in t.members;
    hide MembershipUnique;
    hide RoleOf;
    hide WithoutAt;
    forall o, u | o != row.org || u != row.user
      ensures RoleOf(t, o, u) == RoleOf(s, o, u)
    {
      SameRowsSameRole(s, t, o, u);
    }
  }

  lemma JoinedRole(s: State, t: State, org: nat, user: nat, role: Role)
    requires MembershipUnique(s.members) && t.members == s.members + [Membership(org, user, role)]
    requires RoleOf(s, org, user).None?
    ensures RoleOf(t, org, user) == Some(role) && OnlyRoleOf(s, t, org, user)
  {
    OneMemberMore(s.members, Membership(org, user, role));
    RoleIsTheRows(t.members, t, org, user);
    forall o, u | o != org || u != user
      ensures RoleOf(t, o, u) == RoleOf(s, o, u)
    {
      SameRowsSameRole(s, t, o, u);
    }
  }

  lemma NoRoleInANewPlace(s: State, org: nat, user: nat)
    requires Inv(s) && (org !in s.orgs || forall u :: u in s.users ==> u.id != user)
    ensures RoleOf(s, org, user).None?
  {
    assert forall m :: m in s.members ==> !(m.org == org && m.user == user);
  }

  /**
   * Registering succeeds exactly for an address without an account, when a name for
   * the workspace was found; the new account owns the new workspace, and is the only change.
   */
  lemma RegistrationMeans(s: State, r: Request)
    requires Inv(s) && Fresh(s, r) && r.Register?
    ensures var t := Next(s, r);
            && (Handle(s, r).Ok? <==> r.slugFree && !HasAccount(s, r.email))
            && (Handle(s, r).Ok? ==>
                  && t.users == s.users + [User(r.newUser, Lower(r.email))] && t.orgs == s.orgs + {r.newOrg}
                  && t.invites == s.invites
                  && RoleOf(t, r.newOrg, r.newUser) == Some(Owner) && OnlyRoleOf(s, t, r.newOrg, r.newUser))
  {
    hide UserByEmail;
    NoRoleInANewPlace(s, r.newOrg, r.newUser);
    if Handle(s, r).Ok? {
      JoinedRole(s, Next(s, r), r.newOrg, r.newUser, Owner);
    }
    hide Inv;
    hide RoleOf;
    hide Lower;
  }

  /** A user may always create a workspace a name was found for, and owns it; nothing else changes. */
  lemma CreationMeans(s: State, r: Request)
    requires Inv(s) && Fresh(s, r) && r.CreateOrg?
    ensures var t := Next(s, r);
            && (Handle(s, r).Ok? <==> r.slugFree)
            && (Handle(s, r).Ok? ==>
                  && t.users == s.users && t.invites == s.invites && t.orgs == s.orgs + {r.newOrg}
                  && RoleOf(t, r.newOrg, r.user) == Some(Owner) && OnlyRoleOf(s, t, r.newOrg, r.user))
  {
    NoRoleInANewPlace(s, r.newOrg, r.user);
    if Handle(s, r).Ok? {
      JoinedRole(s, Next(s, r), r.newOrg, r.user, Owner);
    }
    hide Inv;
    hide RoleOf;
  }

  /** An invitation made is open for seven days, to the lower-case address, in the role asked; all else stays. */
  lemma InvitationMeans(s: State, r: Request)
    requires r.Invite? && Handle(s, r).Ok?
    ensures var t := Next(s, r);
            && t == s.(invites := t.invites)
            && t.invites == s.invites
                 + [Invitation(r.org, Lower(r.email), r.role, r.newToken, r.now + 604_800, None)]
  {
  }

  /** Redeeming marks that invitation and touches no other, and at most the addressee's role there is new. */
  lemma AcceptMeans(s: State, r: Request, i: nat)
    requires Inv(s) && Fresh(s, r) && r.Accept? && Handle(s, r).Ok?
    requires i < |s.invites| && s.invites[i].token == r.token
    ensures var t, v := Next(s, r), s.invites[i];
            && t.invites == s.invites[i := v.(acceptedAt := Some(r.now))] && t.orgs == s.orgs
            && OnlyRoleOf(s, t, v.org, Invitee(s, v, r.newUser).id)
            && (RoleOf(s, v.org, Invitee(s, v, r.newUser).id).Some? ==> t.members == s.members)
  {
    var t, v := Next(s, r), s.invites[i];
    assert FindToken(s.invites, r.token) == Some(i);
    var user := Invitee(s, v, r.newUser).id;
    if RoleOf(s, v.org, user).None? {
      JoinedRole(s, t, v.org, user, v.role);
    }
    hide Inv;
    hide Invitee;
    hide FindToken;
  }

  const A_WEEK := INVITE_TTL_DAYS * SECONDS_PER_DAY

  /** A workspace, an invitation, and a week without an answer. */
  function InvitedAWeekAgo(): seq<Request> {
    [] + [Register("owner", 0, 0, true)] + [Invite(0, 0, "guest", Viewer, 7, 0)]
  }

  lemma OneMore(requests: seq<Request>, r: Request)
    requires Run(requests) && Fresh(After(requests), r)
    ensures Run(requests + [r]) && After(requests + [r]) == Next(After(requests), r)
  {
    var longer := requests + [r];
    assert longer[..|requests|] == requests;
    forall k | 0 <= k < |longer|
      ensures Fresh(After(longer[..k]), longer[k])
    {
      assert k < |requests| ==> longer[..k] == requests[..k];
    }
  }

  function OwnerAlone(): State {
    State([User(0, "owner")], {0}, [Membership(0, 0, Owner)], [])
  }

  function GuestInvited(): State {
    OwnerAlone().(invites := [Invitation(0, "guest", Viewer, 7, A_WEEK, None)])
  }

  lemma LowerCaseStays()
    ensures Lower("owner") == "owner" && Lower("guest") == "guest"
  {
  }

  lemma OwnerRegisters()
    ensures var r := Register("owner", 0, 0, true);
            Fresh(State([], {}, [], []), r) && Next(State([], {}, [], []), r) == OwnerAlone()
  {
    LowerCaseStays();
  }

  lemma GuestIsInvited()
    ensures var r := Invite(0, 0, "guest", Viewer, 7, 0);
            Fresh(OwnerAlone(), r) && Next(OwnerAlone(), r) == GuestInvited()
  {
    LowerCaseStays();
    hide Lower;
    assert FindMember(OwnerAlone().members, 0, 0) == Some(0);
    assert UserByEmail(OwnerAlone().users, "guest") == None;
  }

  lemma GuestIsTooLate()
    ensures var accept, again := Accept(7, true, 1, A_WEEK), Invite(0, 0, "guest", Viewer, 8, A_WEEK);
            && Fresh(GuestInvited(), accept) && Handle(GuestInvited(), accept) == Err(Invalid)
            && Fresh(GuestInvited(), again) && Handle(GuestInvited(), again) == Err(Conflict)
  {
    LowerCaseStays();
    hide Lower;
    assert FindMember(GuestInvited().members, 0, 0) == Some(0);
    assert UserByEmail(GuestInvited().users, "guest") == None;
  }

  /** A run that ends there: the guest comes a week late and cannot be invited again. */
  lemma LateGuestIsLockedOut()
    ensures var accept, again := Accept(7, true, 1, A_WEEK), Invite(0, 0, "guest", Viewer, 8, A_WEEK);
            var q := InvitedAWeekAgo() + [accept];
            && Run(q + [again])
            && Handle(After(InvitedAWeekAgo()), accept) == Err(Invalid)
            && Handle(After(q), again) == Err(Conflict)
            && After(q + [again]) == GuestInvited()
  {
    var accept, again := Accept(7, true, 1, A_WEEK), Invite(0, 0, "guest", Viewer, 8, A_WEEK);
    OwnerRegisters();
    GuestIsInvited();
    GuestIsTooLate();
    assert After([]) == State([], {}, [], []) && Run([]);
    var first, second := Register("owner", 0, 0, true), Invite(0, 0, "guest", Viewer, 7, 0);
    assert InvitedAWeekAgo() == [] + [first] + [second];
    assert Next(GuestInvited(), accept) == GuestInvited() && Next(GuestInvited(), again) == GuestInvited();
    hide *;
    OneMore([], first);
    OneMore([] + [first], second);
    OneMore([] + [first] + [second], accept);
    OneMore([] + [first] + [second] + [accept], again);
  }

  // ----- the service as the object it is -------------------------------------------------------------------

  class Directory {
    var users: seq<User>
    var orgs: set<nat>
    var members: seq<Membership>
    var invites: seq<Invitation>

    constructor ()
      ensures Snapshot() == After([])
    {
      users, orgs, members, invites := [], {}, [], [];
    }

    function Snapshot(): State
      reads this
    {
      State(users, orgs, members, invites)
    }

    method RegisterUser(email: string, newUser: nat, newOrg: nat, slugFree: bool) returns (error: Option<Error>)
      modifies this
      ensures Snapshot() == Next(old(Snapshot()), Register(email, newUser, newOrg, slugFree))
      ensures error.None? <==> Handle(old(Snapshot()), Register(email, newUser, newOrg, slugFree)).Ok?
    {
      var existing := UserByEmail(users, email);
      if existing.Some? {
        return Some(Conflict);
      }
      if !slugFree {
        return Some(Conflict);
      }
      users := users + [User(newUser, Lower(email))];
      orgs := orgs + {newOrg};
      members := members + [Membership(newOrg, newUser, Owner)];
      return None;
    }

    method CreateOrganization(user: nat, newOrg: nat, slugFree: bool) returns (error: Option<Error>)
      modifies this
      ensures Snapshot() == Next(old(Snapshot()), CreateOrg(user, newOrg, slugFree))
      ensures error.None? <==> slugFree
    {
      if !slugFree {
        return Some(Conflict);
      }
      orgs := orgs + {newOrg};
      members := members + [Membership(newOrg, user, Owner)];
      return None;
    }

    method InviteMember(org: nat, email: string, role: Role, newToken: nat, now: int) returns (error: Option<Error>)
      modifies this`invites
      ensures var result := DoInvite(old(Snapshot()), org, email, role, newToken, now);
              && (error.None? <==> result.Ok?)
              && Snapshot() == if result.Ok? then result.value else old(Snapshot())
    {
      var address := Lower(email);
      var existing := UserByEmail(users, address);
      if existing.Some? {
        var already := FindMember(members, org, existing.value.id);
        if already.Some? {
          return Some(Conflict);
        }
      }
      var pending := FindPending(invites, org, address);
      if pending.Some? {
        return Some(Conflict);
      }
      var expiresAt := now + INVITE_TTL_DAYS * SECONDS_PER_DAY;
      invites := invites + [Invitation(org, address, role, newToken, expiresAt, None)];
      return None;
    }

    /** The tokens issued next are for the user it returns. */
    method AcceptInvitation(token: nat, hasPassword: bool, newUser: nat, now: int) returns (result: Result<User, Error>)
      modifies this
      ensures Snapshot() == Next(old(Snapshot()), Accept(token, hasPassword, newUser, now))
      ensures var done := DoAccept(old(Snapshot()), token, hasPassword, newUser, now);
              if result.Ok? then done.Ok? else done == Err(result.error)
      ensures result.Ok? ==>
                && FindToken(old(invites), token).Some?
                && result.value == Invitee(old(Snapshot()), old(invites)[FindToken(old(invites), token).value], newUser)
    {
      var at := FindToken(invites, token);
      if at.None? {
        return Err(NotFound);
      }
      var invitation := invites[at.value];
      if invitation.acceptedAt.Some? {
        return Err(Conflict);
      }
      if invitation.expiresAt <= now {
        return Err(Invalid);
      }
      var known := UserByEmail(users, invitation.email);
      var user;
      if known.None? {
        if !hasPassword {
          return Err(Invalid);
        }
        user := User(newUser, invitation.email);
        users := users + [user];
      } else {
        user := known.value;
      }
      var membership := FindMember(members, invitation.org, user.id);
      if membership.None? {
        members := members + [Membership(invitation.org, user.id, invitation.role)];
      }
      invites := invites[at.value := invitation.(acceptedAt := Some(now))];
      return Ok(user);
    }

    /** A changed role also ends the target's sessions: their refresh tokens are revoked. */
    method ChangeMemberRole(org: nat, target: nat, newRole: Role, actorRole: Role,
                            tokens: Tokens.TokenStore, now: int)
      returns (error: Option<Error>)
      modifies this`members, tokens`records
      ensures tokens.records
           == if error.None? then Tokens.DoRevokeAll(old(tokens.records), target, now) else old(tokens.records)
      ensures var result := DoChangeRole(old(Snapshot()), org, target, newRole, actorRole);
              && (if error.None? then result.Ok? else result == Err(error.value))
              && Snapshot() == if result.Ok? then result.value else old(Snapshot())
    {
      var at := FindMember(members, org, target);
      if at.None? {
        return Some(NotFound);
      }
      var membership := members[at.value];
      var touchesOwnership := membership.role == Owner || newRole == Owner;
      if touchesOwnership && actorRole != Owner {
        return Some(Denied);
      }
      if membership.role == Owner && newRole != Owner {
        var ownerCount := CountOwners(members, org);
        if ownerCount <= 1 {
          return Some(Invalid);
        }
      }
      members := members[at.value := membership.(role := newRole)];
      tokens.RevokeAllUserTokens(target, now);
      return None;
    }

    /** So does a removal, whoever asked for it. */
    method RemoveMember(org: nat, target: nat, actor: nat, actorRole: Role, tokens: Tokens.TokenStore, now: int)
      returns (error: Option<Error>)
      modifies this`members, tokens`records
      ensures tokens.records
           == if error.None? then Tokens.DoRevokeAll(old(tokens.records), target, now) else old(tokens.records)
      ensures var result := DoRemove(old(Snapshot()), org, target, actor, actorRole);
              && (if error.None? then result.Ok? else result == Err(error.value))
              && Snapshot() == if result.Ok? then result.value else old(Snapshot())
    {
      var at := FindMember(members, org, target);
      if at.None? {
        return Some(NotFound);
      }
      var membership := members[at.value];
      var isSelf := target == actor;
      if !isSelf {
        if !actorRole.Satisfies(Admin) {
          return Some(Denied);
        }
        if membership.role == Owner && actorRole != Owner {
          return Some(Denied);
        }
      }
      if membership.role == Owner {
        var ownerCount := CountOwners(members, org);
        if ownerCount <= 1 {
          return Some(Invalid);
        }
      }
      members := WithoutAt(members, at.value);
      tokens.RevokeAllUserTokens(target, now);
      return None;
    }

    /** The router's part of a role change: a live admin, and never on oneself. */
    method RouteChangeRole(actor: nat, org: nat, target: nat, newRole: Role, tokens: Tokens.TokenStore, now: int)
      returns (error: Option<Error>)
      modifies this`members, tokens`records
      ensures error.None? ==>
                forall j :: j in tokens.records && tokens.records[j].user == target ==>
                  tokens.records[j].revokedAt.Some?
      ensures error.Some? ==> tokens.records == old(tokens.records)
      ensures Snapshot() == Next(old(Snapshot()), ChangeRole(actor, org, target, newRole))
      ensures error.None? <==> Handle(old(Snapshot()), ChangeRole(actor, org, target, newRole)).Ok?
    {
      var at := FindMember(members, org, actor);
      if at.None? || !members[at.value].role.Satisfies(Admin) {
        return Some(Denied);
      }
      if actor == target {
        return Some(Invalid);
      }
      error := ChangeMemberRole(org, target, newRole, members[at.value].role, tokens, now);
    }

    /** The router's part of a removal: any live member may ask. */
    method RouteRemove(actor: nat, org: nat, target: nat, tokens: Tokens.TokenStore, now: int)
      returns (error: Option<Error>)
      modifies this`members, tokens`records
      ensures error.None? ==>
                forall j :: j in tokens.records && tokens.records[j].user == target ==>
                  tokens.records[j].revokedAt.Some?
      ensures error.Some? ==> tokens.records == old(tokens.records)
      ensures Snapshot() == Next(old(Snapshot()), Remove(actor, org, target))
      ensures error.None? <==> Handle(old(Snapshot()), Remove(actor, org, target)).Ok?
    {
      var at := FindMember(members, org, actor);
      if at.None? {
        return Some(Denied);
      }
      error := RemoveMember(org, target, actor, members[at.value].role, tokens, now);
    }

    /** The router's part of an invitation: a live admin, and never straight to owner. */
    method RouteInvite(actor: nat, org: nat, email: string, role: Role, newToken: nat, now: int)
      returns (error: Option<Error>)
      modifies this`invites
      ensures Snapshot() == Next(old(Snapshot()), Invite(actor, org, email, role, newToken, now))
      ensures error.None? <==> Handle(old(Snapshot()), Invite(actor, org, email, role, newToken, now)).Ok?
    {
      if role == Owner {
        return Some(Invalid);
      }
      var at := FindMember(members, org, actor);
      if at.None? || !members[at.value].role.Satisfies(Admin) {
        return Some(Denied);
      }
      error := InviteMember(org, email, role, newToken, now);
    }
  }
}
