/**
 * Seats of a workspace and workspaces of an account: what invitations, joining and creating keep
 * within the plan's limits.
 */
module Quotas {
  import opened Options
  import opened Plans
  import opened Accounts
  import opened Sets

  const INVITE_TTL := 604_800

  datatype InviteStatus = Pending | Accepted | Revoked

  datatype Invite = Invite(workspace: nat, email: string, status: InviteStatus, expires: Time)

  datatype State = State(db: Db, invites: map<nat, Invite>, now: Time)

  predicate Live(i: Invite, now: Time) {
    i.status.Pending? && i.expires > now
  }

  // ----- what is counted

  predicate OnTeam(u: User, w: nat) {
    u.workspace == Some(w) && u.active && u.role.Member?
  }

  /** The members who take a seat: everybody but the owner. */
  function Team(s: State, w: nat): set<nat> {
    set u | u in s.db.users && OnTeam(s.db.users[u], w)
  }

  /** The invitations still open. */
  function Waiting(s: State, w: nat): set<nat> {
    set i | i in s.invites && s.invites[i].workspace == w && Live(s.invites[i], s.now)
  }

  predicate Counts(s: State, u: User, email: string) {
    && u.email == email && u.active && u.workspace.Some?
    && u.workspace.value in s.db.workspaces && s.db.workspaces[u.workspace.value].active
  }

  function OwnerRows(s: State, email: string): set<nat> {
    set u | u in s.db.users && Counts(s, s.db.users[u], email) && s.db.users[u].role.Owner?
  }

  function MemberRows(s: State, email: string): set<nat> {
    set u | u in s.db.users && Counts(s, s.db.users[u], email) && s.db.users[u].role.Member?
  }

  function Tier(s: State, email: string): Limits {
    PlanLimits(GetAccount(s.db.accounts, email).plan)
  }

  predicate CanCreate(s: State, email: string) {
    Tier(s, email).ownWorkspaces.HasRoom(|OwnerRows(s, email)|)
  }

  predicate CanJoin(s: State, email: string) {
    Tier(s, email).joinWorkspaces.HasRoom(|MemberRows(s, email)|)
  }

  function Seats(s: State, w: nat): Cap {
    PlanLimits(if w in s.db.workspaces then s.db.workspaces[w].display.plan else Free).seats
  }

  // ----- the handlers

  datatype Reply = Done | Forbidden | AlreadyMember | AlreadySent | NoSeats | Invalid | WrongAccount | AccountExists
                 | NoRoom | NotFound | Failed

  predicate IsMember(s: State, w: nat, email: string) {
    exists u :: u in s.db.users && s.db.users[u].workspace == Some(w) && s.db.users[u].email == email
  }

  predicate HasAccount(s: State, email: string) {
    exists u :: u in s.db.users && s.db.users[u].email == email
  }

  predicate Invited(s: State, w: nat, email: string) {
    exists i :: i in s.invites && s.invites[i].workspace == w && s.invites[i].email == email
                && Live(s.invites[i], s.now)
  }

  function InviteReply(s: State, asOwner: bool, w: nat, email: string): Reply {
    if !asOwner then Forbidden
    else if IsMember(s, w, email) then AlreadyMember
    else if Invited(s, w, email) then AlreadySent
    else if !Seats(s, w).HasRoom(|Team(s, w)| + |Waiting(s, w)|) then NoSeats
    else Done
  }

  function AfterInvite(s: State, asOwner: bool, w: nat, email: string, id: nat): State {
    if InviteReply(s, asOwner, w, email).Done? then
      s.(invites := s.invites[id := Invite(w, email, Pending, s.now + INVITE_TTL)])
    else s
  }

  function RevokeReply(s: State, asOwner: bool, w: nat, id: nat): Reply {
    if !asOwner then Forbidden
    else if id in s.invites && s.invites[id].workspace == w && s.invites[id].status.Pending? then Done
    else NotFound
  }

  function AfterRevoke(s: State, asOwner: bool, w: nat, id: nat): State {
    if RevokeReply(s, asOwner, w, id).Done?
    then s.(invites := s.invites[id := s.invites[id].(status := Revoked)]) else s
  }

  /** The member row of an accepted invitation. */
  function Joined(s: State, id: nat, user: nat): State
    requires id in s.invites
  {
    var i := s.invites[id];
    s.(db := AddMember(s.db, user, i.workspace, i.email),
       invites := s.invites[id := i.(status := Accepted)])
  }

  function NewUserReply(s: State, id: nat): Reply {
    if id !in s.invites || !Live(s.invites[id], s.now) then Invalid
    else if HasAccount(s, s.invites[id].email) then AccountExists
    else Done
  }

  function AfterNewUser(s: State, id: nat, user: nat): State {
    if NewUserReply(s, id).Done? then Joined(s, id, user) else s
  }

  function ExistingUserReply(s: State, id: nat, email: string): Reply {
    if id !in s.invites || !Live(s.invites[id], s.now) then Invalid
    else if email != s.invites[id].email then WrongAccount
    else if IsMember(s, s.invites[id].workspace, email) then AlreadyMember
    else if !CanJoin(s, email) then NoRoom
    else Done
  }

  function AfterExistingUser(s: State, id: nat, email: string, user: nat): State {
    if ExistingUserReply(s, id, email).Done? then Joined(s, id, user) else s
  }

  function AfterCreate(s: State, me: nat, w: nat, user: nat): State {
    if me in s.db.users && CanCreate(s, s.db.users[me].email) then s.(db := AddWorkspace(s.db, me, w, user)) else s
  }

  // ----- the invariant

  ghost predicate References(s: State) {
    && Sound(s.db)
    && forall i :: i in s.invites ==> s.invites[i].workspace in s.db.workspaces
  }

  predicate SeatsFit(s: State, w: nat) {
    Seats(s, w).Admits(|Team(s, w)| + |Waiting(s, w)|)
  }

  predicate WorkspacesFit(s: State, email: string) {
    && Tier(s, email).ownWorkspaces.Admits(|OwnerRows(s, email)|)
    && Tier(s, email).joinWorkspaces.Admits(|MemberRows(s, email)|)
  }

  /** Members and open invitations fit the seats of each workspace, and each account stays within its caps. */
  ghost predicate Inv(s: State) {
    && References(s)
    && (forall w :: w in s.db.workspaces ==> SeatsFit(s, w))
    && (forall email :: WorkspacesFit(s, email))
  }

  /** The invariant in numbers: one more than allowed would be too many. */
  lemma InvCounts(s: State, w: nat, email: string)
    requires Inv(s)
    ensures w in s.db.workspaces ==>
      Below(s.db.workspaces[w].display.plan, |Team(s, w)| + |Waiting(s, w)|, 6, 3)
    ensures var plan := if email in s.db.accounts then s.db.accounts[email].plan else Free;
      Below(plan, |OwnerRows(s, email)|, 4, 2) && Below(plan, |MemberRows(s, email)|, 4, 2)
  {
    assert w in s.db.workspaces ==> SeatsFit(s, w);
    assert WorkspacesFit(s, email);
  }

  // ----- invitations

  /** Where users, workspaces and accounts are the same, so are the counts per account. */
  lemma SameDb(s: State, t: State, email: string)
    requires WorkspacesFit(s, email) && t.db == s.db
    ensures WorkspacesFit(t, email)
  {
    assert OwnerRows(t, email) == OwnerRows(s, email) && MemberRows(t, email) == MemberRows(s, email);
  }

  lemma InviteFits(s: State, asOwner: bool, w: nat, email: string, id: nat, v: nat)
    requires SeatsFit(s, v) && id !in s.invites
    ensures SeatsFit(AfterInvite(s, asOwner, w, email, id), v)
  {
    var t := AfterInvite(s, asOwner, w, email, id);
    if t != s {
      assert Team(t, v) == Team(s, v);
      assert Waiting(t, v) == if v == w then Waiting(s, v) + {id} else Waiting(s, v);
    }
  }

  lemma InviteKeeps(s: State, asOwner: bool, w: nat, email: string, id: nat)
    requires Inv(s) && w in s.db.workspaces && id !in s.invites
    ensures Inv(AfterInvite(s, asOwner, w, email, id))
  {
    var t := AfterInvite(s, asOwner, w, email, id);
    forall v | v in t.db.workspaces
      ensures SeatsFit(t, v)
    {
      InviteFits(s, asOwner, w, email, id, v);
    }
    forall e
      ensures WorkspacesFit(t, e)
    {
      SameDb(s, t, e);
    }
  }

  lemma FewerFit(s: State, t: State, w: nat)
    requires SeatsFit(s, w) && t.db == s.db && Waiting(t, w) <= Waiting(s, w)
    ensures SeatsFit(t, w)
  {
    assert Team(t, w) == Team(s, w);
    SubsetSize(Waiting(t, w), Waiting(s, w));
  }

  /** Fewer open invitations, with nothing else changed. */
  lemma FewerWaiting(s: State, t: State)
    requires Inv(s) && t.db == s.db
    requires forall i :: i in t.invites ==> t.invites[i].workspace in s.db.workspaces
    requires forall w :: Waiting(t, w) <= Waiting(s, w)
    ensures Inv(t)
  {
    forall w | w in t.db.workspaces
      ensures SeatsFit(t, w)
    {
      FewerFit(s, t, w);
    }
    forall e
      ensures WorkspacesFit(t, e)
    {
      SameDb(s, t, e);
    }
  }

  lemma RevokeKeeps(s: State, asOwner: bool, w: nat, id: nat)
    requires Inv(s)
    ensures Inv(AfterRevoke(s, asOwner, w, id))
  {
    FewerWaiting(s, AfterRevoke(s, asOwner, w, id));
  }

  lemma TimeKeeps(s: State, now: Time)
    requires Inv(s) && now >= s.now
    ensures Inv(s.(now := now))
  {
    FewerWaiting(s, s.(now := now));
  }

  // ----- joining

  /** Joining turns an open invitation into a member: the seats taken stay the same. */
  lemma JoinFits(s: State, id: nat, user: nat, w: nat)
    requires SeatsFit(s, w) && id in s.invites && Live(s.invites[id], s.now) && user !in s.db.users
    ensures SeatsFit(Joined(s, id, user), w)
  {
    var t := Joined(s, id, user);
    if w == s.invites[id].workspace {
      assert Team(t, w) == Team(s, w) + {user};
      assert id in Waiting(s, w) && Waiting(t, w) == Waiting(s, w) - {id};
    } else {
      assert Team(t, w) == Team(s, w) && Waiting(t, w) == Waiting(s, w);
    }
  }

  lemma JoinKeepsOwners(s: State, id: nat, user: nat, e: string, w: nat)
    requires id in s.invites && user !in s.db.users
    ensures Owns(Joined(s, id, user).db.users, e, w) <==> Owns(s.db.users, e, w)
  {
    var t := Joined(s, id, user);
    if Owns(s.db.users, e, w) {
      var u :| u in s.db.users && IsOwnerRow(s.db.users[u], e, w);
      assert t.db.users[u] == s.db.users[u];
    }
    if Owns(t.db.users, e, w) {
      var u :| u in t.db.users && IsOwnerRow(t.db.users[u], e, w);
      assert s.db.users[u] == t.db.users[u];
    }
  }

  lemma JoinKeepsReferences(s: State, id: nat, user: nat)
    requires References(s) && id in s.invites && user !in s.db.users
    ensures References(Joined(s, id, user))
  {
    forall e, w: nat {
      JoinKeepsOwners(s, id, user, e, w);
    }
  }

  lemma JoinRows(s: State, id: nat, user: nat, e: string)
    requires id in s.invites && user !in s.db.users
    ensures OwnerRows(Joined(s, id, user), e) == OwnerRows(s, e)
    ensures MemberRows(Joined(s, id, user), e) <= MemberRows(s, e) + if e == s.invites[id].email then {user} else {}
  {
  }

  lemma JoinFitsAccount(s: State, id: nat, user: nat, e: string)
    requires WorkspacesFit(s, e) && id in s.invites && user !in s.db.users
    requires CanJoin(s, s.invites[id].email)
    ensures WorkspacesFit(Joined(s, id, user), e)
  {
    JoinRows(s, id, user, e);
    SubsetSize(MemberRows(Joined(s, id, user), e), MemberRows(s, e) + if e == s.invites[id].email then {user} else {});
  }

  lemma JoinKeeps(s: State, id: nat, user: nat)
    requires Inv(s) && id in s.invites && Live(s.invites[id], s.now) && user !in s.db.users
    requires CanJoin(s, s.invites[id].email)
    ensures Inv(Joined(s, id, user))
  {
    var t := Joined(s, id, user);
    JoinKeepsReferences(s, id, user);
    forall w | w in t.db.workspaces
      ensures SeatsFit(t, w)
    {
      JoinFits(s, id, user, w);
    }
    forall e
      ensures WorkspacesFit(t, e)
    {
      JoinFitsAccount(s, id, user, e);
    }
  }

  /** Nobody under an email without an account has joined anything, and every plan lets an account join once. */
  lemma NewAccountCanJoin(s: State, email: string)
    requires !HasAccount(s, email)
    ensures CanJoin(s, email)
  {
    assert MemberRows(s, email) == {};
  }

  // ----- creating and paying

  /** A new workspace has no members and no invitations. */
  lemma NewWorkspaceFits(s: State, me: nat, w: nat, user: nat)
    requires References(s) && me in s.db.users && w !in s.db.workspaces && user !in s.db.users
    ensures SeatsFit(s.(db := AddWorkspace(s.db, me, w, user)), w)
  {
    var t := s.(db := AddWorkspace(s.db, me, w, user));
    assert Team(t, w) == {} && Waiting(t, w) == {};
  }

  lemma OldWorkspaceFits(s: State, me: nat, w: nat, user: nat, v: nat)
    requires References(s) && me in s.db.users && w !in s.db.workspaces && user !in s.db.users
    requires v in s.db.workspaces && SeatsFit(s, v)
    ensures SeatsFit(s.(db := AddWorkspace(s.db, me, w, user)), v)
  {
    var t := s.(db := AddWorkspace(s.db, me, w, user));
    assert Team(t, v) == Team(s, v) && Waiting(t, v) == Waiting(s, v);
    OwnersAfterAdd(s.db, me, w, user, s.db.users[me].email, v);
    assert t.db.workspaces[v].display == s.db.workspaces[v].display;
  }

  /** The row that owns the new workspace. */
  function OwnerRow(s: State, me: nat, user: nat): nat
    requires me in s.db.users
  {
    if s.db.users[me].workspace.None? then me else user
  }

  lemma CreateRows(s: State, me: nat, w: nat, user: nat, e: string)
    requires References(s) && me in s.db.users && w !in s.db.workspaces && user !in s.db.users
    ensures var t := s.(db := AddWorkspace(s.db, me, w, user));
      && OwnerRows(t, e) <= OwnerRows(s, e) + (if e == s.db.users[me].email then {OwnerRow(s, me, user)} else {})
      && MemberRows(t, e) <= MemberRows(s, e)
  {
  }

  lemma CreateFitsAccount(s: State, me: nat, w: nat, user: nat, e: string)
    requires References(s) && me in s.db.users && w !in s.db.workspaces && user !in s.db.users
    requires WorkspacesFit(s, e) && CanCreate(s, s.db.users[me].email)
    ensures WorkspacesFit(s.(db := AddWorkspace(s.db, me, w, user)), e)
  {
    var t := s.(db := AddWorkspace(s.db, me, w, user));
    CreateRows(s, me, w, user, e);
    SubsetSize(OwnerRows(t, e), OwnerRows(s, e) + if e == s.db.users[me].email then {OwnerRow(s, me, user)} else {});
    SubsetSize(MemberRows(t, e), MemberRows(s, e));
    AddKeepsMirror(s.db, me, w, user);
  }

  lemma CreateKeeps(s: State, me: nat, w: nat, user: nat)
    requires Inv(s) && w !in s.db.workspaces && user !in s.db.users
    ensures Inv(AfterCreate(s, me, w, user))
  {
    var t := AfterCreate(s, me, w, user);
    if me in s.db.users && CanCreate(s, s.db.users[me].email) {
      AddKeepsMirror(s.db, me, w, user);
      NewWorkspaceFits(s, me, w, user);
      forall v | v in s.db.workspaces
        ensures SeatsFit(t, v)
      {
        OldWorkspaceFits(s, me, w, user, v);
      }
      forall e
        ensures WorkspacesFit(t, e)
      {
        CreateFitsAccount(s, me, w, user, e);
      }
    }
  }

  /** The write leaves the account on a plan no lower than before. */
  predicate Raises(s: State, email: string, f: Fields) {
    Rank(Patched(GetAccount(s.db.accounts, email), f).plan) >= Rank(GetAccount(s.db.accounts, email).plan)
  }

  lemma RaiseFits(s: State, email: string, f: Fields, w: nat)
    requires References(s) && Raises(s, email, f) && w in s.db.workspaces && SeatsFit(s, w)
    ensures SeatsFit(s.(db := Write(s.db, email, f)), w)
  {
    var t := s.(db := Write(s.db, email, f));
    assert Team(t, w) == Team(s, w) && Waiting(t, w) == Waiting(s, w);
    var taken := |Team(s, w)| + |Waiting(s, w)|;
    LimitsGrowWithRank(s.db.workspaces[w].display.plan, t.db.workspaces[w].display.plan, taken);
  }

  lemma RaiseFitsAccount(s: State, email: string, f: Fields, e: string)
    requires Raises(s, email, f) && WorkspacesFit(s, e)
    ensures WorkspacesFit(s.(db := Write(s.db, email, f)), e)
  {
    var t := s.(db := Write(s.db, email, f));
    assert OwnerRows(t, e) == OwnerRows(s, e) && MemberRows(t, e) == MemberRows(s, e);
    LimitsGrowWithRank(GetAccount(s.db.accounts, e).plan, GetAccount(t.db.accounts, e).plan, |OwnerRows(s, e)|);
    LimitsGrowWithRank(GetAccount(s.db.accounts, e).plan, GetAccount(t.db.accounts, e).plan, |MemberRows(s, e)|);
  }

  lemma RaiseKeeps(s: State, email: string, f: Fields)
    requires Inv(s) && Raises(s, email, f)
    ensures Inv(s.(db := Write(s.db, email, f)))
  {
    var t := s.(db := Write(s.db, email, f));
    WriteKeepsMirror(s.db, email, f);
    forall w | w in t.db.workspaces
      ensures SeatsFit(t, w)
    {
      RaiseFits(s, email, f, w);
    }
    forall e
      ensures WorkspacesFit(t, e)
    {
      RaiseFitsAccount(s, email, f, e);
    }
  }

  // ----- runs

  datatype Step =
    | Send(asOwner: bool, workspace: nat, email: string, id: nat)
    | Revoke(asOwner: bool, workspace: nat, id: nat)
    | AcceptAsNew(id: nat, user: nat)
    | AcceptAsExisting(id: nat, email: string, user: nat)
    | Create(me: nat, workspace: nat, user: nat)
    | Raise(email: string, fields: Fields)
    | Wait(until: Time)

  /** New rows get new ids, an owner invites to an existing workspace, plans are not lowered, time goes on. */
  predicate Allowed(s: State, step: Step) {
    match step
    case Send(_, w, _, id) => w in s.db.workspaces && id !in s.invites
    case Revoke(_, _, _) => true
    case AcceptAsNew(_, user) => user !in s.db.users
    case AcceptAsExisting(_, _, user) => user !in s.db.users
    case Create(_, w, user) => w !in s.db.workspaces && user !in s.db.users
    case Raise(email, fields) => Raises(s, email, fields)
    case Wait(until) => until >= s.now
  }

  function Next(s: State, step: Step): State {
    match step
    case Send(asOwner, w, email, id) => AfterInvite(s, asOwner, w, email, id)
    case Revoke(asOwner, w, id) => AfterRevoke(s, asOwner, w, id)
    case AcceptAsNew(id, user) => AfterNewUser(s, id, user)
    case AcceptAsExisting(id, email, user) => AfterExistingUser(s, id, email, user)
    case Create(me, w, user) => AfterCreate(s, me, w, user)
    case Raise(email, fields) => s.(db := Write(s.db, email, fields))
    case Wait(until) => s.(now := until)
  }

  lemma StepKeeps(s: State, step: Step)
    requires Inv(s) && Allowed(s, step)
    ensures Inv(Next(s, step))
  {
    match step
    case Send(asOwner, w, email, id) => InviteKeeps(s, asOwner, w, email, id);
    case Revoke(asOwner, w, id) => RevokeKeeps(s, asOwner, w, id);
    case AcceptAsNew(id, user) =>
      if NewUserReply(s, id).Done? {
        NewAccountCanJoin(s, s.invites[id].email);
        JoinKeeps(s, id, user);
      }
    case AcceptAsExisting(id, email, user) =>
      if ExistingUserReply(s, id, email).Done? {
        JoinKeeps(s, id, user);
      }
    case Create(me, w, user) => CreateKeeps(s, me, w, user);
    case Raise(email, fields) => RaiseKeeps(s, email, fields);
    case Wait(until) => TimeKeeps(s, until);
  }

  // ----- what is counted and what the handlers do, column by column

  /** Fewer than the limit of a Pro account, or of a free one; a Business account has no limit. */
  predicate Below(plan: Plan, count: nat, pro: nat, free: nat) {
    match plan
    case Business => true
    case Pro => count < pro
    case _ => count < free
  }

  /**
   * Who takes a seat is active, of the workspace and not its owner; open invitations of the workspace wait for one.
   * An account's active rows in active workspaces count, as an owner's or as a member's.
   */
  lemma CountedExactly(s: State, w: nat, email: string)
    ensures Team(s, w) == set u | u in s.db.users && s.db.users[u].workspace == Some(w) && s.db.users[u].active
                                  && s.db.users[u].role != Owner
    ensures Waiting(s, w) == set i | i in s.invites && s.invites[i].workspace == w && s.invites[i].status == Pending
                                     && s.now < s.invites[i].expires
    ensures OwnerRows(s, email) + MemberRows(s, email)
      == set u | u in s.db.users && s.db.users[u].email == email && s.db.users[u].active
                 && exists v :: v in s.db.workspaces && s.db.workspaces[v].active && s.db.users[u].workspace == Some(v)
    ensures forall u :: u in OwnerRows(s, email) ==> s.db.users[u].role == Owner
    ensures forall u :: u in MemberRows(s, email) ==> s.db.users[u].role != Owner
  {
  }

  ghost predicate OnInvitation(s: State, w: nat, email: string) {
    exists i :: i in s.invites && s.invites[i].workspace == w && s.invites[i].email == email
                && s.invites[i].status == Pending && s.now < s.invites[i].expires
  }

  ghost predicate InWorkspace(s: State, w: nat, email: string) {
    exists u :: u in s.db.users && s.db.users[u].workspace == Some(w) && s.db.users[u].email == email
  }

  /**
   * Every seat of the plan can be invited to, the last one included: an owner is refused only for somebody who is in
   * or invited already, or when the owner's five or two seats are all taken.
   */
  lemma InvitedExactly(s: State, asOwner: bool, w: nat, email: string, id: nat)
    ensures var reply, t := InviteReply(s, asOwner, w, email), Next(s, Send(asOwner, w, email, id));
      var known := InWorkspace(s, w, email) || OnInvitation(s, w, email);
      var plan := if w in s.db.workspaces then s.db.workspaces[w].display.plan else Free;
      && (reply == Forbidden <==> !asOwner)
      && (reply == AlreadyMember <==> asOwner && InWorkspace(s, w, email))
      && (reply == AlreadySent <==> asOwner && !InWorkspace(s, w, email) && OnInvitation(s, w, email))
      && (reply == NoSeats <==> asOwner && !known && !Below(plan, |Team(s, w)| + |Waiting(s, w)|, 5, 2))
      && (reply == Done <==> asOwner && !known && Below(plan, |Team(s, w)| + |Waiting(s, w)|, 5, 2))
      && t.db == s.db && t.now == s.now
      && t.invites == if reply == Done then s.invites[id := Invite(w, email, Pending, s.now + 7 * 24 * 60 * 60)]
                      else s.invites
  {
  }

  /** Revoking marks the one invitation, and a live one gives its seat back. */
  lemma RevokedExactly(s: State, asOwner: bool, w: nat, id: nat)
    ensures var reply, t := RevokeReply(s, asOwner, w, id), Next(s, Revoke(asOwner, w, id));
      var found := id in s.invites && s.invites[id].workspace == w && s.invites[id].status == Pending;
      && (reply == Forbidden <==> !asOwner) && (reply == NotFound <==> asOwner && !found)
      && (reply == Done <==> asOwner && found)
      && t.db == s.db && t.now == s.now && t.invites.Keys == s.invites.Keys
      && (forall i :: i in s.invites && !(i == id && reply == Done) ==> t.invites[i] == s.invites[i])
      && (reply == Done ==>
            && t.invites[id] == Invite(w, s.invites[id].email, Revoked, s.invites[id].expires)
            && |Waiting(t, w)| == |Waiting(s, w)| - if s.now < s.invites[id].expires then 1 else 0)
  {
    var t := Next(s, Revoke(asOwner, w, id));
    if RevokeReply(s, asOwner, w, id).Done? {
      assert Waiting(t, w) == Waiting(s, w) - {id};
    }
  }

  ghost predicate IsOpen(s: State, id: nat) {
    id in s.invites && s.invites[id].status == Pending && s.now < s.invites[id].expires
  }

  /** One active member row for the invited email, the invitation spent, and everything else as it was. */
  ghost predicate HasJoined(s: State, t: State, id: nat, user: nat)
    requires id in s.invites
  {
    var i := s.invites[id];
    && t.now == s.now && t.db.accounts == s.db.accounts && t.db.workspaces == s.db.workspaces
    && t.db.users.Keys == s.db.users.Keys + {user}
    && t.db.users[user] == User(Some(i.workspace), i.email, Member, true)
    && (forall u :: u in s.db.users && u != user ==> t.db.users[u] == s.db.users[u])
    && t.invites == s.invites[id := Invite(i.workspace, i.email, Accepted, i.expires)]
  }

  /** A new account gets in exactly through an open invitation to an email that has none. */
  lemma NewUserJoinsExactly(s: State, id: nat, user: nat)
    ensures var reply, t := NewUserReply(s, id), Next(s, AcceptAsNew(id, user));
      && (reply == Invalid <==> !IsOpen(s, id))
      && (reply == AccountExists <==>
            IsOpen(s, id) && exists u :: u in s.db.users && s.db.users[u].email == s.invites[id].email)
      && (reply in {Invalid, AccountExists, Done})
      && if reply == Done then HasJoined(s, t, id, user) else t == s
  {
  }

  /** An account gets in exactly through an open invitation to its own email, once, while its plan has room. */
  lemma ExistingUserJoinsExactly(s: State, id: nat, email: string, user: nat)
    ensures var reply, t := ExistingUserReply(s, id, email), Next(s, AcceptAsExisting(id, email, user));
      var plan := if email in s.db.accounts then s.db.accounts[email].plan else Free;
      && (reply == Invalid <==> !IsOpen(s, id))
      && (reply == WrongAccount <==> IsOpen(s, id) && s.invites[id].email != email)
      && (reply == AlreadyMember <==>
            IsOpen(s, id) && s.invites[id].email == email && InWorkspace(s, s.invites[id].workspace, email))
      && (reply == Done <==>
            && IsOpen(s, id) && s.invites[id].email == email && !InWorkspace(s, s.invites[id].workspace, email)
            && Below(plan, |MemberRows(s, email)|, 3, 1))
      && (reply in {Invalid, WrongAccount, AlreadyMember, NoRoom, Done})
      && if reply == Done then HasJoined(s, t, id, user) else t == s
  {
  }

  /** A known caller makes a workspace exactly while its account's plan has room for one more. */
  lemma CreatesExactly(s: State, me: nat, w: nat, user: nat)
    requires w !in s.db.workspaces
    ensures var t := Next(s, Create(me, w, user));
      && t.invites == s.invites && t.now == s.now
      && (w in t.db.workspaces <==>
            && me in s.db.users
            && var email := s.db.users[me].email;
               var plan := if email in s.db.accounts then s.db.accounts[email].plan else Free;
               Below(plan, |OwnerRows(s, email)|, 3, 1))
      && t.db == if w in t.db.workspaces then AddWorkspace(s.db, me, w, user) else s.db
  {
  }

  /** An invitation holds its seat until it expires, and then gives it back. */
  lemma ExpiryFreesSeat(s: State, until: Time, id: nat)
    requires IsOpen(s, id) && Allowed(s, Wait(until))
    ensures var t, w := Next(s, Wait(until)), s.invites[id].workspace;
      && t.db == s.db && t.invites == s.invites
      && (id in Waiting(t, w) <==> until < s.invites[id].expires)
      && |Waiting(t, w)| <= |Waiting(s, w)| - if until < s.invites[id].expires then 0 else 1
  {
    var t, w := Next(s, Wait(until)), s.invites[id].workspace;
    SubsetSize(Waiting(t, w), Waiting(s, w) - if until < s.invites[id].expires then {} else {id});
  }

  /** A paid tier is at once that of every active workspace the account owns, and of the account itself. */
  lemma RaiseGivesRoom(s: State, email: string, f: Fields, w: nat)
    requires References(s) && f.plan.Put? && w in s.db.workspaces && s.db.workspaces[w].active
    requires Owns(s.db.users, email, w)
    ensures var t := Next(s, Raise(email, f));
      && Seats(t, w) == PlanLimits(f.plan.value).seats && Tier(t, email) == PlanLimits(f.plan.value)
      && t.invites == s.invites && t.now == s.now && t.db.users == s.db.users
  {
  }

  ghost predicate IsRun(states: seq<State>, steps: seq<Step>) {
    && |states| == |steps| + 1
    && forall i :: 0 <= i < |steps| ==> Allowed(states[i], steps[i]) && states[i + 1] == Next(states[i], steps[i])
  }

  /** Along every run, seats and workspace caps are kept. */
  lemma {:induction false} QuotasHoldOnEveryRun(states: seq<State>, steps: seq<Step>, k: nat)
    requires IsRun(states, steps) && Inv(states[0]) && k < |states|
    ensures Inv(states[k])
  {
    if k > 0 {
      QuotasHoldOnEveryRun(states, steps, k - 1);
      StepKeeps(states[k - 1], steps[k - 1]);
      assert states[(k - 1) + 1] == Next(states[k - 1], steps[k - 1]);
    }
  }

  // ----- the handlers, statement by statement

  class Desk {
    var db: Db
    var invites: map<nat, Invite>
    var now: Time

    constructor (s: State)
      ensures Current() == s
    {
      db, invites, now := s.db, s.invites, s.now;
    }

    function Current(): State
      reads this
    {
      State(db, invites, now)
    }

    method CreateInvitation(asOwner: bool, w: nat, email: string, id: nat) returns (reply: Reply)
      modifies `invites
      ensures reply == InviteReply(old(Current()), asOwner, w, email)
      ensures Current() == AfterInvite(old(Current()), asOwner, w, email, id)
    {
      if !asOwner {
        return Forbidden;
      }
      if IsMember(Current(), w, email) {
        return AlreadyMember;
      }
      if Invited(Current(), w, email) {
        return AlreadySent;
      }
      var seats := Seats(Current(), w);
      if seats.Finite? {
        var members, pending := |Team(Current(), w)|, |Waiting(Current(), w)|;
        if members + pending >= seats.max {
          return NoSeats;
        }
      }
      invites := invites[id := Invite(w, email, Pending, now + INVITE_TTL)];
      reply := Done;
    }

    method RevokeInvitation(asOwner: bool, w: nat, id: nat) returns (reply: Reply)
      modifies `invites
      ensures reply == RevokeReply(old(Current()), asOwner, w, id)
      ensures Current() == AfterRevoke(old(Current()), asOwner, w, id)
    {
      if !asOwner {
        return Forbidden;
      }
      if id !in invites || invites[id].workspace != w || !invites[id].status.Pending? {
        return NotFound;
      }
      invites := invites[id := invites[id].(status := Revoked)];
      reply := Done;
    }

    /** The two statements of joining. */
    method JoinWorkspace(id: nat, user: nat, answered: nat) returns (ok: bool)
      requires id in invites && invites[id].status.Pending?
      modifies `db, `invites
      ensures ok <==> answered >= 2
      ensures ok ==> Current() == Joined(old(Current()), id, user)
    {
      if answered < 1 {
        return false;
      }
      var i := invites[id];
      db := db.(users := db.users[user := User(Some(i.workspace), i.email, Member, true)]);
      if answered < 2 {
        return false;
      }
      if invites[id].status.Pending? {
        invites := invites[id := i.(status := Accepted)];
      }
      ok := true;
    }

    /** `answered` is the number of statements the database answers; a transaction cut short is rolled back. */
    method AcceptAsNewUser(id: nat, user: nat, answered: nat) returns (reply: Reply)
      modifies `db, `invites
      ensures reply == Failed ==> answered < 5 && Current() == old(Current())
      ensures reply != Failed ==>
        reply == NewUserReply(old(Current()), id) && Current() == AfterNewUser(old(Current()), id, user)
    {
      if answered < 1 {
        return Failed;
      }
      if id !in invites || !Live(invites[id], now) {
        return Invalid;
      }
      if answered < 2 {
        return Failed;
      }
      if HasAccount(Current(), invites[id].email) {
        return AccountExists;
      }
      reply := Commit(id, user, answered - 2);
    }

    /** As an account that is signed in under `email`. */
    method AcceptAsExistingUser(id: nat, email: string, user: nat, answered: nat) returns (reply: Reply)
      modifies `db, `invites
      ensures reply == Failed ==> answered < 8 && Current() == old(Current())
      ensures reply != Failed ==>
        reply == ExistingUserReply(old(Current()), id, email)
        && Current() == AfterExistingUser(old(Current()), id, email, user)
    {
      if answered < 1 {
        return Failed;
      }
      if id !in invites || !Live(invites[id], now) {
        return Invalid;
      }
      if email != invites[id].email {
        return WrongAccount;
      }
      if answered < 2 {
        return Failed;
      }
      if IsMember(Current(), invites[id].workspace, email) {
        return AlreadyMember;
      }
      if answered < 4 {
        return Failed;
      }
      if !CanJoin(Current(), email) {
        return NoRoom;
      }
      if answered < 5 {
        return Failed;
      }
      reply := Commit(id, user, answered - 5);
    }

    /** Joins and commits, or rolls back. */
    method Commit(id: nat, user: nat, answered: nat) returns (reply: Reply)
      requires id in invites && invites[id].status.Pending?
      modifies `db, `invites
      ensures reply == if answered >= 3 then Done else Failed
      ensures Current() == if answered >= 3 then Joined(old(Current()), id, user) else old(Current())
    {
      var savedDb, savedInvites := db, invites;
      var ok := JoinWorkspace(id, user, answered);
      if !ok || answered < 3 {
        db, invites := savedDb, savedInvites;
        return Failed;
      }
      reply := Done;
    }
  }
}
