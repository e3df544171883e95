/**
 * Account-level billing rows and the copy of them kept on every workspace an account owns.
 */
module Accounts {
  import opened Options
  import opened Plans

  /** Seconds. */
  type Time = int

  datatype Status = Active | Trialing | PastDue | Paused | Canceled | Comped

  datatype Account = Account(
    plan: Plan,
    status: Option<Status>,
    interval: Option<Interval>,
    periodEnd: Option<Time>,
    pendingPlan: Option<Plan>,
    pendingInterval: Option<Interval>,
    pendingAt: Option<Time>,
    subscription: Option<string>)

  /** What an account without a billing row counts as. */
  const FREE_ACCOUNT := Account(Free, None, None, None, None, None, None, None)

  /** The seven mirrored columns of a workspace. */
  datatype Display = Display(
    plan: Plan,
    status: Option<Status>,
    interval: Option<Interval>,
    periodEnd: Option<Time>,
    pendingPlan: Option<Plan>,
    pendingInterval: Option<Interval>,
    pendingAt: Option<Time>)

  function DisplayOf(a: Account): Display {
    Display(a.plan, a.status, a.interval, a.periodEnd, a.pendingPlan, a.pendingInterval, a.pendingAt)
  }

  /** Each of the seven columns is the account's. */
  predicate Shows(d: Display, a: Account) {
    && d.plan == a.plan && d.status == a.status && d.interval == a.interval && d.periodEnd == a.periodEnd
    && d.pendingPlan == a.pendingPlan && d.pendingInterval == a.pendingInterval && d.pendingAt == a.pendingAt
  }

  datatype Role = Owner | Member

  datatype User = User(workspace: Option<nat>, email: string, role: Role, active: bool)

  datatype Workspace = Workspace(active: bool, display: Display)

  /** One column of a partial update: left alone, or given a value. */
  datatype Put<T> = Keep | Put(value: T) {
    function Over(current: T): T {
      if Put? then value else current
    }
  }

  datatype Fields = Fields(
    plan: Put<Plan>,
    status: Put<Option<Status>>,
    interval: Put<Option<Interval>>,
    periodEnd: Put<Option<Time>>,
    pendingPlan: Put<Option<Plan>>,
    pendingInterval: Put<Option<Interval>>,
    pendingAt: Put<Option<Time>>,
    subscription: Put<Option<string>>)

  const KEEP_ALL := Fields(Keep, Keep, Keep, Keep, Keep, Keep, Keep, Keep)

  const CLEAR_PENDING := KEEP_ALL.(pendingPlan := Put(None), pendingInterval := Put(None), pendingAt := Put(None))

  /** The fields of a reset to the free plan. The provider's subscription id is not among them. */
  function ResetTo(status: Option<Status>): Fields {
    CLEAR_PENDING.(plan := Put(Free), status := Put(status), interval := Put(None), periodEnd := Put(None))
  }

  function Patched(a: Account, f: Fields): Account {
    Account(f.plan.Over(a.plan), f.status.Over(a.status), f.interval.Over(a.interval),
            f.periodEnd.Over(a.periodEnd), f.pendingPlan.Over(a.pendingPlan),
            f.pendingInterval.Over(a.pendingInterval), f.pendingAt.Over(a.pendingAt),
            f.subscription.Over(a.subscription))
  }

  datatype Db = Db(accounts: map<string, Account>, workspaces: map<nat, Workspace>, users: map<nat, User>)

  function GetAccount(accounts: map<string, Account>, email: string): Account {
    if email in accounts then accounts[email] else FREE_ACCOUNT
  }

  predicate IsOwnerRow(u: User, email: string, workspace: nat) {
    u.workspace == Some(workspace) && u.role.Owner? && u.active && u.email == email
  }

  predicate Owns(users: map<nat, User>, email: string, workspace: nat) {
    exists u :: u in users && IsOwnerRow(users[u], email, workspace)
  }

  function Mirrored(workspaces: map<nat, Workspace>, users: map<nat, User>, email: string, d: Display)
    : map<nat, Workspace>
  {
    map w | w in workspaces ::
      if workspaces[w].active && Owns(users, email, w) then workspaces[w].(display := d) else workspaces[w]
  }

  /** A successful write of some columns of one account, with its mirror. */
  function Write(db: Db, email: string, f: Fields): Db {
    var a := Patched(GetAccount(db.accounts, email), f);
    db.(accounts := db.accounts[email := a],
        workspaces := Mirrored(db.workspaces, db.users, email, DisplayOf(a)))
  }

  /**
   * A new workspace for the person behind user row `me`: a row that has no workspace yet becomes
   * the owner row, any other is copied into a fresh owner row `newUser`.
   */
  function AddWorkspace(db: Db, me: nat, newWorkspace: nat, newUser: nat): Db
    requires me in db.users
  {
    var email := db.users[me].email;
    var users :=
      if db.users[me].workspace.None?
      then db.users[me := db.users[me].(workspace := Some(newWorkspace), role := Owner)]
      else db.users[newUser := User(Some(newWorkspace), email, Owner, true)];
    var a := GetAccount(db.accounts, email);
    var inserted := db.workspaces[newWorkspace := Workspace(true, DisplayOf(FREE_ACCOUNT))];
    Db(db.accounts[email := a], Mirrored(inserted, users, email, DisplayOf(a)), users)
  }

  /** Every user row that names a workspace names one that exists. */
  ghost predicate ForeignKeysHold(db: Db) {
    forall u :: u in db.users && db.users[u].workspace.Some? ==> db.users[u].workspace.value in db.workspaces
  }

  /** A workspace has at most one owning account. */
  ghost predicate OneOwner(users: map<nat, User>) {
    forall w: nat, e, f :: Owns(users, e, w) && Owns(users, f, w) ==> e == f
  }

  /** Every active workspace shows exactly its owner's account. */
  ghost predicate MirrorHolds(db: Db) {
    forall w, email :: w in db.workspaces && db.workspaces[w].active && Owns(db.users, email, w) ==>
      Shows(db.workspaces[w].display, GetAccount(db.accounts, email))
  }

  ghost predicate Sound(db: Db) {
    ForeignKeysHold(db) && OneOwner(db.users) && MirrorHolds(db)
  }

  /** A write for one email keeps the mirror, and leaves every other account and every workspace of others alone. */
  lemma WriteKeepsMirror(db: Db, email: string, f: Fields)
    requires Sound(db)
    ensures Sound(Write(db, email, f))
    ensures Write(db, email, f).users == db.users
    ensures forall e :: e != email ==> GetAccount(Write(db, email, f).accounts, e) == GetAccount(db.accounts, e)
    ensures Write(db, email, f).workspaces.Keys == db.workspaces.Keys
    ensures forall w :: w in db.workspaces && !Owns(db.users, email, w) ==>
      Write(db, email, f).workspaces[w] == db.workspaces[w]
    ensures forall w :: w in db.workspaces && db.workspaces[w].active && Owns(db.users, email, w) ==>
      Shows(Write(db, email, f).workspaces[w].display, Patched(GetAccount(db.accounts, email), f))
  {
    var db' := Write(db, email, f);
    forall w, e | w in db'.workspaces && db'.workspaces[w].active && Owns(db'.users, e, w)
      ensures Shows(db'.workspaces[w].display, GetAccount(db'.accounts, e))
    {
      assert Owns(db.users, e, w);
      if e == email {
        assert Shows(db'.workspaces[w].display, db'.accounts[email]);
      } else {
        assert !Owns(db.users, email, w);
      }
    }
  }

  /** The rows of a new workspace: no user could name it before, so only the new owner row owns it. */
  lemma OwnersAfterAdd(db: Db, me: nat, newWorkspace: nat, newUser: nat, e: string, w: nat)
    requires ForeignKeysHold(db)
    requires me in db.users && newUser !in db.users && newWorkspace !in db.workspaces
    ensures w != newWorkspace ==>
      (Owns(AddWorkspace(db, me, newWorkspace, newUser).users, e, w) <==> Owns(db.users, e, w))
    ensures Owns(AddWorkspace(db, me, newWorkspace, newUser).users, e, newWorkspace) ==> e == db.users[me].email
  {
    var users := AddWorkspace(db, me, newWorkspace, newUser).users;
    if w != newWorkspace {
      if Owns(db.users, e, w) {
        var u :| u in db.users && IsOwnerRow(db.users[u], e, w);
        assert users[u] == db.users[u];
      }
      if Owns(users, e, w) {
        var u :| u in users && IsOwnerRow(users[u], e, w);
        assert db.users[u] == users[u];
      }
    }
    if Owns(users, e, newWorkspace) {
      var u :| u in users && IsOwnerRow(users[u], e, newWorkspace);
      assert u == me || u == newUser;
    }
  }

  lemma AddKeepsMirror(db: Db, me: nat, newWorkspace: nat, newUser: nat)
    requires Sound(db)
    requires me in db.users && newUser !in db.users && newWorkspace !in db.workspaces
    ensures Sound(AddWorkspace(db, me, newWorkspace, newUser))
    ensures forall e ::
      GetAccount(AddWorkspace(db, me, newWorkspace, newUser).accounts, e) == GetAccount(db.accounts, e)
  {
    var db' := AddWorkspace(db, me, newWorkspace, newUser);
    forall w: nat, e, f | Owns(db'.users, e, w) && Owns(db'.users, f, w)
      ensures e == f
    {
      OwnersAfterAdd(db, me, newWorkspace, newUser, e, w);
      OwnersAfterAdd(db, me, newWorkspace, newUser, f, w);
    }
    forall w, e | w in db'.workspaces && db'.workspaces[w].active && Owns(db'.users, e, w)
      ensures Shows(db'.workspaces[w].display, GetAccount(db'.accounts, e))
    {
      OwnersAfterAdd(db, me, newWorkspace, newUser, e, w);
    }
  }

  /**
   * The person's row without a workspace, or else a fresh and active copy, becomes the owner row; every other row,
   * and every other workspace, is as it was. A row that is active owns the workspace, which then shows its account.
   */
  lemma CreatorOwnsNewWorkspace(db: Db, me: nat, newWorkspace: nat, newUser: nat)
    requires Sound(db)
    requires me in db.users && newUser !in db.users && newWorkspace !in db.workspaces
    ensures var t, was := AddWorkspace(db, me, newWorkspace, newUser), db.users[me];
      var row := if was.workspace.None? then me else newUser;
      && t.users.Keys == db.users.Keys + {row} && t.workspaces.Keys == db.workspaces.Keys + {newWorkspace}
      && t.users[row].email == was.email && t.users[row].role.Owner? && t.users[row].workspace == Some(newWorkspace)
      && (t.users[row].active <==> was.workspace.Some? || was.active)
      && (forall u :: u in db.users && u != row ==> t.users[u] == db.users[u])
      && (forall w :: w in db.workspaces ==> t.workspaces[w] == db.workspaces[w])
      && t.workspaces[newWorkspace].active
      && (Owns(t.users, was.email, newWorkspace) <==> was.workspace.Some? || was.active)
      && Shows(t.workspaces[newWorkspace].display,
               if was.workspace.Some? || was.active then GetAccount(db.accounts, was.email) else FREE_ACCOUNT)
  {
    var t, was := AddWorkspace(db, me, newWorkspace, newUser), db.users[me];
    var row := if was.workspace.None? then me else newUser;
    assert IsOwnerRow(t.users[row], was.email, newWorkspace) <==> was.workspace.Some? || was.active;
    forall w | w in db.workspaces
      ensures t.workspaces[w] == db.workspaces[w]
    {
      OwnersAfterAdd(db, me, newWorkspace, newUser, was.email, w);
    }
  }

  function AddMember(db: Db, user: nat, workspace: nat, email: string): Db {
    db.(users := db.users[user := User(Some(workspace), email, Member, true)])
  }

  function Remove(db: Db, users: set<nat>, workspaces: set<nat>, emails: set<string>): Db {
    Db(db.accounts - emails, db.workspaces - workspaces, db.users - users)
  }

  /** The users of a removed workspace go with it, and a billing row only once its email owns nothing any more. */
  predicate Removable(db: Db, users: set<nat>, workspaces: set<nat>, emails: set<string>) {
    && (forall u :: u in db.users && db.users[u].workspace.Some? && db.users[u].workspace.value in workspaces ==>
          u in users)
    && (forall u :: u in db.users && u !in users && db.users[u].email in emails ==> !db.users[u].role.Owner?)
  }

  lemma MemberKeepsMirror(db: Db, user: nat, workspace: nat, email: string)
    requires Sound(db) && user !in db.users && workspace in db.workspaces
    ensures Sound(AddMember(db, user, workspace, email))
  {
    forall e, w: nat
      ensures Owns(AddMember(db, user, workspace, email).users, e, w) ==> Owns(db.users, e, w)
    {
    }
  }

  lemma RemoveKeepsMirror(db: Db, users: set<nat>, workspaces: set<nat>, emails: set<string>)
    requires Sound(db) && Removable(db, users, workspaces, emails)
    ensures Sound(Remove(db, users, workspaces, emails))
  {
    forall e, w: nat
      ensures Owns(Remove(db, users, workspaces, emails).users, e, w) ==> Owns(db.users, e, w) && e !in emails
    {
    }
  }

  /**
   * One database step: a billing write for some email, a new workspace or a member who joins one with fresh ids, or
   * a deletion, of an account with what it owns or of any user rows.
   */
  datatype Step =
    | WriteFields(email: string, fields: Fields)
    | NewWorkspace(me: nat, workspace: nat, user: nat)
    | Join(user: nat, workspace: nat, email: string)
    | Delete(users: set<nat>, workspaces: set<nat>, emails: set<string>)

  predicate Allowed(db: Db, s: Step) {
    match s
    case WriteFields(_, _) => true
    case NewWorkspace(me, workspace, user) => me in db.users && user !in db.users && workspace !in db.workspaces
    case Join(user, workspace, _) => user !in db.users && workspace in db.workspaces
    case Delete(users, workspaces, emails) => Removable(db, users, workspaces, emails)
  }

  function Next(db: Db, s: Step): Db
    requires Allowed(db, s)
  {
    match s
    case WriteFields(email, fields) => Write(db, email, fields)
    case NewWorkspace(me, workspace, user) => AddWorkspace(db, me, workspace, user)
    case Join(user, workspace, email) => AddMember(db, user, workspace, email)
    case Delete(users, workspaces, emails) => Remove(db, users, workspaces, emails)
  }

  ghost predicate IsRun(states: seq<Db>, steps: seq<Step>) {
    && |states| == |steps| + 1
    && forall i :: 0 <= i < |steps| ==> Allowed(states[i], steps[i]) && states[i + 1] == Next(states[i], steps[i])
  }

  /** Along every run the workspaces show their owners' accounts. */
  lemma {:induction false} MirrorHoldsOnEveryRun(states: seq<Db>, steps: seq<Step>, k: nat)
    requires IsRun(states, steps) && Sound(states[0]) && k < |states|
    ensures Sound(states[k])
  {
    if k > 0 {
      MirrorHoldsOnEveryRun(states, steps, k - 1);
      var db, s := states[k - 1], steps[k - 1];
      assert states[(k - 1) + 1] == Next(db, s);
      match s {
        case WriteFields(email, fields) => WriteKeepsMirror(db, email, fields);
        case NewWorkspace(me, workspace, user) => AddKeepsMirror(db, me, workspace, user);
        case Join(user, workspace, email) => MemberKeepsMirror(db, user, workspace, email);
        case Delete(users, workspaces, emails) => RemoveKeepsMirror(db, users, workspaces, emails);
      }
    }
  }

  /** The tables, updated statement by statement inside transactions. */
  class Store {
    var accounts: map<string, Account>
    var workspaces: map<nat, Workspace>
    var users: map<nat, User>

    function Rows(): Db reads this { Db(accounts, workspaces, users) }

    constructor (db: Db)
      ensures Rows() == db
    {
      accounts, workspaces, users := db.accounts, db.workspaces, db.users;
    }

    method InsertIgnore(email: string)
      modifies `accounts
      ensures accounts == old(accounts)[email := GetAccount(old(accounts), email)]
    {
      if email !in accounts {
        accounts := accounts[email := FREE_ACCOUNT];
      }
    }

    /** The active workspaces that the email owns show its account's columns; every other one is as it was. */
    method MirrorAccountToTenants(email: string)
      modifies `workspaces
      ensures workspaces == Mirrored(old(workspaces), users, email, DisplayOf(GetAccount(accounts, email)))
      ensures workspaces.Keys == old(workspaces).Keys
      ensures forall u, w :: u in users && w in workspaces && users[u].workspace == Some(w)
                             && users[u].role.Owner? && users[u].active && users[u].email == email
                             && workspaces[w].active ==>
        Shows(workspaces[w].display, GetAccount(accounts, email))
      ensures forall w :: w in workspaces ==> workspaces[w].active == old(workspaces)[w].active
      ensures forall w :: w in workspaces && workspaces[w] != old(workspaces)[w] ==>
        && workspaces[w].active
        && (exists u :: u in users && users[u].workspace == Some(w) && users[u].role.Owner? && users[u].active
                        && users[u].email == email)
    {
      var a := GetAccount(accounts, email);
      workspaces := Mirrored(workspaces, users, email, DisplayOf(a));
      assert forall u, w :: u in users && IsOwnerRow(users[u], email, w) ==> Owns(users, email, w);
    }

    /** How many statements a write sends: insert, update when some column is given, select, mirror, commit. */
    static function StatementsOf(f: Fields): nat {
      if f == KEEP_ALL then 4 else 5
    }

    /** The statements up to the commit; stops where the database stops answering. */
    method RunWrite(email: string, f: Fields, answered: nat) returns (ok: bool)
      modifies `accounts, `workspaces
      ensures ok == (answered >= StatementsOf(f))
      ensures ok ==> Rows() == Write(old(Rows()), email, f)
    {
      if answered == 0 { return false; }
      InsertIgnore(email);
      var left := answered - 1;
      if f != KEEP_ALL {
        if left == 0 { return false; }
        accounts := accounts[email := Patched(accounts[email], f)];
        left := left - 1;
      }
      if left < 2 { return false; }
      MirrorAccountToTenants(email);
      return left >= 3;
    }

    /**
     * The transaction. `answered` is the number of statements the database answers before it
     * fails; a failed transaction is rolled back.
     */
    method SetAccountPlan(email: string, f: Fields, answered: nat) returns (ok: bool)
      modifies `accounts, `workspaces
      ensures ok == (email != "" && answered >= StatementsOf(f))
      ensures Rows() == if ok then Write(old(Rows()), email, f) else old(Rows())
    {
      if email == "" { return false; }
      var savedAccounts, savedWorkspaces := accounts, workspaces;
      ok := RunWrite(email, f, answered);
      if !ok {
        accounts, workspaces := savedAccounts, savedWorkspaces;
      }
    }

    method ResetAccountToFree(email: string, status: Option<Status>, answered: nat) returns (ok: bool)
      modifies `accounts, `workspaces
      ensures ok == (email != "" && answered >= StatementsOf(ResetTo(status)))
      ensures Rows() == if ok then Write(old(Rows()), email, ResetTo(status)) else old(Rows())
    {
      ok := SetAccountPlan(email, ResetTo(status), answered);
    }

    /**
     * The transaction that makes a workspace: the name check, the inserts, the account row, the
     * mirror, the roadmap columns, the commit. A taken name or an unknown caller rolls back too.
     */
    method CreateWorkspace(me: nat, newWorkspace: nat, newUser: nat, taken: bool, answered: nat) returns (ok: bool)
      requires newWorkspace !in workspaces && newUser !in users
      modifies this
      ensures ok == (!taken && me in old(users) && answered >= 10)
      ensures Rows() == if ok then AddWorkspace(old(Rows()), me, newWorkspace, newUser) else old(Rows())
    {
      var savedAccounts, savedWorkspaces, savedUsers := accounts, workspaces, users;
      ok := RunCreate(me, newWorkspace, newUser, taken, answered);
      if !ok {
        accounts, workspaces, users := savedAccounts, savedWorkspaces, savedUsers;
      }
    }

    method RunCreate(me: nat, newWorkspace: nat, newUser: nat, taken: bool, answered: nat) returns (ok: bool)
      requires newWorkspace !in workspaces && newUser !in users
      modifies this
      ensures ok == (!taken && me in old(users) && answered >= 10)
      ensures ok ==> Rows() == AddWorkspace(old(Rows()), me, newWorkspace, newUser)
    {
      if answered < 1 || taken { return false; }
      if answered < 2 || me !in users { return false; }
      var email := users[me].email;
      if answered < 3 { return false; }
      workspaces := workspaces[newWorkspace := Workspace(true, DisplayOf(FREE_ACCOUNT))];
      if answered < 4 { return false; }
      if users[me].workspace.None? {
        users := users[me := users[me].(workspace := Some(newWorkspace), role := Owner)];
      } else {
        users := users[newUser := User(Some(newWorkspace), email, Owner, true)];
      }
      if answered < 6 { return false; }
      InsertIgnore(email);
      if answered < 8 { return false; }
      MirrorAccountToTenants(email);
      return answered >= 10;
    }
  }
}
