/**
 * Redemptions of one promo code, statement by statement, by any number of clients at once.
 *
 * A claim is a transaction: the conditional increment takes the code's row lock, the insert runs
 * against the unique index on the account, and a commit publishes both. A release is two
 * statements of their own. Every statement names one promo code, so other codes do not interfere.
 */
module PromoLedger {
  import opened Options

  type Time = int
  type Id = nat

  datatype Promo = Promo(active: bool, expiresAt: Option<Time>, max: Option<nat>, times: nat)

  /** A ledger row: who redeemed, from which workspace. */
  datatype Entry = Entry(account: string, workspace: nat)

  /** Where a client stands. A claim is known by the id of the ledger row it inserted. */
  datatype Client =
    | Away
    | Granted(claim: Id, account: string)
    | Releasing(claim: Id, account: string)

  /** The open claim transaction, which holds the lock of the code's row. */
  datatype Claim = Claim(client: nat, entry: Entry, inserted: bool)

  /**
   * `charged` remembers the claims whose increment still stands, `owner` whose claims they were, and
   * `lossy` whether a workspace deletion took a row along or a release stopped half way; the code
   * itself keeps none of them.
   */
  datatype Ledger = Ledger(
    promo: Promo,
    rows: map<Id, Entry>,
    workspaces: set<nat>,
    clients: map<nat, Client>,
    claim: Option<Claim>,
    nextId: Id,
    charged: set<Id>,
    owner: map<Id, nat>,
    lossy: bool)

  function At(l: Ledger, client: nat): Client {
    if client in l.clients then l.clients[client] else Away
  }

  predicate Claimable(p: Promo, now: Time) {
    p.active && (p.expiresAt.Some? ==> p.expiresAt.value > now) && (p.max.Some? ==> p.times < p.max.value)
  }

  predicate Redeemed(rows: map<Id, Entry>, account: string) {
    exists id :: id in rows && rows[id].account == account
  }

  datatype Step =
    | Increment(client: nat, entry: Entry, now: Time)
    | Insert
    | Commit
    | Rollback
    | Finish(client: nat)
    | ReleaseDelete(client: nat)
    | ReleaseDecrement(client: nat)
    | Abandon(client: nat)
    | Revoke
    | Reactivate(expiresAt: Option<Time>, max: Option<nat>)
    | WipeRows
    | ResetUsage(expiresAt: Option<Time>, max: Option<nat>)
    | AddWorkspace(workspace: nat)
    | DeleteWorkspace(workspace: nat)

  /**
   * When a statement can run. Statements that write the code's row wait for its lock, deleting a
   * workspace and wiping the rows wait for an insert, and an administrator neither resets the counter
   * while a claim is in flight or has a row nor reactivates under a cap already exceeded.
   */
  predicate Enabled(l: Ledger, s: Step) {
    match s
    case Increment(client, _, now) => l.claim.None? && At(l, client).Away? && Claimable(l.promo, now)
    case Insert =>
      && l.claim.Some? && !l.claim.value.inserted
      && !Redeemed(l.rows, l.claim.value.entry.account) && l.claim.value.entry.workspace in l.workspaces
    case Commit => l.claim.Some? && l.claim.value.inserted
    case Rollback => l.claim.Some?
    case Finish(client) => At(l, client).Granted?
    case ReleaseDelete(client) => At(l, client).Granted?
    case ReleaseDecrement(client) => At(l, client).Releasing? && l.claim.None?
    case Abandon(client) => !At(l, client).Away?
    case Revoke => l.claim.None?
    case Reactivate(_, max) => l.claim.None? && !l.promo.active && (max.Some? ==> l.promo.times <= max.value)
    case WipeRows => l.claim.Some? ==> !l.claim.value.inserted
    case ResetUsage(_, max) =>
      l.claim.None? && !l.promo.active && (max.Some? ==> max.value >= 1) && NobodyInFlight(l) && l.rows == map[]
    case AddWorkspace(_) => true
    case DeleteWorkspace(workspace) =>
      l.claim.Some? && l.claim.value.inserted ==> l.claim.value.entry.workspace != workspace
  }

  function Clamped(times: nat): nat { if times > 0 then times - 1 else 0 }

  function Reactivated(l: Ledger, expiresAt: Option<Time>, max: Option<nat>): Ledger {
    l.(promo := Promo(true, expiresAt, max, l.promo.times))
  }

  predicate NobodyInFlight(l: Ledger) {
    forall c :: c in l.clients ==> l.clients[c].Away?
  }

  /** The first statement of a reset: the rows go, and the counter still counts them. */
  function Wiped(l: Ledger): Ledger {
    l.(rows := map[], lossy := l.lossy || l.rows != map[])
  }

  /** The second statement. */
  function UsageReset(l: Ledger, expiresAt: Option<Time>, max: Option<nat>): Ledger {
    l.(promo := Promo(true, expiresAt, max, 0), charged := {}, lossy := false)
  }

  function Next(l: Ledger, s: Step): Ledger
    requires Enabled(l, s)
  {
    match s
    case Increment(client, entry, _) => l.(claim := Some(Claim(client, entry, false)))
    case Insert => l.(claim := Some(l.claim.value.(inserted := true)))
    case Commit =>
      var c := l.claim.value;
      l.(promo := l.promo.(times := l.promo.times + 1), rows := l.rows[l.nextId := c.entry],
         clients := l.clients[c.client := Granted(l.nextId, c.entry.account)], claim := None,
         nextId := l.nextId + 1, charged := l.charged + {l.nextId}, owner := l.owner[l.nextId := c.client])
    case Rollback => l.(claim := None)
    case Finish(client) => l.(clients := l.clients[client := Away])
    case ReleaseDelete(client) =>
      var c := At(l, client);
      l.(rows := map id | id in l.rows && l.rows[id].account != c.account :: l.rows[id],
         clients := l.clients[client := Releasing(c.claim, c.account)])
    case ReleaseDecrement(client) =>
      l.(promo := l.promo.(times := Clamped(l.promo.times)), clients := l.clients[client := Away],
         charged := l.charged - {At(l, client).claim})
    case Abandon(client) => l.(clients := l.clients[client := Away], lossy := l.lossy || At(l, client).Releasing?)
    case Revoke => l.(promo := l.promo.(active := false))
    case Reactivate(expiresAt, max) => Reactivated(l, expiresAt, max)
    case WipeRows => Wiped(l)
    case ResetUsage(expiresAt, max) => UsageReset(l, expiresAt, max)
    case AddWorkspace(workspace) => l.(workspaces := l.workspaces + {workspace})
    case DeleteWorkspace(workspace) =>
      l.(rows := map id | id in l.rows && l.rows[id].workspace != workspace :: l.rows[id],
         workspaces := l.workspaces - {workspace},
         lossy := l.lossy || exists id :: id in l.rows && l.rows[id].workspace == workspace)
  }

  /** The counter counts the standing claims, within the cap, and every row is a standing claim. */
  ghost predicate Counted(l: Ledger) {
    && l.promo.times == |l.charged|
    && (l.promo.max.Some? ==> l.promo.times <= l.promo.max.value)
    && (l.claim.Some? && l.promo.max.Some? ==> l.promo.times < l.promo.max.value)
    && l.rows.Keys <= l.charged <= l.owner.Keys
    && forall id :: id in l.charged ==> id < l.nextId
  }

  /** No account has two ledger rows, and an insert that went through will not make one. */
  ghost predicate OneRowEach(l: Ledger) {
    && (forall i, j :: i in l.rows && j in l.rows && l.rows[i].account == l.rows[j].account ==> i == j)
    && (l.claim.Some? && l.claim.value.inserted ==> !Redeemed(l.rows, l.claim.value.entry.account))
  }

  /** A client in flight has a standing claim of its own, without a row once it is being released. */
  ghost predicate ClientsTracked(l: Ledger) {
    && (l.claim.Some? ==> At(l, l.claim.value.client).Away?)
    && forall c :: c in l.clients && !l.clients[c].Away? ==>
         var k := l.clients[c];
         && k.claim in l.charged && k.claim in l.owner && l.owner[k.claim] == c
         && (k.claim in l.rows ==> k.Granted? && l.rows[k.claim].account == k.account)
  }

  /** Until something is lost, a standing claim without a row is one being released. */
  ghost predicate NothingLost(l: Ledger)
    requires l.charged <= l.owner.Keys
  {
    !l.lossy ==> forall id :: id in l.charged && id !in l.rows ==>
      At(l, l.owner[id]).Releasing? && At(l, l.owner[id]).claim == id
  }

  /** Every row, and every insert that went through, is of a workspace that exists. */
  predicate InWorkspaces(l: Ledger) {
    && (forall id :: id in l.rows ==> l.rows[id].workspace in l.workspaces)
    && (l.claim.Some? && l.claim.value.inserted ==> l.claim.value.entry.workspace in l.workspaces)
  }

  ghost predicate Inv(l: Ledger) {
    Counted(l) && OneRowEach(l) && ClientsTracked(l) && NothingLost(l) && InWorkspaces(l)
  }

  lemma CommitKeeps(l: Ledger)
    requires Inv(l) && Enabled(l, Commit)
    ensures Inv(Next(l, Commit))
  {
    assert l.nextId !in l.charged;
    assert Counted(Next(l, Commit));
    assert OneRowEach(Next(l, Commit));
    CommitTracksClients(l);
  }

  lemma CommitTracksClients(l: Ledger)
    requires Inv(l) && Enabled(l, Commit)
    ensures ClientsTracked(Next(l, Commit)) && Next(l, Commit).charged <= Next(l, Commit).owner.Keys
    ensures NothingLost(Next(l, Commit)) && InWorkspaces(Next(l, Commit))
  {
    assert l.nextId !in l.charged;
  }

  lemma ReleaseDeleteKeeps(l: Ledger, client: nat)
    requires Inv(l) && Enabled(l, ReleaseDelete(client))
    ensures Inv(Next(l, ReleaseDelete(client)))
  {
  }

  lemma ReleaseDecrementKeeps(l: Ledger, client: nat)
    requires Inv(l) && Enabled(l, ReleaseDecrement(client))
    ensures Inv(Next(l, ReleaseDecrement(client)))
    ensures l.promo.times > 0
  {
  }

  lemma DeleteWorkspaceKeeps(l: Ledger, workspace: nat)
    requires Inv(l) && Enabled(l, DeleteWorkspace(workspace))
    ensures Inv(Next(l, DeleteWorkspace(workspace)))
  {
  }

  lemma OtherKeeps(l: Ledger, s: Step)
    requires Inv(l) && Enabled(l, s)
    requires s.Increment? || s.Insert? || s.Rollback? || s.Finish? || s.Abandon? || s.Revoke? || s.Reactivate?
             || s.WipeRows? || s.ResetUsage? || s.AddWorkspace?
    ensures Inv(Next(l, s))
  {
  }

  lemma StepKeeps(l: Ledger, s: Step)
    requires Inv(l) && Enabled(l, s)
    ensures Inv(Next(l, s))
  {
    match s {
      case Commit => CommitKeeps(l);
      case ReleaseDelete(client) => ReleaseDeleteKeeps(l, client);
      case ReleaseDecrement(client) => ReleaseDecrementKeeps(l, client);
      case DeleteWorkspace(workspace) => DeleteWorkspaceKeeps(l, workspace);
      case _ => OtherKeeps(l, s);
    }
  }

  predicate IsRun(ls: seq<Ledger>, steps: seq<Step>) {
    && |ls| == |steps| + 1
    && forall i :: 0 <= i < |steps| ==> Enabled(ls[i], steps[i]) && ls[i + 1] == Next(ls[i], steps[i])
  }

  /** A code nobody has redeemed or is redeeming. */
  predicate Fresh(l: Ledger) {
    l.promo.times == 0 && l.rows == map[] && l.clients == map[] && l.claim.None? && l.charged == {} && !l.lossy
  }

  lemma {:induction false} RunKeeps(ls: seq<Ledger>, steps: seq<Step>, k: nat)
    requires IsRun(ls, steps) && Fresh(ls[0]) && k < |ls|
    ensures Inv(ls[k])
  {
    if k > 0 {
      RunKeeps(ls, steps, k - 1);
      StepKeeps(ls[k - 1], steps[k - 1]);
      assert ls[(k - 1) + 1] == Next(ls[k - 1], steps[k - 1]);
    }
  }

  /**
   * At every moment of every run: no account has two rows, every row is of a workspace that exists, rows never
   * outnumber redemptions nor redemptions the cap, the two numbers agree while nothing is lost or being released, and a
   * release never finds the counter at zero.
   */
  lemma LedgerAgreesWithCounter(ls: seq<Ledger>, steps: seq<Step>, k: nat)
    requires IsRun(ls, steps) && Fresh(ls[0]) && k < |ls|
    ensures forall i, j :: i in ls[k].rows && j in ls[k].rows && ls[k].rows[i].account == ls[k].rows[j].account ==>
      i == j
    ensures forall id :: id in ls[k].rows ==> ls[k].rows[id].workspace in ls[k].workspaces
    ensures |ls[k].rows| <= ls[k].promo.times
    ensures ls[k].promo.max.Some? ==> ls[k].promo.times <= ls[k].promo.max.value
    ensures !ls[k].lossy && (forall c :: c in ls[k].clients ==> !ls[k].clients[c].Releasing?) ==>
      |ls[k].rows| == ls[k].promo.times
    ensures k < |steps| && steps[k].ReleaseDecrement? ==> ls[k].promo.times > 0
  {
    RunKeeps(ls, steps, k);
    var l := ls[k];
    assert l.charged == l.rows.Keys + (l.charged - l.rows.Keys);
    if !l.lossy && forall c :: c in l.clients ==> !l.clients[c].Releasing? {
      assert l.charged == l.rows.Keys;
    }
    if k < |steps| && steps[k].ReleaseDecrement? {
      ReleaseDecrementKeeps(l, steps[k].client);
    }
  }

  /** No administrator switches the code on again. */
  predicate StaysOff(s: Step) {
    !s.Reactivate? && !s.ResetUsage?
  }

  /** Switched off, with nobody past the increment. */
  predicate Off(l: Ledger) {
    !l.promo.active && l.claim.None?
  }

  /** No redemption and no row has come since. */
  predicate NoneSince(was: Ledger, l: Ledger) {
    && l.promo.times <= was.promo.times
    && forall id :: id in l.rows ==> id in was.rows && l.rows[id] == was.rows[id]
  }

  lemma OffStep(was: Ledger, l: Ledger, s: Step)
    requires Enabled(l, s) && NoneSince(was, l) && (s.Revoke? || (Off(l) && StaysOff(s)))
    ensures Off(Next(l, s)) && NoneSince(was, Next(l, s))
  {
  }

  /**
   * After a revocation nothing is redeemed any more: until the code is switched on again no statement of any client
   * adds a row or a redemption, in any interleaving.
   */
  lemma {:induction false} RevokedIsNotRedeemed(ls: seq<Ledger>, steps: seq<Step>, from: nat, k: nat)
    requires IsRun(ls, steps) && from < k < |ls| && steps[from].Revoke?
    requires forall i :: from < i < k ==> StaysOff(steps[i])
    ensures Off(ls[k])
    ensures ls[k].promo.times <= ls[from].promo.times
    ensures forall id :: id in ls[k].rows ==> id in ls[from].rows && ls[k].rows[id] == ls[from].rows[id]
  {
    if k > from + 1 {
      RevokedIsNotRedeemed(ls, steps, from, k - 1);
    }
    OffStep(ls[from], ls[k - 1], steps[k - 1]);
    assert ls[(k - 1) + 1] == Next(ls[k - 1], steps[k - 1]);
  }

  /** Reactivating opens the code to a client exactly while the new date and the new cap leave room. */
  lemma ReactivatedOpensExactly(
    l: Ledger, expiresAt: Option<Time>, max: Option<nat>, client: nat, entry: Entry, now: Time)
    requires Enabled(l, Reactivate(expiresAt, max)) && At(l, client).Away?
    ensures !Enabled(l, Increment(client, entry, now))
    ensures Enabled(Next(l, Reactivate(expiresAt, max)), Increment(client, entry, now))
            <==> (expiresAt.Some? ==> now < expiresAt.value) && (max.Some? ==> l.promo.times < max.value)
  {
  }

  /** A client that has finished, released or given up may claim again, and nobody else's place moves. */
  lemma DoneIsAway(l: Ledger, s: Step, client: nat)
    requires s in {Finish(client), ReleaseDecrement(client), Abandon(client)} && Enabled(l, s)
    ensures var t := Next(l, s);
      && At(t, client).Away? && (forall c :: c != client ==> At(t, c) == At(l, c))
      && t.rows == l.rows && t.claim == l.claim && (t.promo == l.promo || s.ReleaseDecrement?)
  {
  }

  /** After both statements of a reset every account can redeem the code again, up to the whole new cap. */
  lemma ResetReopens(l: Ledger, expiresAt: Option<Time>, max: Option<nat>, client: nat, entry: Entry, now: Time)
    requires Enabled(l, WipeRows) && Enabled(Next(l, WipeRows), ResetUsage(expiresAt, max))
    ensures var t, claims := Next(Next(l, WipeRows), ResetUsage(expiresAt, max)), Increment(client, entry, now);
      && t.rows == map[] && t.promo.times == 0 && t.promo.max == max && !t.lossy
      && (Enabled(t, claims) <==> (expiresAt.Some? ==> now < expiresAt.value))
      && (Enabled(t, claims) ==> (Enabled(Next(t, claims), Insert) <==> entry.workspace in l.workspaces))
  {
  }

  /** A deleted workspace takes exactly its own rows along, and leaves the counter alone. */
  lemma WorkspaceTakesItsRows(l: Ledger, workspace: nat)
    requires Enabled(l, DeleteWorkspace(workspace))
    ensures var t := Next(l, DeleteWorkspace(workspace));
      && (forall id :: id in t.rows <==> id in l.rows && l.rows[id].workspace != workspace)
      && (forall id :: id in t.rows ==> t.rows[id] == l.rows[id])
      && t.promo == l.promo && t.workspaces == l.workspaces - {workspace}
      && (t.lossy <==> l.lossy || t.rows != l.rows)
      && Next(t, AddWorkspace(workspace)).workspaces == l.workspaces + {workspace}
  {
    var t := Next(l, DeleteWorkspace(workspace));
    if t.rows != l.rows {
      assert t.rows.Keys != l.rows.Keys;
    }
  }

  /** Reactivating keeps the counter within the cap exactly when the new cap is not below it. */
  lemma ReactivateKeepsCapExactly(l: Ledger, expiresAt: Option<Time>, max: Option<nat>)
    requires Inv(l) && l.claim.None? && !l.promo.active
    ensures Inv(Reactivated(l, expiresAt, max)) <==> (max.Some? ==> l.promo.times <= max.value)
  {
    if max.Some? ==> l.promo.times <= max.value {
      OtherKeeps(l, Reactivate(expiresAt, max));
    }
  }

  /**
   * A reset is two statements, which wipe the rows and then the counter. The second keeps the relation exactly when
   * no client is in flight and no row has come since the first; a release caught by it finds the counter at zero.
   */
  lemma ResetKeepsExactlyWhenNobodyInFlight(l: Ledger, expiresAt: Option<Time>, max: Option<nat>)
    requires Inv(l) && l.claim.None?
    ensures Inv(UsageReset(l, expiresAt, max)) <==> NobodyInFlight(l) && l.rows == map[]
    ensures forall c :: c in l.clients && l.clients[c].Releasing? ==>
      Enabled(UsageReset(l, expiresAt, max), ReleaseDecrement(c)) && UsageReset(l, expiresAt, max).promo.times == 0
  {
    if l.rows != map[] {
      var id :| id in l.rows;
      assert id !in UsageReset(l, expiresAt, max).charged;
    }
  }

  datatype ClaimResult = Claimed | Exhausted | AlreadyRedeemed | Error

  /** The handler's own statements, run without interference; `answered` of them are answered before one fails. */
  class Redemptions {
    var ledger: Ledger

    constructor (l: Ledger)
      ensures ledger == l
    {
      ledger := l;
    }

    method ClaimRedemption(client: nat, entry: Entry, now: Time, answered: nat) returns (r: ClaimResult)
      requires ledger.claim.None? && At(ledger, client).Away?
      modifies this
      ensures r == var p := old(ledger).promo;
        if answered < 1 then Error
        else if !p.active || (p.expiresAt.Some? && p.expiresAt.value <= now) || (p.max.Some? && p.times >= p.max.value)
        then Exhausted
        else if answered < 2 || entry.workspace !in old(ledger).workspaces then Error
        else if exists id :: id in old(ledger).rows && old(ledger).rows[id].account == entry.account
        then AlreadyRedeemed
        else if answered < 3 then Error else Claimed
      ensures !r.Claimed? ==> ledger == old(ledger)
      ensures r.Claimed? ==>
        && ledger.promo == old(ledger).promo.(times := old(ledger).promo.times + 1)
        && ledger.rows == old(ledger).rows[old(ledger).nextId := entry]
        && At(ledger, client) == Granted(old(ledger).nextId, entry.account)
        && ledger.claim.None? && ledger.workspaces == old(ledger).workspaces
        && forall c :: c != client ==> At(ledger, c) == At(old(ledger), c)
      ensures Inv(old(ledger)) ==> Inv(ledger)
    {
      if answered < 1 { return Error; }
      if !Claimable(ledger.promo, now) { return Exhausted; }
      var before := ledger;
      Take(Increment(client, entry, now));
      if answered < 2 || entry.workspace !in ledger.workspaces || Redeemed(ledger.rows, entry.account) {
        r := if answered >= 2 && entry.workspace in ledger.workspaces then AlreadyRedeemed else Error;
        Take(Rollback);
        return;
      }
      Take(Insert);
      if answered < 3 {
        Take(Rollback);
        return Error;
      }
      Take(Commit);
      return Claimed;
    }

    /** Giving a claim back; a failing statement ends it, and the slot may stay consumed. */
    method ReleaseRedemption(client: nat, answered: nat)
      requires ledger.claim.None? && At(ledger, client).Granted?
      modifies this
      ensures var account := old(At(ledger, client)).account;
        && (forall id :: id in ledger.rows <==>
              id in old(ledger).rows && (answered >= 1 ==> old(ledger).rows[id].account != account))
        && (forall id :: id in ledger.rows ==> ledger.rows[id] == old(ledger).rows[id])
      ensures ledger.promo == old(ledger).promo.(times := ledger.promo.times)
      ensures answered < 2 ==> ledger.promo.times == old(ledger).promo.times
      ensures answered >= 2 && old(ledger).promo.times > 0 ==> ledger.promo.times + 1 == old(ledger).promo.times
      ensures Inv(old(ledger)) ==> old(ledger).promo.times > 0
      ensures At(ledger, client).Away? && ledger.claim.None? && ledger.workspaces == old(ledger).workspaces
      ensures forall c :: c != client ==> At(ledger, c) == At(old(ledger), c)
      ensures Inv(old(ledger)) ==> Inv(ledger)
    {
      if answered >= 1 {
        Take(ReleaseDelete(client));
        if answered >= 2 {
          Take(ReleaseDecrement(client));
          return;
        }
      }
      Take(Abandon(client));
    }

    method Take(s: Step)
      requires Enabled(ledger, s)
      modifies this
      ensures ledger == Next(old(ledger), s)
      ensures Inv(old(ledger)) ==> Inv(ledger)
    {
      if Inv(ledger) {
        StepKeeps(ledger, s);
      }
      ledger := Next(ledger, s);
    }
  }
}
