/**
 * The billing handlers over the shared tables and the provider, one outside call at a time.
 * Each is proved to do to its own account exactly what `Paddle` says, and nothing to any other.
 */
module Billing {
  import opened Options
  import opened Plans
  import opened Accounts
  import opened Paddle

  lemma SweptWhenDue(c: Cell, cat: Catalog, now: Time, lead: Time, term: Time, calls: nat)
    ensures Swept(c, cat, now, lead, term, calls) ==
            match DueRow(c.acct, now, lead)
            case None => (c, false)
            case Some(row) => SweptRow(c, row, cat, now, term, calls)
  {
  }

  /** A due account with this row selected, where it should stand after the sweep, and whether it counts as applied. */
  ghost predicate IsOutcome(outcome: (Cell, bool), c: Cell, row: Row,
                            cat: Catalog, now: Time, lead: Time, term: Time, calls: nat)
  {
    DueRow(c.acct, now, lead) == Some(row) && outcome == Swept(c, cat, now, lead, term, calls)
  }

  class Biller {
    const store: Store
    const catalog: Catalog
    var subscriptions: map<string, Subscription>
    var now: Time

    constructor (store: Store, catalog: Catalog, subscriptions: map<string, Subscription>, now: Time)
      ensures this.store == store && this.catalog == catalog
      ensures this.subscriptions == subscriptions && this.now == now
    {
      this.store, this.catalog, this.subscriptions, this.now := store, catalog, subscriptions, now;
    }

    /** The provider's subscription for an account's customer. */
    function SubscriptionOf(email: string): Subscription
      reads this
    {
      if email in subscriptions then subscriptions[email] else NO_SUBSCRIPTION
    }

    function CellOf(email: string): Cell
      reads this, store
    {
      Cell(GetAccount(store.accounts, email), SubscriptionOf(email))
    }

    /** No account has the empty email, and the workspaces show their owners' accounts. */
    ghost predicate Valid()
      reads this, store
    {
      "" !in store.accounts && Sound(store.Rows())
    }

    twostate predicate OnlyTouches(email: string)
      reads this, store
    {
      now == old(now) && forall e :: e != email ==> CellOf(e) == old(CellOf(e))
    }

    /** One account write, as one outside call. */
    method WriteAccount(email: string, f: Fields, calls: nat) returns (ok: bool)
      requires Valid() && email != ""
      modifies store`accounts, store`workspaces
      ensures Valid() && OnlyTouches(email)
      ensures ok == (calls > 0)
      ensures CellOf(email) == if ok then Wrote(old(CellOf(email)), f) else old(CellOf(email))
    {
      ok := store.SetAccountPlan(email, f, if calls > 0 then Store.StatementsOf(f) else 0);
      WriteKeepsMirror(old(store.Rows()), email, f);
    }

    /**
     * The account's subscription: by the stored id, else by customer, remembering the id found. `None` on a
     * failing call.
     */
    method FetchSubscription(email: string, calls: nat) returns (answer: Option<(Option<Subscription>, nat)>)
      requires Valid() && email != "" && calls > 0
      modifies store`accounts, store`workspaces
      ensures Valid() && OnlyTouches(email)
      ensures var c := old(CellOf(email));
        if c.acct.subscription.Some? then
          && CellOf(email) == c
          && answer == if c.acct.subscription == Some(c.sub.id) then Some((Some(c.sub), calls - 1)) else None
        else if !Live(c.sub.status) then
          CellOf(email) == c && answer == Some((None, calls - 1))
        else if calls == 1 then
          CellOf(email) == c && answer == None
        else
          && CellOf(email) == Wrote(c, KEEP_ALL.(subscription := Put(Some(c.sub.id))))
          && answer == Some((Some(c.sub), calls - 2))
    {
      var a := GetAccount(store.accounts, email);
      var sub := SubscriptionOf(email);
      if a.subscription.Some? {
        return if a.subscription == Some(sub.id) then Some((Some(sub), calls - 1)) else None;
      }
      if !Live(sub.status) {
        return Some((None, calls - 1));
      }
      var ok := WriteAccount(email, KEEP_ALL.(subscription := Put(Some(sub.id))), calls - 1);
      if !ok { return None; }
      return Some((Some(sub), calls - 2));
    }

    method Reconcile(email: string, calls: nat) returns (completed: bool)
      requires Valid() && email != ""
      modifies store`accounts, store`workspaces
      ensures Valid() && OnlyTouches(email)
      ensures CellOf(email) == Reconciled(old(CellOf(email)), catalog, now, calls)
      ensures completed == ReconcileCompletes(old(CellOf(email)), catalog, now, calls)
    {
      var a := GetAccount(store.accounts, email);
      if a.status == Some(Comped) {
        if a.periodEnd.Some? && a.periodEnd.value < now {
          completed := WriteAccount(email, ResetTo(None), calls);
          return;
        }
        return true;
      }
      if calls == 0 { return false; }
      var answer := FetchSubscription(email, calls);
      if answer.None? { return false; }
      var sub, left := answer.value.0, answer.value.1;
      if sub.None? || Normalize(sub.value, catalog).plan.Free? {
        if a.status.None? { return true; }
        completed := WriteAccount(email, ResetTo(if sub.Some? then Some(sub.value.status) else None), left);
        return;
      }
      if PendingActive(a, now) {
        completed := WriteAccount(email, HoldFields(a, sub.value), left);
        return;
      }
      completed := WriteAccount(email, ShowFields(sub.value, catalog), left);
    }

    /** An item update sent to the provider. */
    method UpdateSubscription(email: string, id: string, price: Option<string>, mode: Proration, term: Time, calls: nat)
      returns (ok: bool)
      modifies `subscriptions
      ensures now == old(now) && (forall e :: e != email ==> CellOf(e) == old(CellOf(e)))
      ensures ok == (calls > 0 && id == old(SubscriptionOf(email)).id
                     && Updated(old(SubscriptionOf(email)), price, mode, catalog, now, term).Some?)
      ensures SubscriptionOf(email) ==
              if ok then Updated(old(SubscriptionOf(email)), price, mode, catalog, now, term).value
              else old(SubscriptionOf(email))
    {
      var sub := SubscriptionOf(email);
      if calls == 0 || id != sub.id { return false; }
      var updated := Updated(sub, price, mode, catalog, now, term);
      if updated.None? { return false; }
      subscriptions := subscriptions[email := updated.value];
      return true;
    }

    method ApplyChange(email: string, role: Role, plan: Plan, interval: Interval, term: Time, calls: nat)
      returns (outcome: Outcome)
      requires Valid() && email != ""
      modifies this`subscriptions, store`accounts, store`workspaces
      ensures Valid() && OnlyTouches(email)
      ensures (CellOf(email), outcome) == Changed(old(CellOf(email)), catalog, now, role, plan, interval, term, calls)
    {
      var a := GetAccount(store.accounts, email);
      var refused := LoadForChange(a, role);
      if refused.Some? { return refused.value; }
      var curInterval := a.interval.Or(Month);
      var direction := DirectionOf(a.plan, curInterval, plan, interval);
      if direction.Same? { return AlreadyOnPlan; }
      var intervalChanged := interval != curInterval;
      if intervalChanged && curInterval.Year? { return IntervalUnsupported; }
      if direction.Downgrade? && intervalChanged && curInterval.Month? { return IntervalUnsupported; }
      if direction.Upgrade? {
        outcome := UpgradeNow(email, a.subscription.value, plan, interval, term, calls);
      } else {
        outcome := DowngradeLater(email, a, plan, interval, term, calls);
      }
    }

    /** The upgrade branch: bill the new price at once, then reconcile. */
    method UpgradeNow(email: string, id: string, plan: Plan, interval: Interval, term: Time, calls: nat)
      returns (outcome: Outcome)
      requires Valid() && email != "" && GetAccount(store.accounts, email).subscription == Some(id)
      modifies this`subscriptions, store`accounts, store`workspaces
      ensures Valid() && OnlyTouches(email)
      ensures var price := catalog.PriceFor(plan, interval);
        var swapped := UpdateItem(old(CellOf(email)), price, ProratedImmediately, catalog, now, term);
        if calls == 0 || swapped.None? then
          CellOf(email) == old(CellOf(email)) && outcome == Failed
        else
          && CellOf(email) == Reconciled(swapped.value, catalog, now, calls - 1)
          && outcome == if ReconcileCompletes(swapped.value, catalog, now, calls - 1) then PlanChanged else Failed
    {
      var ok := UpdateSubscription(email, id, catalog.PriceFor(plan, interval), ProratedImmediately, term, calls);
      if !ok { return Failed; }
      ok := Reconcile(email, calls - 1);
      return if ok then PlanChanged else Failed;
    }

    /** The downgrade branch: swap the item without billing, then note the change on the account. */
    method DowngradeLater(email: string, a: Account, plan: Plan, interval: Interval, term: Time, calls: nat)
      returns (outcome: Outcome)
      requires Valid() && email != "" && a == GetAccount(store.accounts, email) && a.subscription.Some?
      modifies this`subscriptions, store`accounts, store`workspaces
      ensures Valid() && OnlyTouches(email)
      ensures var price := catalog.PriceFor(plan, interval);
        var swapped := UpdateItem(old(CellOf(email)), price, DoNotBill, catalog, now, term);
        if calls == 0 || swapped.None? then
          CellOf(email) == old(CellOf(email)) && outcome == Failed
        else if calls == 1 then
          CellOf(email) == swapped.value && outcome == Failed
        else
          && CellOf(email) == Wrote(swapped.value, PendingFields(plan, interval, a.periodEnd))
          && outcome == PlanChangeScheduled
    {
      var price := catalog.PriceFor(plan, interval);
      var ok := UpdateSubscription(email, a.subscription.value, price, DoNotBill, term, calls);
      if !ok { return Failed; }
      ok := WriteAccount(email, PendingFields(plan, interval, a.periodEnd), calls - 1);
      return if ok then PlanChangeScheduled else Failed;
    }

    method CancelScheduledChange(email: string, role: Role, term: Time, calls: nat) returns (outcome: Outcome)
      requires Valid() && email != ""
      modifies this`subscriptions, store`accounts, store`workspaces
      ensures Valid() && OnlyTouches(email)
      ensures (CellOf(email), outcome) == ChangeCancelled(old(CellOf(email)), catalog, now, role, term, calls)
    {
      var a := GetAccount(store.accounts, email);
      var refused := LoadForChange(a, role);
      if refused.Some? { return refused.value; }
      if a.pendingPlan.None? { return PlanChangeCancelled; }
      var price := CurrentPrice(a, catalog);
      var sub := SubscriptionOf(email);
      if calls == 0 || a.subscription != Some(sub.id) { return Failed; }
      var left := calls - 1;
      if price.Some? && sub.item != price {
        var ok := UpdateSubscription(email, a.subscription.value, price, DoNotBill, term, left);
        if !ok { return Failed; }
        left := left - 1;
      }
      var cleared := WriteAccount(email, CLEAR_PENDING, left);
      return if cleared then PlanChangeCancelled else Failed;
    }

    method CancelSubscription(email: string, role: Role, calls: nat) returns (outcome: Outcome)
      modifies `subscriptions
      ensures OnlyTouches(email)
      ensures (CellOf(email), outcome) == CancelRequested(old(CellOf(email)), role, calls)
    {
      var a, sub := GetAccount(store.accounts, email), SubscriptionOf(email);
      var refused := LoadForChange(a, role);
      if refused.Some? { return refused.value; }
      if calls == 0 || a.subscription != Some(sub.id) || !Live(sub.status) { return Failed; }
      subscriptions := subscriptions[email := sub.(cancelAtEnd := true)];
      return SubscriptionCancelled;
    }

    method ResumeSubscription(email: string, role: Role, calls: nat) returns (outcome: Outcome)
      modifies `subscriptions
      ensures OnlyTouches(email)
      ensures (CellOf(email), outcome) == Resumed(old(CellOf(email)), role, calls)
    {
      var a, sub := GetAccount(store.accounts, email), SubscriptionOf(email);
      var refused := LoadForChange(a, role);
      if refused.Some? { return refused.value; }
      if calls == 0 || a.subscription != Some(sub.id) || !Live(sub.status) { return Failed; }
      subscriptions := subscriptions[email := sub.(cancelAtEnd := false)];
      return SubscriptionResumed;
    }

    /** The work of a sweep on one selected row. */
    method ApplyRow(email: string, row: Row, term: Time, calls: nat) returns (applied: bool)
      requires Valid() && email != ""
      modifies this`subscriptions, store`accounts, store`workspaces
      ensures Valid() && OnlyTouches(email)
      ensures (CellOf(email), applied) == SweptRow(old(CellOf(email)), row, catalog, now, term, calls)
    {
      var targetInterval := row.interval.Or(Month);
      var target := catalog.PriceFor(row.plan, targetInterval);
      if target.None? { return false; }
      var sub := SubscriptionOf(email);
      if calls == 0 || row.subscription != sub.id { return false; }
      if sub.item == target { return false; }
      if sub.termEnd.Some? && sub.termEnd.value - row.at > DAY {
        var _ := WriteAccount(email, KEEP_ALL.(pendingAt := Put(sub.termEnd)), calls - 1);
        return false;
      }
      var mode := if catalog.IntervalOf(sub.item) == Some(targetInterval) then DoNotBill else ProratedImmediately;
      var ok := UpdateSubscription(email, row.subscription, target, mode, term, calls - 1);
      if !ok { return false; }
      applied := Reconcile(email, calls - 2);
    }

    method ApplyDueRow(email: string, row: Row, ghost lead: Time, term: Time, calls: nat, ghost outcome: (Cell, bool))
      returns (applied: bool)
      requires Valid() && email != "" && IsOutcome(outcome, CellOf(email), row, catalog, now, lead, term, calls)
      modifies this`subscriptions, store`accounts, store`workspaces
      ensures Valid() && now == old(now)
      ensures forall e :: CellOf(e) == if e == email then outcome.0 else old(CellOf(e))
      ensures applied == outcome.1
    {
      SweptWhenDue(CellOf(email), catalog, now, lead, term, calls);
      applied := ApplyRow(email, row, term, calls);
    }

    /** Runs the selected rows in some order; a row that fails does not stop the others. */
    method ApplyRows(rows: map<string, Row>, ghost lead: Time, terms: string -> Time, calls: string -> nat,
                     ghost outcomes: map<string, (Cell, bool)>)
      returns (applied: nat)
      requires Valid() && "" !in rows && rows.Keys <= outcomes.Keys
      requires forall e {:trigger IsOutcome(outcomes[e], CellOf(e), rows[e], catalog, now, lead, terms(e), calls(e))} ::
        e in rows ==> IsOutcome(outcomes[e], CellOf(e), rows[e], catalog, now, lead, terms(e), calls(e))
      modifies this`subscriptions, store`accounts, store`workspaces
      ensures Valid() && now == old(now)
      ensures forall e :: CellOf(e) == if e in rows then outcomes[e].0 else old(CellOf(e))
      ensures applied == |set e | e in rows && outcomes[e].1|
    {
      applied := 0;
      var left := rows.Keys;
      ghost var hits := {};
      while left != {}
        invariant Valid() && now == old(now) && left <= rows.Keys
        invariant forall e :: CellOf(e) == if e in rows && e !in left then outcomes[e].0 else old(CellOf(e))
        invariant forall e :: e in hits <==> e in rows && e !in left && outcomes[e].1
        invariant applied == |hits|
        decreases |left|
      {
        var email :| email in left;
        assert IsOutcome(outcomes[email], old(CellOf(email)), rows[email],
                         catalog, now, lead, terms(email), calls(email));
        var hit := ApplyDueRow(email, rows[email], lead, terms(email), calls(email), outcomes[email]);
        left := left - {email};
        if hit {
          hits := hits + {email};
          applied := applied + 1;
        }
      }
      assert hits == set e | e in rows && outcomes[e].1;
    }

    /**
     * The sweep: each account whose pending change is due, on its own budget of calls. `outcomes`
     * is what `Swept` says of every account.
     */
    method ApplyDuePendingChanges(lead: Time, terms: string -> Time, calls: string -> nat)
      returns (checked: nat, applied: nat, ghost outcomes: map<string, (Cell, bool)>)
      requires Valid()
      modifies this`subscriptions, store`accounts, store`workspaces
      ensures Valid() && now == old(now)
      ensures outcomes == map e | e in old(store.accounts) ::
        Swept(old(CellOf(e)), catalog, now, lead, terms(e), calls(e))
      ensures forall e :: CellOf(e) == if e in outcomes then outcomes[e].0 else old(CellOf(e))
      ensures checked == |set e | e in old(store.accounts) && DueRow(old(store.accounts)[e], now, lead).Some?|
      ensures applied == |set e | e in outcomes && outcomes[e].1|
    {
      var rows := map e | e in store.accounts && DueRow(store.accounts[e], now, lead).Some?
        :: DueRow(store.accounts[e], now, lead).value;
      assert rows.Keys == set e | e in old(store.accounts) && DueRow(old(store.accounts)[e], now, lead).Some?;
      checked := |rows|;
      ghost var before := map e | e in store.accounts :: CellOf(e);
      outcomes := map e | e in store.accounts :: Swept(CellOf(e), catalog, now, lead, terms(e), calls(e));
      forall e | e in before && e !in rows
        ensures outcomes[e] == (before[e], false)
      {
        SweptWhenDue(before[e], catalog, now, lead, terms(e), calls(e));
      }
      assert (set e | e in rows && outcomes[e].1) == set e | e in outcomes && outcomes[e].1;
      applied := ApplyRows(rows, lead, terms, calls, outcomes);
    }
  }
}
