/**
 * What each billing handler leaves behind, column by column: the account row, the item, the bill and the term.
 */
module PaddleColumns {
  import opened Options
  import opened Plans
  import opened Accounts
  import opened Paddle

  /** The provider bills in these states and in no others. */
  predicate Billing(status: Status) {
    status in {Active, Trialing, PastDue}
  }

  /** The subscription is this account's, or no id is stored yet. */
  predicate Known(c: Cell) {
    c.acct.subscription.Some? ==> c.acct.subscription == Some(c.sub.id)
  }

  /** A change is recorded for a moment still to come. */
  predicate HeldAt(a: Account, now: Time) {
    a.pendingPlan.Some? && a.pendingAt.Some? && now < a.pendingAt.value
  }

  // ----- reconciles

  /** A reconcile gets through when three calls are answered, unless another subscription's id is stored. */
  lemma ReconcileGetsThrough(c: Cell, cat: Catalog, now: Time, calls: nat)
    requires calls >= 3
    ensures ReconcileCompletes(c, cat, now, calls) <==> c.acct.status == Some(Comped) || Known(c)
  {
  }

  /** Wherever it stops, it has written everything, or nothing but the id it found. */
  lemma ReconcileIsWhole(c: Cell, cat: Catalog, now: Time, calls: nat)
    ensures Reconciled(c, cat, now, calls).sub == c.sub
    ensures if ReconcileCompletes(c, cat, now, calls)
            then Reconciled(c, cat, now, calls) == Reconciled(c, cat, now, calls + 3)
            else Reconciled(c, cat, now, calls).acct in {c.acct, c.acct.(subscription := Some(c.sub.id))}
  {
  }

  /** With no change to hold, a live paid subscription is recorded in all eight columns. */
  lemma ReconcileRecords(c: Cell, cat: Catalog, now: Time, calls: nat, plan: Plan, interval: Interval)
    requires cat.Distinct() && c.sub.item.Some? && c.sub.item == cat.PriceFor(plan, interval)
    requires Billing(c.sub.status) && c.acct.status != Some(Comped) && !HeldAt(c.acct, now)
    requires ReconcileCompletes(c, cat, now, calls)
    ensures Reconciled(c, cat, now, calls).acct
            == Account(plan, Some(c.sub.status), Some(interval), c.sub.termEnd, None, None, None, Some(c.sub.id))
  {
  }

  /** While a change is to be held, only the status, the id and a missing period end are recorded. */
  lemma ReconcileHolds(c: Cell, cat: Catalog, now: Time, calls: nat, plan: Plan, interval: Interval)
    requires cat.Distinct() && c.sub.item.Some? && c.sub.item == cat.PriceFor(plan, interval)
    requires Billing(c.sub.status) && c.acct.status != Some(Comped) && HeldAt(c.acct, now)
    requires ReconcileCompletes(c, cat, now, calls)
    ensures var a := Reconciled(c, cat, now, calls).acct;
      && a.plan == c.acct.plan && a.interval == c.acct.interval
      && a.pendingPlan == c.acct.pendingPlan && a.pendingInterval == c.acct.pendingInterval
      && a.pendingAt == c.acct.pendingAt
      && a.status == Some(c.sub.status) && a.subscription == Some(c.sub.id)
      && a.periodEnd == (if c.acct.periodEnd.Some? then c.acct.periodEnd else c.sub.termEnd)
  {
  }

  /** The provider has nothing that a known price is billed for. */
  ghost predicate NothingBilled(sub: Subscription, cat: Catalog) {
    !Billing(sub.status)
    || forall plan, interval :: cat.PriceFor(plan, interval).None? || cat.PriceFor(plan, interval) != sub.item
  }

  lemma UnknownItem(sub: Subscription, cat: Catalog)
    requires NothingBilled(sub, cat) && Billing(sub.status) && cat.Distinct()
    ensures cat.PlanOf(sub.item).None?
  {
    if cat.PlanOf(sub.item).Some? {
      LookupRoundTrips(cat, sub.item);
    }
  }

  /** Then an account with a status falls back to the free plan and keeps its subscription's id. */
  lemma ReconcileEnds(c: Cell, cat: Catalog, now: Time, calls: nat)
    requires cat.Distinct() && NothingBilled(c.sub, cat) && c.acct.status != Some(Comped)
    requires ReconcileCompletes(c, cat, now, calls)
    ensures var a := Reconciled(c, cat, now, calls).acct;
      && (c.acct.status.Some? ==>
            && a.plan.Free? && a.interval.None? && a.periodEnd.None?
            && a.pendingPlan.None? && a.pendingInterval.None? && a.pendingAt.None?
            && a.status == (if c.acct.subscription.Some? || Billing(c.sub.status) then Some(c.sub.status) else None))
      && (c.acct.status.None? ==> a == c.acct.(subscription := a.subscription))
      && a.subscription == (if Billing(c.sub.status) then Some(c.sub.id) else c.acct.subscription)
  {
    if Billing(c.sub.status) {
      UnknownItem(c.sub, cat);
    }
  }

  /** A comped account is left alone until its period ends, and is then free. */
  lemma ReconcileSparesComped(c: Cell, cat: Catalog, now: Time, calls: nat)
    requires c.acct.status == Some(Comped)
    ensures var over := c.acct.periodEnd.Some? && c.acct.periodEnd.value < now;
      && (ReconcileCompletes(c, cat, now, calls) <==> (over ==> calls >= 1))
      && Reconciled(c, cat, now, calls).acct
         == if over && calls >= 1 then Account(Free, None, None, None, None, None, None, c.acct.subscription)
            else c.acct
  {
  }

  // ----- change requests

  /** An owner whose account has a subscription it pays for. */
  predicate MayChange(a: Account, role: Role) {
    role.Owner? && a.subscription.Some? && a.status != Some(Comped)
  }

  /** The interval an account is on; one that was never recorded counts as a month. */
  predicate IsOn(a: Account, interval: Interval) {
    a.interval == Some(interval) || (a.interval.None? && interval.Month?)
  }

  /** Each refusal has exactly its own reason, and nothing is touched. */
  lemma ChangeRefusals(
    c: Cell, cat: Catalog, now: Time, role: Role, plan: Plan, interval: Interval, term: Time, calls: nat)
    ensures var (c', outcome) := Changed(c, cat, now, role, plan, interval, term, calls);
      && (outcome.Forbidden? <==> !role.Owner?)
      && (outcome.NoActiveSubscription? <==> role.Owner? && !MayChange(c.acct, role))
      && (outcome.AlreadyOnPlan? <==> MayChange(c.acct, role) && plan == c.acct.plan && IsOn(c.acct, interval))
      && (outcome.IntervalUnsupported? <==>
            && MayChange(c.acct, role) && !IsOn(c.acct, interval)
            && (interval.Month? || Rank(plan) < Rank(c.acct.plan)))
      && (outcome.Failed? || outcome.PlanChanged? || outcome.PlanChangeScheduled? || c' == c)
  {
  }

  /** Whatever fails, the account row is as it was. */
  lemma FailedChangeWritesNothing(
    c: Cell, cat: Catalog, now: Time, role: Role, plan: Plan, interval: Interval, term: Time, calls: nat)
    ensures var (c', outcome) := Changed(c, cat, now, role, plan, interval, term, calls);
      outcome.Failed? ==> c'.acct == c.acct
  {
  }

  /** A dearer tier on the same interval, or the same tier by the year. */
  predicate IsUpgrade(a: Account, plan: Plan, interval: Interval) {
    if IsOn(a, interval) then Rank(plan) > Rank(a.plan) else interval.Year? && Rank(plan) >= Rank(a.plan)
  }

  /** An upgrade swaps the item, bills it at once, and is shown at once if nothing is to be held. */
  lemma UpgradeBillsAndShows(
    c: Cell, cat: Catalog, now: Time, plan: Plan, interval: Interval, term: Time, calls: nat)
    requires cat.Distinct() && cat.PriceFor(plan, interval).Some? && cat.PlanOf(c.sub.item).Some?
    requires MayChange(c.acct, Owner) && Known(c) && Billing(c.sub.status) && calls >= 3
    requires IsUpgrade(c.acct, plan, interval)
    ensures var (c', outcome) := Changed(c, cat, now, Owner, plan, interval, term, calls);
      var price := cat.PriceFor(plan, interval);
      && outcome.PlanChanged?
      && c'.sub.item == price
      && c'.sub.charged == (if c.sub.item == price then c.sub.charged else c.sub.charged + [price.value])
      && c'.sub.termEnd == (if cat.IntervalOf(c.sub.item) == Some(interval) then c.sub.termEnd else Some(now + term))
      && c'.sub == c.sub.(item := c'.sub.item, charged := c'.sub.charged, termEnd := c'.sub.termEnd)
      && (!HeldAt(c.acct, now) ==> c'.acct == Account(plan, Some(c.sub.status), Some(interval), c'.sub.termEnd,
                                                      None, None, None, Some(c.sub.id)))
      && (HeldAt(c.acct, now) ==> c'.acct.plan == c.acct.plan && c'.acct.interval == c.acct.interval)
  {
  }

  /** A downgrade swaps the item without a bill or a new term, and notes plan, interval and stored period end. */
  lemma DowngradeSwapsAndNotes(
    c: Cell, cat: Catalog, now: Time, plan: Plan, interval: Interval, term: Time, calls: nat)
    requires cat.Distinct() && cat.PriceFor(plan, interval).Some? && cat.IntervalOf(c.sub.item) == Some(interval)
    requires MayChange(c.acct, Owner) && Known(c) && Billing(c.sub.status) && calls >= 2
    requires IsOn(c.acct, interval) && Rank(plan) < Rank(c.acct.plan)
    ensures Changed(c, cat, now, Owner, plan, interval, term, calls)
            == (Cell(Account(c.acct.plan, c.acct.status, c.acct.interval, c.acct.periodEnd,
                             Some(plan), Some(interval), c.acct.periodEnd, c.acct.subscription),
                     c.sub.(item := cat.PriceFor(plan, interval))),
                PlanChangeScheduled)
  {
  }

  /** Taking a change back puts the shown plan's item in place and clears the three markers, or leaves the row alone. */
  lemma TakingBackRestores(
    c: Cell, cat: Catalog, now: Time, role: Role, interval: Interval, term: Time, calls: nat)
    requires cat.Distinct() && cat.PriceFor(c.acct.plan, interval).Some? && IsOn(c.acct, interval)
    requires Known(c) && Billing(c.sub.status) && c.acct.pendingPlan.Some?
    ensures var (c', outcome) := ChangeCancelled(c, cat, now, role, term, calls);
      && (calls >= 3 ==> (outcome.PlanChangeCancelled? <==> MayChange(c.acct, role)))
      && (!outcome.PlanChangeCancelled? ==> c'.acct == c.acct)
      && (!MayChange(c.acct, role) ==> c' == c)
      && (outcome.PlanChangeCancelled? ==>
            && c'.acct == c.acct.(pendingPlan := None, pendingInterval := None, pendingAt := None)
            && c'.sub == c.sub.(item := cat.PriceFor(c.acct.plan, interval), termEnd := c'.sub.termEnd)
            && (cat.IntervalOf(c.sub.item) == Some(interval) || c.sub.item == cat.PriceFor(c.acct.plan, interval) ==>
                  c'.sub.termEnd == c.sub.termEnd))
  {
  }

  // ----- ending and resuming

  /** A cancellation is accepted exactly for a live subscription, and changes nothing but the provider's end mark. */
  lemma CancelMarksTheEnd(c: Cell, role: Role, calls: nat)
    ensures var (c', outcome) := CancelRequested(c, role, calls);
      && (outcome.SubscriptionCancelled? <==>
            MayChange(c.acct, role) && Known(c) && Billing(c.sub.status) && calls > 0)
      && (outcome.SubscriptionCancelled? ==> c'.sub.cancelAtEnd)
      && (!outcome.SubscriptionCancelled? ==> c' == c)
      && c' == c.(sub := c.sub.(cancelAtEnd := c'.sub.cancelAtEnd))
  {
  }

  /** After a cancellation the term's end bills nothing more, and the account that paid for it becomes free. */
  lemma CancelledEndsWithTerm(c: Cell, cat: Catalog, calls: nat, term: Time, now: Time)
    requires cat.Distinct() && c.sub.termEnd.Some? && c.sub.item.Some? && c.acct.status.Some?
    requires CancelRequested(c, Owner, calls).1.SubscriptionCancelled?
    ensures var ended := Renewed(CancelRequested(c, Owner, calls).0.sub, term);
      && ended.charged == c.sub.charged && !Billing(ended.status)
      && Reconciled(Cell(c.acct, ended), cat, now, 3).acct.plan.Free?
  {
  }

  /** Resuming before then takes the mark back, so the term's end renews the subscription after all. */
  lemma ResumeUndoesCancel(c: Cell, calls: nat, term: Time)
    requires c.sub.termEnd.Some? && c.sub.item.Some?
    requires CancelRequested(c, Owner, calls).1.SubscriptionCancelled?
    ensures var (c', outcome) := Resumed(CancelRequested(c, Owner, calls).0, Owner, calls);
      && outcome.SubscriptionResumed? && c' == c.(sub := c.sub.(cancelAtEnd := false))
      && Renewed(c'.sub, term).charged == c.sub.charged + [c.sub.item.value]
      && Billing(Renewed(c'.sub, term).status)
  {
  }

  /** Resuming is refused under the same conditions. */
  lemma ResumeTakesBackTheMark(c: Cell, role: Role, calls: nat)
    ensures var (c', outcome) := Resumed(c, role, calls);
      && (outcome.SubscriptionResumed? <==>
            MayChange(c.acct, role) && Known(c) && Billing(c.sub.status) && calls > 0)
      && (outcome.SubscriptionResumed? ==> c' == c.(sub := c.sub.(cancelAtEnd := false)))
      && (!outcome.SubscriptionResumed? ==> c' == c)
  {
  }

  // ----- sweeps

  /** A change recorded for a moment within the lead, on an account that pays for itself. */
  predicate Due(a: Account, now: Time, lead: Time) {
    && a.pendingPlan.Some? && a.pendingAt.Some? && a.pendingAt.value <= now + lead
    && a.subscription.Some? && a.status != Some(Comped)
  }

  /** The price that a pending change aims at. */
  predicate AimsAt(a: Account, cat: Catalog, price: string) {
    a.pendingPlan.Some?
    && cat.PriceFor(a.pendingPlan.value, if a.pendingInterval == Some(Year) then Year else Month) == Some(price)
  }

  /** A sweep touches only a due account whose item is elsewhere, after one answer, and counts only what it swapped. */
  lemma SweepTouchesOnlyDue(c: Cell, cat: Catalog, now: Time, lead: Time, term: Time, calls: nat)
    ensures var (c', applied) := Swept(c, cat, now, lead, term, calls);
      && (c' != c || applied ==>
            Due(c.acct, now, lead) && Known(c)
            && exists price :: AimsAt(c.acct, cat, price) && c.sub.item != Some(price))
      && (applied ==> AimsAt(c.acct, cat, c'.sub.item.Or("")) && c'.sub.item.Some?)
      && (calls < 2 ==> c' == c && !applied)
  {
    if Swept(c, cat, now, lead, term, calls) != (c, false) {
      var price := cat.PriceFor(c.acct.pendingPlan.value, c.acct.pendingInterval.Or(Month)).value;
      assert AimsAt(c.acct, cat, price);
    }
  }

  /**
   * A due account whose item is elsewhere: a term that ends more than a day after the date moves the date there,
   * any other has its item swapped, billed exactly when the interval changes, and is reconciled.
   */
  lemma SweepCatchesDue(c: Cell, cat: Catalog, now: Time, lead: Time, term: Time, calls: nat, price: string)
    requires cat.Distinct() && Due(c.acct, now, lead) && Known(c) && Billing(c.sub.status) && calls >= 4
    requires AimsAt(c.acct, cat, price) && c.sub.item != Some(price) && cat.PlanOf(c.sub.item).Some?
    ensures var (c', applied) := Swept(c, cat, now, lead, term, calls);
      var late := c.sub.termEnd.Some? && c.sub.termEnd.value > c.acct.pendingAt.value + 24 * 60 * 60;
      var sameInterval := cat.IntervalOf(c.sub.item) == cat.IntervalOf(Some(price));
      && applied == !late
      && (late ==> c' == c.(acct := c.acct.(pendingAt := c.sub.termEnd)))
      && (!late ==>
            && c'.sub.item == Some(price)
            && c'.sub.charged == (if sameInterval then c.sub.charged else c.sub.charged + [price])
            && c'.sub.termEnd == (if sameInterval then c.sub.termEnd else Some(now + term))
            && c'.acct == Reconciled(c.(sub := c'.sub), cat, now, 3).acct)
  {
    LookupRoundTrips(cat, Some(price));
  }
}
