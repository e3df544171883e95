/**
 * Exactly when a change request, an upgrade and a cancellation leave the app showing the billed
 * tier, and that a downgrade can be held for any length of time and taken back.
 */
module PaddleExact {
  import opened Options
  import opened Plans
  import opened Accounts
  import opened Paddle
  import opened PaddleRuns

  /** Recorded and with nothing pending: the row shows the item, the item is what was billed. */
  predicate Settled(c: Cell, cat: Catalog, now: Time) {
    && Ready(cat)
    && c.acct.subscription == Some(c.sub.id) && c.acct.status.Some? && c.acct.status != Some(Comped)
    && Live(c.sub.status)
    && |c.sub.charged| > 0 && c.sub.item == Some(Billed(c.sub)) && IsPrice(cat, c.sub.item)
    && Shown(c.acct, cat) == c.sub.item
    && c.sub.termEnd.Some? && now < c.sub.termEnd.value
    && c.acct.pendingPlan.None? && c.acct.pendingInterval.None? && c.acct.pendingAt.None?
  }

  /** A downgrade request that is accepted and whose two calls both succeed. */
  predicate Downgrades(c: Cell, cat: Catalog, now: Time, plan: Plan, interval: Interval, term: Time) {
    && ChangeRefused(c.acct, Owner, plan, interval).None?
    && RequestedDirection(c.acct, plan, interval).Downgrade?
    && UpdateItem(c, cat.PriceFor(plan, interval), DoNotBill, cat, now, term).Some?
  }

  function Scheduled(c: Cell, cat: Catalog, now: Time, plan: Plan, interval: Interval, term: Time): Cell {
    Changed(c, cat, now, Owner, plan, interval, term, 2).0
  }

  /** The cell at a later moment, when nothing happens but the renewal at the term end. */
  function SeenAt(c: Cell, t: Time, term: Time): Cell
    requires c.sub.termEnd.Some? && c.sub.item.Some?
  {
    if t < c.sub.termEnd.value then c else c.(sub := Renewed(c.sub, term))
  }

  lemma ScheduledCell(c: Cell, cat: Catalog, now: Time, plan: Plan, interval: Interval, term: Time)
    requires Settled(c, cat, now) && Downgrades(c, cat, now, plan, interval, term)
    ensures c.acct.interval == Some(interval)
    ensures Scheduled(c, cat, now, plan, interval, term) ==
            Cell(c.acct.(pendingPlan := Some(plan), pendingInterval := Some(interval), pendingAt := c.acct.periodEnd),
                 c.sub.(item := cat.PriceFor(plan, interval)))
    ensures cat.PriceFor(plan, interval) != c.sub.item && IsPrice(cat, cat.PriceFor(plan, interval))
  {
    LookupRoundTrips(cat, c.sub.item);
  }

  lemma TruthfulAt(c: Cell, cat: Catalog, now: Time, plan: Plan, interval: Interval, term: Time, t: Time)
    requires Settled(c, cat, now) && Downgrades(c, cat, now, plan, interval, term)
    requires !c.sub.cancelAtEnd && now <= t < c.sub.termEnd.value + term
    ensures var c' := SeenAt(Scheduled(c, cat, now, plan, interval, term), t, term);
            && |c'.sub.charged| > 0
            && (Truthful(Reconciled(c', cat, t, 3), cat) <==>
                  (t < c.sub.termEnd.value <==> c.acct.periodEnd.Some? && t < c.acct.periodEnd.value))
  {
    ScheduledCell(c, cat, now, plan, interval, term);
    LookupRoundTrips(cat, cat.PriceFor(plan, interval));
  }

  /**
   * After a downgrade, the app shows the billed tier at every later moment of this term and the
   * next exactly when the period end stored on the account was the provider's term end.
   */
  lemma DowngradeHeldExactlyWhenDateRight(c: Cell, cat: Catalog, now: Time, plan: Plan, interval: Interval, term: Time)
    requires Settled(c, cat, now) && Downgrades(c, cat, now, plan, interval, term)
    requires !c.sub.cancelAtEnd && term > DAY
    ensures |SeenAt(Scheduled(c, cat, now, plan, interval, term), now, term).sub.charged| > 0
    ensures (forall t :: now <= t < c.sub.termEnd.value + term ==>
               var c' := SeenAt(Scheduled(c, cat, now, plan, interval, term), t, term);
               |c'.sub.charged| > 0 && Truthful(Reconciled(c', cat, t, 3), cat))
            <==> c.acct.periodEnd == c.sub.termEnd
  {
    var e := c.sub.termEnd.value;
    forall t | now <= t < e + term
      ensures var c' := SeenAt(Scheduled(c, cat, now, plan, interval, term), t, term);
              && |c'.sub.charged| > 0
              && (Truthful(Reconciled(c', cat, t, 3), cat) <==>
                    (t < e <==> c.acct.periodEnd.Some? && t < c.acct.periodEnd.value))
    {
      TruthfulAt(c, cat, now, plan, interval, term, t);
    }
    if c.acct.periodEnd != c.sub.termEnd {
      // a moment at which the stored date and the term end disagree
      var t := if c.acct.periodEnd.None? || c.acct.periodEnd.value <= now then now
               else if c.acct.periodEnd.value < e then c.acct.periodEnd.value else e;
      TruthfulAt(c, cat, now, plan, interval, term, t);
    }
  }

  /** A downgrade that stops between its two calls, and only such a one, breaks the relation every step relies on. */
  lemma DowngradeSafeExactlyWhenNotHalfDone(
    c: Cell, cat: Catalog, now: Time, plan: Plan, interval: Interval, term: Time, calls: nat)
    requires Consistent(c, cat, now) && Settled(c, cat, now) && Downgrades(c, cat, now, plan, interval, term)
    requires c.acct.periodEnd == c.sub.termEnd && term > DAY && now + term > c.sub.termEnd.value
    ensures Consistent(Changed(c, cat, now, Owner, plan, interval, term, calls).0, cat, now) <==> calls != 1
    ensures calls == 1 ==>
      var c' := Reconciled(Changed(c, cat, now, Owner, plan, interval, term, calls).0, cat, now, 3);
      Shown(c'.acct, cat) == cat.PriceFor(plan, interval) != Some(Billed(c.sub))
  {
    ScheduledCell(c, cat, now, plan, interval, term);
    LookupRoundTrips(cat, cat.PriceFor(plan, interval));
    ChangeInTwoParts(c, cat, now, Owner, plan, interval, term, calls);
    BeginKeeps(c, cat, now, Owner, plan, interval, term, calls > 0);
  }

  /** An accepted upgrade whose calls all succeed is shown exactly when no change is pending. */
  lemma UpgradeShownExactlyWhenNothingPending(
    c: Cell, cat: Catalog, now: Time, plan: Plan, interval: Interval, term: Time, calls: nat)
    requires Consistent(c, cat, now) && Live(c.sub.status) && calls >= 3
    requires ChangeRefused(c.acct, Owner, plan, interval).None? && RequestedDirection(c.acct, plan, interval).Upgrade?
    requires UpdateItem(c, cat.PriceFor(plan, interval), ProratedImmediately, cat, now, term).Some?
    ensures var c' := Changed(c, cat, now, Owner, plan, interval, term, calls).0;
            && Some(Billed(c'.sub)) == cat.PriceFor(plan, interval)
            && (Truthful(c', cat) <==> !PendingActive(c.acct, now))
  {
    var price := cat.PriceFor(plan, interval);
    var swapped := UpdateItem(c, price, ProratedImmediately, cat, now, term).value;
    assert Changed(c, cat, now, Owner, plan, interval, term, calls).0 == Reconciled(swapped, cat, now, calls - 1);
    LookupRoundTrips(cat, price);
    assert Normalize(swapped.sub, cat).plan == plan;
    assert Billed(swapped.sub) == price.value;
  }

  /** Taking back a swapped downgrade leaves the app truthful exactly when its date has not come. */
  lemma CancelRightExactlyWhenInTime(c: Cell, cat: Catalog, now: Time, term: Time, calls: nat)
    requires Consistent(c, cat, now) && Live(c.sub.status) && calls >= 3
    requires c.acct.pendingPlan.Some? && c.sub.item == Target(c.acct, cat)
    ensures var c' := ChangeCancelled(c, cat, now, Owner, term, calls).0;
            && |c'.sub.charged| > 0
            && (Truthful(Reconciled(c', cat, now, 3), cat) <==> PendingActive(c.acct, now))
  {
    LookupRoundTrips(cat, Shown(c.acct, cat));
    LookupRoundTrips(cat, c.sub.item);
  }

  /** Steps that only watch: reconciles, webhooks, sweeps, the clock before the term end, provider statuses. */
  predicate Quiet(s: PaddleRuns.Step) {
    s.Reconcile? || s.Sweep? || s.Pass? || (s.Report? && Live(s.status))
  }

  /** The cell of a scheduled downgrade, up to the reported status. */
  predicate HeldFrom(c0: Cell, plan: Plan, interval: Interval, cat: Catalog, m: Moment) {
    && m.flight.Landed?
    && m.cell.acct == c0.acct.(status := m.cell.acct.status, pendingPlan := Some(plan),
                               pendingInterval := Some(interval), pendingAt := c0.sub.termEnd)
    && m.cell.sub == c0.sub.(status := m.cell.sub.status, item := cat.PriceFor(plan, interval))
    && m.cell.acct.status.Some? && m.cell.acct.status != Some(Comped)
    && Live(m.cell.sub.status)
    && c0.sub.termEnd.Some? && m.now < c0.sub.termEnd.value
  }

  lemma {:induction false} HeldThroughQuietRun(
    c0: Cell, plan: Plan, interval: Interval, cat: Catalog, ms: seq<Moment>, steps: seq<PaddleRuns.Step>, k: nat)
    requires PaddleRuns.IsRun(ms, steps, cat) && k < |ms| && (forall i :: 0 <= i < |steps| ==> Quiet(steps[i]))
    requires Ready(cat) && c0.acct.subscription == Some(c0.sub.id) && IsPrice(cat, cat.PriceFor(plan, interval))
    requires c0.acct.periodEnd == c0.sub.termEnd
    requires HeldFrom(c0, plan, interval, cat, ms[0])
    ensures HeldFrom(c0, plan, interval, cat, ms[k])
  {
    if k > 0 {
      HeldThroughQuietRun(c0, plan, interval, cat, ms, steps, k - 1);
      assert ms[(k - 1) + 1] == PaddleRuns.Next(ms[k - 1], steps[k - 1], cat);
      assert Quiet(steps[k - 1]);
    }
  }

  /**
   * A downgrade and then any number of quiet steps: the plan and interval shown never move, and
   * cancelling the change restores the item, the term and an account with nothing pending.
   */
  lemma DowngradeHeldThenTakenBack(
    c0: Cell, cat: Catalog, now: Time, plan: Plan, interval: Interval, term: Time,
    ms: seq<Moment>, steps: seq<PaddleRuns.Step>, k: nat, calls: nat)
    requires Settled(c0, cat, now) && c0.acct.periodEnd == c0.sub.termEnd
    requires Downgrades(c0, cat, now, plan, interval, term)
    requires PaddleRuns.IsRun(ms, steps, cat) && (forall i :: 0 <= i < |steps| ==> Quiet(steps[i]))
    requires ms[0] == Moment(Scheduled(c0, cat, now, plan, interval, term), now, Landed)
    requires k < |ms| && calls >= 3
    ensures ms[k].cell.acct.plan == c0.acct.plan && ms[k].cell.acct.interval == c0.acct.interval
    ensures ms[k].cell.sub.charged == c0.sub.charged
    ensures ChangeCancelled(ms[k].cell, cat, ms[k].now, Owner, term, calls) ==
            (Cell(c0.acct.(status := ms[k].cell.acct.status), c0.sub.(status := ms[k].cell.sub.status)),
             PlanChangeCancelled)
  {
    ScheduledCell(c0, cat, now, plan, interval, term);
    HeldThroughQuietRun(c0, plan, interval, cat, ms, steps, k);
    LookupRoundTrips(cat, c0.sub.item);
    LookupRoundTrips(cat, cat.PriceFor(plan, interval));
  }

  // ----- what may come between a handler's two calls

  /** Any quiet steps, reconciles that complete included. */
  predicate IsQuietRun(ms: seq<Moment>, steps: seq<PaddleRuns.Step>, cat: Catalog) {
    && |ms| == |steps| + 1
    && forall i :: 0 <= i < |steps| ==>
         && Quiet(steps[i]) && (steps[i].Pass? ==> PaddleRuns.Allowed(ms[i], steps[i], cat))
         && ms[i + 1] == PaddleRuns.Next(ms[i], steps[i], cat)
  }

  /** The item is swapped, the account is as it was. */
  predicate HalfDone(c0: Cell, plan: Plan, interval: Interval, cat: Catalog, m: Moment) {
    && m.flight == Noting(plan, interval, c0.acct.periodEnd)
    && m.cell.acct == c0.acct
    && m.cell.sub == c0.sub.(status := m.cell.sub.status, item := cat.PriceFor(plan, interval))
    && Live(m.cell.sub.status) && c0.sub.termEnd.Some? && m.now < c0.sub.termEnd.value
  }

  /** A reconcile has recorded the swapped item: the account shows the lower plan already. */
  predicate ShownEarly(c0: Cell, plan: Plan, interval: Interval, cat: Catalog, m: Moment) {
    && m.flight == Noting(plan, interval, c0.acct.periodEnd)
    && m.cell.acct == c0.acct.(plan := plan, status := m.cell.acct.status)
    && m.cell.acct.status.Some? && m.cell.acct.status != Some(Comped)
    && m.cell.sub == c0.sub.(status := m.cell.sub.status, item := cat.PriceFor(plan, interval))
    && Live(m.cell.sub.status) && c0.sub.termEnd.Some? && m.now < c0.sub.termEnd.value
  }

  /** A reconcile no call of which fails. */
  predicate Completes(m: Moment, s: PaddleRuns.Step, cat: Catalog) {
    s.Reconcile? && ReconcileCompletes(m.cell, cat, m.now, s.calls)
  }

  predicate ReconciledIn(ms: seq<Moment>, steps: seq<PaddleRuns.Step>, cat: Catalog, k: nat)
    requires k <= |steps| <= |ms|
  {
    exists i :: 0 <= i < k && Completes(ms[i], steps[i], cat)
  }

  /** A paid plan with nothing pending, and a lower one on the same interval. */
  predicate MayStepDown(c0: Cell, plan: Plan, interval: Interval, cat: Catalog) {
    && Ready(cat) && c0.acct.subscription == Some(c0.sub.id) && IsPrice(cat, cat.PriceFor(plan, interval))
    && c0.acct.pendingPlan.None? && c0.acct.pendingInterval.None? && c0.acct.pendingAt.None?
    && c0.acct.status.Some? && c0.acct.status != Some(Comped)
    && c0.acct.interval == Some(interval) && c0.acct.periodEnd == c0.sub.termEnd
  }

  lemma BetweenStep(c0: Cell, plan: Plan, interval: Interval, cat: Catalog, m: Moment, s: PaddleRuns.Step)
    requires MayStepDown(c0, plan, interval, cat)
    requires Quiet(s) && (s.Pass? ==> PaddleRuns.Allowed(m, s, cat))
    requires HalfDone(c0, plan, interval, cat, m) || ShownEarly(c0, plan, interval, cat, m)
    ensures var next := PaddleRuns.Next(m, s, cat);
      && (HalfDone(c0, plan, interval, cat, m) && !Completes(m, s, cat) ==> HalfDone(c0, plan, interval, cat, next))
      && (ShownEarly(c0, plan, interval, cat, m) || Completes(m, s, cat) ==> ShownEarly(c0, plan, interval, cat, next))
  {
    LookupRoundTrips(cat, cat.PriceFor(plan, interval));
  }

  lemma {:induction false} BetweenRun(
    c0: Cell, plan: Plan, interval: Interval, cat: Catalog, ms: seq<Moment>, steps: seq<PaddleRuns.Step>, k: nat)
    requires MayStepDown(c0, plan, interval, cat)
    requires IsQuietRun(ms, steps, cat) && k <= |steps| && HalfDone(c0, plan, interval, cat, ms[0])
    ensures if ReconciledIn(ms, steps, cat, k) then ShownEarly(c0, plan, interval, cat, ms[k])
            else HalfDone(c0, plan, interval, cat, ms[k])
  {
    if k > 0 {
      var m, s := ms[k - 1], steps[k - 1];
      BetweenRun(c0, plan, interval, cat, ms, steps, k - 1);
      assert ReconciledIn(ms, steps, cat, k) <==> ReconciledIn(ms, steps, cat, k - 1) || Completes(m, s, cat);
      assert ms[(k - 1) + 1] == PaddleRuns.Next(m, s, cat);
      BetweenStep(c0, plan, interval, cat, m, s);
    }
  }

  /**
   * Whatever quiet steps come between a downgrade's two calls, it is held exactly when no reconcile completes
   * between them. If one does, the app shows the lower plan from then on, while the higher one is paid for.
   */
  lemma DowngradeHeldExactlyWhenUndisturbed(
    c0: Cell, cat: Catalog, now: Time, plan: Plan, interval: Interval, term: Time,
    ms: seq<Moment>, steps: seq<PaddleRuns.Step>)
    requires Consistent(c0, cat, now) && Settled(c0, cat, now) && c0.acct.periodEnd == c0.sub.termEnd
    requires Downgrades(c0, cat, now, plan, interval, term) && now + term > c0.sub.termEnd.value
    requires IsQuietRun(ms, steps, cat)
    requires ms[0] == PaddleRuns.Next(Moment(c0, now, Landed), Begin(Owner, plan, interval, term, true), cat)
    ensures var done := PaddleRuns.Next(ms[|steps|], Finish, cat);
      var shown := Reconciled(done.cell, cat, done.now, 3);
      && |shown.sub.charged| > 0
      && (Truthful(shown, cat) <==> !ReconciledIn(ms, steps, cat, |steps|))
      && (!ReconciledIn(ms, steps, cat, |steps|) ==> Consistent(done.cell, cat, done.now))
      && (ReconciledIn(ms, steps, cat, |steps|) ==>
                Shown(shown.acct, cat) == cat.PriceFor(plan, interval) != Some(Billed(shown.sub)))
  {
    ScheduledCell(c0, cat, now, plan, interval, term);
    var half := c0.(sub := c0.sub.(item := cat.PriceFor(plan, interval)));
    assert ms[0] == Moment(half, now, Noting(plan, interval, c0.acct.periodEnd));
    BetweenRun(c0, plan, interval, cat, ms, steps, |steps|);
    LookupRoundTrips(cat, c0.sub.item);
    LookupRoundTrips(cat, cat.PriceFor(plan, interval));
  }

  /** The plan shown is back at the provider, and the markers are still on the account. */
  predicate PutBack(c0: Cell, cat: Catalog, m: Moment) {
    && m.flight.Clearing?
    && m.cell.acct == c0.acct.(status := m.cell.acct.status, periodEnd := m.cell.acct.periodEnd)
    && m.cell.acct.status.Some? && m.cell.acct.status != Some(Comped)
    && m.cell.sub == c0.sub.(status := m.cell.sub.status, item := Shown(c0.acct, cat))
    && Live(m.cell.sub.status) && c0.sub.termEnd.Some? && m.now < c0.sub.termEnd.value
  }

  /** A sweep has swapped the item once more. */
  predicate SwappedAgain(c0: Cell, cat: Catalog, m: Moment) {
    && m.flight.Clearing?
    && m.cell.acct == c0.acct.(status := m.cell.acct.status, periodEnd := m.cell.acct.periodEnd)
    && m.cell.acct.status.Some? && m.cell.acct.status != Some(Comped)
    && m.cell.sub == c0.sub.(status := m.cell.sub.status, item := Target(c0.acct, cat))
    && Live(m.cell.sub.status) && c0.sub.termEnd.Some? && m.now < c0.sub.termEnd.value
  }

  /** A sweep that finds the change due and gets its update through. */
  predicate Sweeps(m: Moment, s: PaddleRuns.Step) {
    s.Sweep? && s.calls >= 2 && DueRow(m.cell.acct, m.now, s.lead).Some?
  }

  predicate SweepsIn(ms: seq<Moment>, steps: seq<PaddleRuns.Step>, k: nat)
    requires k <= |steps| <= |ms|
  {
    exists i :: 0 <= i < k && Sweeps(ms[i], steps[i])
  }

  /** A downgrade pending for the end of the paid term. */
  predicate MayTakeBack(c0: Cell, cat: Catalog, now: Time) {
    && Ready(cat) && PendingSound(c0, cat, now) && PendingActive(c0.acct, now)
    && c0.acct.subscription == Some(c0.sub.id)
  }

  lemma TakingBackStep(c0: Cell, cat: Catalog, now: Time, m: Moment, s: PaddleRuns.Step)
    requires MayTakeBack(c0, cat, now)
    requires Quiet(s) && (s.Pass? ==> PaddleRuns.Allowed(m, s, cat)) && now <= m.now
    requires PutBack(c0, cat, m) || SwappedAgain(c0, cat, m)
    ensures var next := PaddleRuns.Next(m, s, cat);
      && now <= next.now
      && (PutBack(c0, cat, m) && !Sweeps(m, s) ==> PutBack(c0, cat, next))
      && (SwappedAgain(c0, cat, m) || Sweeps(m, s) ==> SwappedAgain(c0, cat, next))
  {
    LookupRoundTrips(cat, Target(c0.acct, cat));
    LookupRoundTrips(cat, Shown(c0.acct, cat));
  }

  lemma {:induction false} TakingBackRun(
    c0: Cell, cat: Catalog, now: Time, ms: seq<Moment>, steps: seq<PaddleRuns.Step>, k: nat)
    requires MayTakeBack(c0, cat, now)
    requires IsQuietRun(ms, steps, cat) && k <= |steps| && PutBack(c0, cat, ms[0]) && ms[0].now == now
    ensures now <= ms[k].now
    ensures if SweepsIn(ms, steps, k) then SwappedAgain(c0, cat, ms[k]) else PutBack(c0, cat, ms[k])
  {
    if k > 0 {
      var m, s := ms[k - 1], steps[k - 1];
      TakingBackRun(c0, cat, now, ms, steps, k - 1);
      assert SweepsIn(ms, steps, k) <==> SweepsIn(ms, steps, k - 1) || Sweeps(m, s);
      assert ms[(k - 1) + 1] == PaddleRuns.Next(m, s, cat);
      TakingBackStep(c0, cat, now, m, s);
    }
  }

  /**
   * Whatever quiet steps come between the two calls of taking a change back in time, the app is left truthful
   * exactly when no sweep swaps the item again between them.
   */
  lemma CancelRightExactlyWhenNoSweepBetween(
    c0: Cell, cat: Catalog, now: Time, term: Time, ms: seq<Moment>, steps: seq<PaddleRuns.Step>)
    requires Consistent(c0, cat, now) && Live(c0.sub.status) && PendingActive(c0.acct, now)
    requires IsQuietRun(ms, steps, cat)
    requires ms[0] == PaddleRuns.Next(Moment(c0, now, Landed), BeginCancel(Owner, term, 2), cat)
    ensures var done := PaddleRuns.Next(ms[|steps|], Finish, cat);
      var shown := Reconciled(done.cell, cat, done.now, 3);
      |shown.sub.charged| > 0 && (Truthful(shown, cat) <==> !SweepsIn(ms, steps, |steps|))
  {
    LookupRoundTrips(cat, Target(c0.acct, cat));
    LookupRoundTrips(cat, Shown(c0.acct, cat));
    assert PutBack(c0, cat, ms[0]);
    TakingBackRun(c0, cat, now, ms, steps, |steps|);
  }
}
