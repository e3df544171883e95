/**
 * Runs of one account against its subscription: what every step keeps, and when a reconcile
 * shows the tier the provider has billed.
 */
module PaddleRuns {
  import opened Options
  import opened Plans
  import opened Accounts
  import opened Paddle

  /** All four prices are configured and no two coincide. */
  predicate Ready(cat: Catalog) { cat.Distinct() && cat.Complete() }

  /** The price the provider billed for the current term. */
  function Billed(sub: Subscription): string
    requires |sub.charged| > 0
  {
    sub.charged[|sub.charged| - 1]
  }

  predicate IsPrice(cat: Catalog, price: Option<string>) { cat.PlanOf(price).Some? }

  /** What the app shows for an account, as a provider price. */
  function Shown(a: Account, cat: Catalog): Option<string> {
    if a.interval.Some? then cat.PriceFor(a.plan, a.interval.value) else None
  }

  function Target(a: Account, cat: Catalog): Option<string> {
    if a.pendingPlan.Some? && a.pendingInterval.Some?
    then cat.PriceFor(a.pendingPlan.value, a.pendingInterval.value) else None
  }

  /**
   * A recorded downgrade: it keeps the interval, the provider's item is either swapped already or not
   * yet, and while the date is in the future it is the end of the term the shown plan was billed for.
   */
  predicate PendingSound(c: Cell, cat: Catalog, now: Time) {
    && c.acct.subscription.Some? && c.acct.status.Some?
    && c.acct.pendingAt.Some?
    && c.acct.interval.Some? && c.acct.pendingInterval == c.acct.interval
    && IsPrice(cat, Target(c.acct, cat)) && IsPrice(cat, Shown(c.acct, cat))
    && c.acct.pendingPlan.Some? && Rank(c.acct.pendingPlan.value) < Rank(c.acct.plan)
    && (c.sub.item == Target(c.acct, cat) || c.sub.item == Shown(c.acct, cat))
    && c.sub.termEnd.Some?
    && |c.sub.charged| > 0
    && if c.acct.pendingAt.value > now
       then c.acct.pendingAt == c.sub.termEnd && Shown(c.acct, cat) == Some(Billed(c.sub))
       else c.sub.termEnd.value > c.acct.pendingAt.value + DAY
  }

  /** The row shows the billed tier, or missed an upgrade to a higher tier on the same interval. */
  predicate Current(c: Cell, cat: Catalog)
    requires |c.sub.charged| > 0
  {
    var billed := Some(Billed(c.sub));
    || Shown(c.acct, cat) == billed
    || (c.acct.interval == cat.IntervalOf(billed) && Rank(cat.PlanOf(billed).Or(Free)) > Rank(c.acct.plan))
  }

  /** The relation between the account row and the subscription, kept by every step. */
  predicate Consistent(c: Cell, cat: Catalog, now: Time) {
    && Ready(cat)
    && |c.sub.charged| > 0
    && (c.acct.subscription.Some? ==> c.acct.subscription == Some(c.sub.id))
    && c.acct.status != Some(Comped) && c.sub.status != Comped
    && (c.acct.status.None? ==> c.acct.plan.Free?)
    && (Live(c.sub.status) ==>
          && IsPrice(cat, c.sub.item)
          && c.sub.termEnd.Some? && now < c.sub.termEnd.value
          && IsPrice(cat, Some(Billed(c.sub)))
          && (c.acct.periodEnd.Some? ==> c.acct.periodEnd.value <= c.sub.termEnd.value)
          && (c.acct.periodEnd == c.sub.termEnd ==> Current(c, cat))
          && (c.acct.pendingPlan.Some? ==> PendingSound(c, cat, now))
          && (!PendingActive(c.acct, now) ==> c.sub.item == Some(Billed(c.sub))))
  }

  // ----- handlers between two of their calls

  /** The account write that a handler has still to make after the provider answered it. */
  datatype Flight =
    | Landed
    | Noting(plan: Plan, interval: Interval, at: Option<Time>)
    | Clearing

  function FieldsOf(f: Flight): Fields {
    match f
    case Landed => KEEP_ALL
    case Noting(plan, interval, at) => PendingFields(plan, interval, at)
    case Clearing => CLEAR_PENDING
  }

  /** A change request up to the provider's answer: an upgrade has then its reconcile left, a downgrade its note. */
  function Begun(
    c: Cell, cat: Catalog, now: Time, role: Role, plan: Plan, interval: Interval, term: Time, answered: bool)
    : (Cell, Flight)
  {
    var up := RequestedDirection(c.acct, plan, interval).Upgrade?;
    var mode := if up then ProratedImmediately else DoNotBill;
    var swapped := UpdateItem(c, cat.PriceFor(plan, interval), mode, cat, now, term);
    if ChangeRefused(c.acct, role, plan, interval).Some? || !answered || swapped.None? then (c, Landed)
    else (swapped.value, if up then Landed else Noting(plan, interval, c.acct.periodEnd))
  }

  /** Taking a scheduled change back, up to the provider's answer. */
  function CancelBegun(c: Cell, cat: Catalog, now: Time, role: Role, term: Time, calls: nat): (Cell, Flight) {
    if LoadForChange(c.acct, role).Some? || c.acct.pendingPlan.None? || calls == 0
       || c.acct.subscription != Some(c.sub.id)
    then (c, Landed)
    else
      var price := CurrentPrice(c.acct, cat);
      if price.Some? && c.sub.item != price then
        var swapped := UpdateItem(c, price, DoNotBill, cat, now, term);
        if calls == 1 || swapped.None? then (c, Landed) else (swapped.value, Clearing)
      else (c, Clearing)
  }

  /** The whole request is its first part and then the note of a downgrade, or the reconcile of an accepted upgrade. */
  lemma ChangeInTwoParts(
    c: Cell, cat: Catalog, now: Time, role: Role, plan: Plan, interval: Interval, term: Time, calls: nat)
    ensures var (half, flight) := Begun(c, cat, now, role, plan, interval, term, calls > 0);
      var accepted :=
        && ChangeRefused(c.acct, role, plan, interval).None? && RequestedDirection(c.acct, plan, interval).Upgrade?
        && calls > 0 && UpdateItem(c, cat.PriceFor(plan, interval), ProratedImmediately, cat, now, term).Some?;
      Changed(c, cat, now, role, plan, interval, term, calls).0
      == if flight.Noting? && calls > 1 then Wrote(half, FieldsOf(flight))
         else if accepted then Reconciled(half, cat, now, calls - 1)
         else half
  {
  }

  lemma CancelInTwoParts(c: Cell, cat: Catalog, now: Time, role: Role, term: Time, calls: nat)
    ensures var (half, flight) := CancelBegun(c, cat, now, role, term, calls);
      ChangeCancelled(c, cat, now, role, term, calls).0
      == if flight.Clearing? && calls > (if half == c then 1 else 2) then Wrote(half, CLEAR_PENDING) else half
  {
  }

  /**
   * The relation while a handler may be under way: it will hold once the outstanding write is made, and it
   * holds already, unless that write is the note of a downgrade whose item is swapped and nothing is pending.
   */
  predicate Steady(c: Cell, f: Flight, cat: Catalog, now: Time) {
    && Consistent(Wrote(c, FieldsOf(f)), cat, now)
    && (Consistent(c, cat, now) || (f.Noting? && Live(c.sub.status) && !PendingActive(c.acct, now)))
    && (f.Noting? ==>
          && c.acct.subscription.Some? && c.acct.status.Some?
          && (c.acct.pendingPlan.Some? ==>
                cat.PriceFor(c.acct.pendingPlan.value, c.acct.pendingInterval.Or(Month)) == c.sub.item))
  }

  // ----- runs

  /**
   * `Begin` and `BeginCancel` are requests up to the provider's answer; `Finish` is the write that is left and
   * `Drop` its failure. Any other step may come in between.
   */
  datatype Step =
    | Reconcile(calls: nat)
    | Begin(role: Role, plan: Plan, interval: Interval, term: Time, answered: bool)
    | BeginCancel(role: Role, term: Time, calls: nat)
    | Finish
    | Drop
    | Sweep(lead: Time, term: Time, calls: nat)
    | Cancel(role: Role, calls: nat)
    | Resume(role: Role, calls: nat)
    | Pass(until: Time)
    | Renew(term: Time)
    | Report(status: Status)

  datatype Moment = Moment(cell: Cell, now: Time, flight: Flight)

  /** Swapped and not noted yet: nothing on the account says that the plan shown is to be held. */
  predicate Unnoted(m: Moment) {
    m.flight.Noting? && Live(m.cell.sub.status) && !PendingActive(m.cell.acct, m.now)
  }

  /**
   * When a step may happen. The first conditions are the callers' part: an account has one change under way
   * at a time; a change request needs a stored period end that is the provider's, and an upgrade nothing pending;
   * between a downgrade's two calls no reconcile completes and the second does not fail; a scheduled change is
   * cancelled before its date, and no sweep finds it due meanwhile. The rest is the provider's contract: a live
   * subscription never outlives its term end, it renews exactly then, terms are longer than a day
   * (and a fresh yearly one outlasts the month it replaces), and an ended subscription stays ended.
   */
  predicate Allowed(m: Moment, s: Step, cat: Catalog) {
    var a, sub := m.cell.acct, m.cell.sub;
    match s
    case Reconcile(calls) => Unnoted(m) ==> !ReconcileCompletes(m.cell, cat, m.now, calls)
    case Begin(role, plan, interval, term, _) =>
      && m.flight.Landed?
      && a.periodEnd == sub.termEnd
      && (sub.termEnd.Some? ==> m.now + term > sub.termEnd.value)
      && (RequestedDirection(a, plan, interval).Upgrade? ==> a.pendingPlan.None?)
    case BeginCancel(_, term, _) =>
      m.flight.Landed? && (a.pendingPlan.Some? ==> PendingActive(a, m.now)) && term > DAY
    case Finish => !m.flight.Landed?
    case Drop => !m.flight.Landed? && !Unnoted(m)
    case Sweep(lead, term, _) => term > DAY && (m.flight.Clearing? ==> DueRow(a, m.now, lead).None?)
    case Pass(until) => m.now <= until && (Live(sub.status) && sub.termEnd.Some? ==> until < sub.termEnd.value)
    case Renew(term) => Live(sub.status) && sub.termEnd.Some? && sub.item.Some? && term > DAY
    case Report(status) => Live(sub.status) && status != Comped
    case _ => true
  }

  function Next(m: Moment, s: Step, cat: Catalog): Moment
    requires s.Renew? ==> m.cell.sub.termEnd.Some? && m.cell.sub.item.Some?
  {
    var c := m.cell;
    match s
    case Reconcile(calls) => m.(cell := Reconciled(c, cat, m.now, calls))
    case Begin(role, plan, interval, term, answered) =>
      var (half, flight) := Begun(c, cat, m.now, role, plan, interval, term, answered);
      Moment(half, m.now, flight)
    case BeginCancel(role, term, calls) =>
      var (half, flight) := CancelBegun(c, cat, m.now, role, term, calls);
      Moment(half, m.now, flight)
    case Finish => Moment(Wrote(c, FieldsOf(m.flight)), m.now, Landed)
    case Drop => m.(flight := Landed)
    case Sweep(lead, term, calls) => m.(cell := Swept(c, cat, m.now, lead, term, calls).0)
    case Cancel(role, calls) => m.(cell := CancelRequested(c, role, calls).0)
    case Resume(role, calls) => m.(cell := Resumed(c, role, calls).0)
    case Pass(until) => m.(now := until)
    case Renew(term) => m.(cell := c.(sub := Renewed(c.sub, term)), now := c.sub.termEnd.value)
    case Report(status) => m.(cell := c.(sub := c.sub.(status := status)))
  }

  /**
   * A run that cancels ends with the term: nothing more is billed, and the next reconcile shows the free plan. If it
   * resumes before, the term's end bills the item again.
   */
  lemma CancelledRunTurnsFree(m: Moment, cat: Catalog, term: Time)
    requires cat.Distinct() && m.cell.acct.status.Some? && m.cell.acct.status != Some(Comped)
    requires m.cell.acct.subscription == Some(m.cell.sub.id) && Live(m.cell.sub.status)
    requires m.cell.sub.termEnd.Some? && m.cell.sub.item.Some?
    ensures var cancelled, was := Next(m, Cancel(Owner, 1), cat), m.cell.sub;
      var over := Next(cancelled, Renew(term), cat);
      var renewed := Next(Next(cancelled, Resume(Owner, 1), cat), Renew(term), cat);
      && over.now == renewed.now == was.termEnd.value
      && over.cell.sub.charged == was.charged && Next(over, Reconcile(3), cat).cell.acct.plan.Free?
      && renewed.cell.sub.charged == was.charged + [was.item.value]
      && renewed.cell.sub.termEnd == Some(was.termEnd.value + term)
  {
  }

  /** Once time has passed the date of a change that is in place at the provider, the next reconcile shows it. */
  lemma ChangeIsShownAfterDate(m: Moment, cat: Catalog, until: Time, plan: Plan, interval: Interval)
    requires cat.Distinct() && m.cell.sub.item.Some? && m.cell.sub.item == cat.PriceFor(plan, interval)
    requires m.cell.acct.subscription == Some(m.cell.sub.id) && m.cell.acct.status != Some(Comped)
    requires Live(m.cell.sub.status) && PendingActive(m.cell.acct, m.now) && m.cell.acct.pendingAt.value <= until
    ensures var held := Next(m, Reconcile(3), cat).cell.acct;
      held.plan == m.cell.acct.plan && held.pendingPlan == m.cell.acct.pendingPlan
    ensures var shown := Next(Next(m, Pass(until), cat), Reconcile(3), cat).cell.acct;
      shown.plan == plan && shown.interval == Some(interval) && shown.pendingPlan.None? && shown.pendingAt.None?
  {
  }

  /** A status the provider reports is on the account after the next reconcile; one that ends the billing frees it. */
  lemma ReportedStatusIsShown(m: Moment, cat: Catalog, status: Status)
    requires cat.Distinct() && cat.PlanOf(m.cell.sub.item).Some?
    requires m.cell.acct.subscription == Some(m.cell.sub.id)
    requires m.cell.acct.status.Some? && m.cell.acct.status != Some(Comped)
    ensures var a := Next(Next(m, Report(status), cat), Reconcile(3), cat).cell.acct;
      a.status == Some(status) && (!Live(status) ==> a.plan.Free? && a.pendingPlan.None?)
  {
    LookupRoundTrips(cat, m.cell.sub.item);
  }

  /** Whether the outstanding write is made or fails, the account may ask for another change. */
  lemma LandsEitherWay(m: Moment, cat: Catalog)
    ensures Next(m, Finish, cat).flight.Landed? && Next(m, Drop, cat) == Moment(m.cell, m.now, Landed)
    ensures m.flight.Noting? ==>
      var a := Next(m, Finish, cat).cell.acct;
      a == m.cell.acct.(pendingPlan := a.pendingPlan, pendingInterval := a.pendingInterval, pendingAt := a.pendingAt)
      && a.pendingPlan == Some(m.flight.plan) && a.pendingInterval == Some(m.flight.interval)
      && a.pendingAt == m.flight.at
    ensures m.flight.Clearing? ==>
      Next(m, Finish, cat).cell.acct == m.cell.acct.(pendingPlan := None, pendingInterval := None, pendingAt := None)
  {
  }

  predicate SteadyAt(m: Moment, cat: Catalog) {
    Steady(m.cell, m.flight, cat, m.now)
  }

  lemma ReconcileKeeps(c: Cell, cat: Catalog, now: Time, calls: nat)
    requires Consistent(c, cat, now)
    ensures Consistent(Reconciled(c, cat, now, calls), cat, now)
    ensures Reconciled(c, cat, now, calls).sub == c.sub
  {
    if Live(c.sub.status) {
      LookupRoundTrips(cat, c.sub.item);
    }
  }

  /** A downgrade's first call leaves a cell that its note makes consistent, an upgrade's a consistent one. */
  lemma BeginKeeps(
    c: Cell, cat: Catalog, now: Time, role: Role, plan: Plan, interval: Interval, term: Time, answered: bool)
    requires Consistent(c, cat, now)
    requires Allowed(Moment(c, now, Landed), Begin(role, plan, interval, term, answered), cat)
    ensures var (half, flight) := Begun(c, cat, now, role, plan, interval, term, answered);
      Steady(half, flight, cat, now)
  {
  }

  lemma BeginCancelKeeps(c: Cell, cat: Catalog, now: Time, role: Role, term: Time, calls: nat)
    requires Consistent(c, cat, now)
    requires Allowed(Moment(c, now, Landed), BeginCancel(role, term, calls), cat)
    ensures var (half, flight) := CancelBegun(c, cat, now, role, term, calls); Steady(half, flight, cat, now)
  {
  }

  lemma SweepKeeps(c: Cell, cat: Catalog, now: Time, lead: Time, term: Time, calls: nat)
    requires Consistent(c, cat, now)
    ensures Consistent(Swept(c, cat, now, lead, term, calls).0, cat, now)
  {
    var r := DueRow(c.acct, now, lead);
    if r.Some? && calls > 1 && r.value.subscription == c.sub.id {
      var d := Decide(r.value, c.sub, cat);
      if d.Swap? && Updated(c.sub, Some(d.price), d.mode, cat, now, term).Some? {
        ReconcileKeeps(c.(sub := Updated(c.sub, Some(d.price), d.mode, cat, now, term).value), cat, now, calls - 2);
      }
    }
  }

  /** Between a downgrade's two calls a sweep finds the item where it should be. */
  lemma SweepSkipsNoted(m: Moment, cat: Catalog, lead: Time, term: Time, calls: nat)
    requires SteadyAt(m, cat) && m.flight.Noting?
    ensures Swept(m.cell, cat, m.now, lead, term, calls).0 == m.cell
  {
  }

  lemma ReconcileStepKeeps(m: Moment, cat: Catalog, calls: nat)
    requires SteadyAt(m, cat) && Allowed(m, Reconcile(calls), cat)
    ensures SteadyAt(Next(m, Reconcile(calls), cat), cat)
  {
    if Unnoted(m) {
      assert Reconciled(m.cell, cat, m.now, calls) == m.cell;
    } else {
      ReconcileKeeps(m.cell, cat, m.now, calls);
    }
  }

  lemma WriteStepKeeps(m: Moment, s: Step, cat: Catalog)
    requires SteadyAt(m, cat) && Allowed(m, s, cat)
    requires s.Finish? || s.Drop?
    ensures SteadyAt(Next(m, s, cat), cat)
  {
  }

  lemma SubscriptionStepKeeps(m: Moment, s: Step, cat: Catalog)
    requires SteadyAt(m, cat) && Allowed(m, s, cat)
    requires s.Cancel? || s.Resume?
    ensures SteadyAt(Next(m, s, cat), cat)
  {
  }

  lemma ReportStepKeeps(m: Moment, status: Status, cat: Catalog)
    requires SteadyAt(m, cat) && Allowed(m, Report(status), cat)
    ensures SteadyAt(Next(m, Report(status), cat), cat)
  {
  }

  lemma ClockStepKeeps(m: Moment, s: Step, cat: Catalog)
    requires SteadyAt(m, cat) && Allowed(m, s, cat)
    requires s.Pass? || s.Renew?
    ensures SteadyAt(Next(m, s, cat), cat)
  {
  }

  lemma StepKeeps(m: Moment, s: Step, cat: Catalog)
    requires SteadyAt(m, cat) && Allowed(m, s, cat)
    ensures SteadyAt(Next(m, s, cat), cat)
  {
    match s {
      case Reconcile(calls) => ReconcileStepKeeps(m, cat, calls);
      case Begin(role, plan, interval, term, answered) =>
        BeginKeeps(m.cell, cat, m.now, role, plan, interval, term, answered);
      case BeginCancel(role, term, calls) => BeginCancelKeeps(m.cell, cat, m.now, role, term, calls);
      case Sweep(lead, term, calls) =>
        if m.flight.Noting? {
          SweepSkipsNoted(m, cat, lead, term, calls);
        } else {
          SweepKeeps(m.cell, cat, m.now, lead, term, calls);
        }
      case Finish => WriteStepKeeps(m, s, cat);
      case Drop => WriteStepKeeps(m, s, cat);
      case Pass(_) => ClockStepKeeps(m, s, cat);
      case Renew(_) => ClockStepKeeps(m, s, cat);
      case Report(status) => ReportStepKeeps(m, status, cat);
      case _ => SubscriptionStepKeeps(m, s, cat);
    }
  }

  predicate IsRun(ms: seq<Moment>, steps: seq<Step>, cat: Catalog) {
    && |ms| == |steps| + 1
    && forall i :: 0 <= i < |steps| ==> Allowed(ms[i], steps[i], cat) && ms[i + 1] == Next(ms[i], steps[i], cat)
  }

  lemma {:induction false} RunKeeps(ms: seq<Moment>, steps: seq<Step>, cat: Catalog, k: nat)
    requires IsRun(ms, steps, cat) && SteadyAt(ms[0], cat) && k < |ms|
    ensures SteadyAt(ms[k], cat)
  {
    if k > 0 {
      RunKeeps(ms, steps, cat, k - 1);
      StepKeeps(ms[k - 1], steps[k - 1], cat);
      assert ms[(k - 1) + 1] == Next(ms[k - 1], steps[k - 1], cat);
    }
  }

  /** What an account should show: the billed tier while the subscription lives, the free plan after. */
  predicate Truthful(c: Cell, cat: Catalog)
    requires |c.sub.charged| > 0
  {
    if Live(c.sub.status) then Shown(c.acct, cat) == Some(Billed(c.sub)) else c.acct.plan.Free?
  }

  lemma ReconcileIsTruthful(c: Cell, cat: Catalog, now: Time, calls: nat)
    requires Consistent(c, cat, now) && calls >= 3
    ensures Truthful(Reconciled(c, cat, now, calls), cat)
  {
    if Live(c.sub.status) {
      LookupRoundTrips(cat, c.sub.item);
    }
  }

  /** In every run, a reconcile whose calls succeed leaves the plan at the tier the current term was billed at. */
  lemma EveryReconcileIsTruthful(ms: seq<Moment>, steps: seq<Step>, cat: Catalog, k: nat)
    requires IsRun(ms, steps, cat) && SteadyAt(ms[0], cat)
    requires k < |steps| && steps[k].Reconcile? && steps[k].calls >= 3
    ensures |ms[k + 1].cell.sub.charged| > 0 && Truthful(ms[k + 1].cell, cat)
  {
    RunKeeps(ms, steps, cat, k);
    assert ms[k + 1] == Next(ms[k], steps[k], cat);
    ReconcileIsTruthful(ms[k].cell, cat, ms[k].now, steps[k].calls);
  }

  /** A subscription bought at `price` and not yet recorded is a consistent start. */
  lemma FreshPurchaseIsConsistent(c: Cell, cat: Catalog, now: Time, price: string)
    requires Ready(cat) && IsPrice(cat, Some(price))
    requires c.acct.plan.Free? && c.acct.status != Some(Comped)
    requires c.acct.pendingPlan.None? && c.acct.periodEnd.None? && c.acct.subscription.None?
    requires c.sub.status.Active? && c.sub.item == Some(price) && c.sub.charged == [price]
    requires c.sub.termEnd.Some? && now < c.sub.termEnd.value
    ensures Consistent(c, cat, now)
  {
  }
}
