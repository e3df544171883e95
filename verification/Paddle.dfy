/**
 * The provider's subscription and what each billing handler does to one account and its
 * subscription.
 *
 * A handler makes outside calls (provider requests and account writes) one after another.
 * `calls` is how many of them succeed before one fails; a failing call ends the handler there.
 */
module Paddle {
  import opened Options
  import opened Plans
  import opened Accounts

  const DAY: Time := 86400

  /** `charged` is the history of prices the provider has billed; its last entry paid for the current term. */
  datatype Subscription = Subscription(
    id: string,
    status: Status,
    item: Option<string>,
    termEnd: Option<Time>,
    cancelAtEnd: bool,
    charged: seq<string>)

  /** Stands for an account the provider has no subscription for. */
  const NO_SUBSCRIPTION := Subscription("", Canceled, None, None, false, [])

  predicate Live(status: Status) {
    status.Active? || status.Trialing? || status.PastDue?
  }

  datatype Normalized = Normalized(plan: Plan, interval: Option<Interval>, status: Status,
                                   periodEnd: Option<Time>, cancelAtPeriodEnd: bool)

  function Normalize(sub: Subscription, cat: Catalog): Normalized {
    if Live(sub.status)
    then Normalized(cat.PlanOf(sub.item).Or(Free), cat.IntervalOf(sub.item), sub.status, sub.termEnd, sub.cancelAtEnd)
    else Normalized(Free, None, sub.status, sub.termEnd, sub.cancelAtEnd)
  }

  datatype Proration = DoNotBill | ProratedImmediately

  /**
   * The provider's answer to an item update, if it accepts it. The same interval keeps the term;
   * another interval starts a fresh term of length `term`. Only a prorated update bills, and only
   * for an item that was not there already.
   */
  function Updated(sub: Subscription, price: Option<string>, mode: Proration, cat: Catalog, now: Time, term: Time)
    : Option<Subscription>
  {
    if !Live(sub.status) || cat.PlanOf(price).None? then None
    else
      var bills := mode.ProratedImmediately? && price != sub.item;
      var charged := if bills then sub.charged + [price.value] else sub.charged;
      if cat.IntervalOf(price) == cat.IntervalOf(sub.item)
      then Some(sub.(item := price, charged := charged))
      else Some(sub.(item := price, charged := charged, termEnd := Some(now + term)))
  }

  /** What the provider does at the end of a term: bill the item for another one, or stop. */
  function Renewed(sub: Subscription, term: Time): Subscription
    requires sub.termEnd.Some? && sub.item.Some?
  {
    if sub.cancelAtEnd then sub.(status := Canceled)
    else sub.(termEnd := Some(sub.termEnd.value + term), charged := sub.charged + [sub.item.value])
  }

  /** One account beside its subscription. */
  datatype Cell = Cell(acct: Account, sub: Subscription)

  function Wrote(c: Cell, f: Fields): Cell {
    c.(acct := Patched(c.acct, f))
  }

  predicate PendingActive(a: Account, now: Time) {
    a.pendingPlan.Some? && a.pendingAt.Some? && a.pendingAt.value > now
  }

  /** The write of a reconcile that holds the current plan while a change is pending. */
  function HoldFields(a: Account, sub: Subscription): Fields {
    KEEP_ALL.(status := Put(Some(sub.status)),
              periodEnd := Put(if a.periodEnd.Some? then a.periodEnd else sub.termEnd),
              subscription := Put(Some(sub.id)))
  }

  /** The write of a reconcile that shows the provider's item and forgets pending markers. */
  function ShowFields(sub: Subscription, cat: Catalog): Fields {
    var n := Normalize(sub, cat);
    CLEAR_PENDING.(plan := Put(n.plan), status := Put(Some(n.status)), interval := Put(n.interval),
                   periodEnd := Put(n.periodEnd), subscription := Put(Some(sub.id)))
  }

  /** What a reconcile writes once the subscription is known; `a` is the row it read at the start. */
  function RecordFields(a: Account, sub: Subscription, cat: Catalog, now: Time): Option<Fields> {
    if Normalize(sub, cat).plan.Free? then (if a.status.Some? then Some(ResetTo(Some(sub.status))) else None)
    else if PendingActive(a, now) then Some(HoldFields(a, sub))
    else Some(ShowFields(sub, cat))
  }

  function Recorded(c: Cell, a: Account, cat: Catalog, now: Time, calls: nat): Cell {
    var f := RecordFields(a, c.sub, cat, now);
    if f.Some? && calls > 0 then Wrote(c, f.value) else c
  }

  function Reconciled(c: Cell, cat: Catalog, now: Time, calls: nat): Cell {
    var a := c.acct;
    if a.status == Some(Comped) then
      if a.periodEnd.Some? && a.periodEnd.value < now && calls > 0 then Wrote(c, ResetTo(None)) else c
    else if calls == 0 then c
    else if a.subscription.Some? then
      if a.subscription == Some(c.sub.id) then Recorded(c, a, cat, now, calls - 1) else c
    else if !Live(c.sub.status) then
      if a.status.Some? && calls > 1 then Wrote(c, ResetTo(None)) else c
    else if calls == 1 then c
    else Recorded(Wrote(c, KEEP_ALL.(subscription := Put(Some(c.sub.id)))), a, cat, now, calls - 2)
  }

  datatype Outcome =
    | Forbidden | NoActiveSubscription | AlreadyOnPlan | IntervalUnsupported | Failed
    | PlanChanged | PlanChangeScheduled | PlanChangeCancelled | SubscriptionCancelled | SubscriptionResumed

  /** The guard shared by the handlers that change a live subscription. */
  function LoadForChange(a: Account, role: Role): Option<Outcome> {
    if !role.Owner? then Some(Forbidden)
    else if a.subscription.None? || a.status == Some(Comped) then Some(NoActiveSubscription)
    else None
  }

  function CurrentPrice(a: Account, cat: Catalog): Option<string> {
    cat.PriceFor(a.plan, a.interval.Or(Month))
  }

  function RequestedDirection(a: Account, plan: Plan, interval: Interval): Direction {
    DirectionOf(a.plan, a.interval.Or(Month), plan, interval)
  }

  /** Why a change request is turned down before anything is touched, if it is. */
  function ChangeRefused(a: Account, role: Role, plan: Plan, interval: Interval): Option<Outcome> {
    var direction := RequestedDirection(a, plan, interval);
    var current := a.interval.Or(Month);
    if LoadForChange(a, role).Some? then LoadForChange(a, role)
    else if direction.Same? then Some(AlreadyOnPlan)
    else if interval != current && current.Year? then Some(IntervalUnsupported)
    else if direction.Downgrade? && interval != current && current.Month? then Some(IntervalUnsupported)
    else None
  }

  function UpdateItem(c: Cell, price: Option<string>, mode: Proration, cat: Catalog, now: Time, term: Time)
    : Option<Cell>
  {
    if c.acct.subscription != Some(c.sub.id) then None
    else
      var s := Updated(c.sub, price, mode, cat, now, term);
      if s.Some? then Some(c.(sub := s.value)) else None
  }

  function PendingFields(plan: Plan, interval: Interval, at: Option<Time>): Fields {
    KEEP_ALL.(pendingPlan := Put(Some(plan)), pendingInterval := Put(Some(interval)), pendingAt := Put(at))
  }

  /** A change request. A downgrade that is not refused keeps the interval. */
  function Changed(c: Cell, cat: Catalog, now: Time, role: Role, plan: Plan, interval: Interval, term: Time, calls: nat)
    : (Cell, Outcome)
  {
    var refused := ChangeRefused(c.acct, role, plan, interval);
    if refused.Some? then (c, refused.value)
    else
      var up := RequestedDirection(c.acct, plan, interval).Upgrade?;
      var mode := if up then ProratedImmediately else DoNotBill;
      var swapped := UpdateItem(c, cat.PriceFor(plan, interval), mode, cat, now, term);
      if calls == 0 || swapped.None? then (c, Failed)
      else if up then
        (Reconciled(swapped.value, cat, now, calls - 1),
         if ReconcileCompletes(swapped.value, cat, now, calls - 1) then PlanChanged else Failed)
      else if calls == 1 then (swapped.value, Failed)
      else (Wrote(swapped.value, PendingFields(plan, interval, c.acct.periodEnd)), PlanChangeScheduled)
  }

  /** Cancelling a scheduled change: put the current plan's item back if it was swapped, then forget the markers. */
  function ChangeCancelled(c: Cell, cat: Catalog, now: Time, role: Role, term: Time, calls: nat): (Cell, Outcome) {
    var refused := LoadForChange(c.acct, role);
    if refused.Some? then (c, refused.value)
    else if c.acct.pendingPlan.None? then (c, PlanChangeCancelled)
    else if calls == 0 || c.acct.subscription != Some(c.sub.id) then (c, Failed)
    else
      var price := CurrentPrice(c.acct, cat);
      if price.Some? && c.sub.item != price then
        var swapped := UpdateItem(c, price, DoNotBill, cat, now, term);
        if calls == 1 || swapped.None? then (c, Failed)
        else if calls == 2 then (swapped.value, Failed)
        else (Wrote(swapped.value, CLEAR_PENDING), PlanChangeCancelled)
      else if calls == 1 then (c, Failed)
      else (Wrote(c, CLEAR_PENDING), PlanChangeCancelled)
  }

  /** The columns a sweep selects for one account. */
  datatype Row = Row(plan: Plan, interval: Option<Interval>, at: Time, subscription: string)

  /** The row a sweep selects for an account at `now`, if its pending change is due. */
  function DueRow(a: Account, now: Time, lead: Time): Option<Row> {
    if a.pendingPlan.Some? && a.pendingAt.Some? && a.subscription.Some? && a.status != Some(Comped)
       && a.pendingAt.value <= now + lead
    then Some(Row(a.pendingPlan.value, a.pendingInterval, a.pendingAt.value, a.subscription.value))
    else None
  }

  datatype Decision = Skip | Retarget(at: Time) | Swap(price: string, mode: Proration)

  /** What a sweep decides for one selected row, from the subscription it has just read. */
  function Decide(r: Row, sub: Subscription, cat: Catalog): Decision {
    var interval := r.interval.Or(Month);
    var target := cat.PriceFor(r.plan, interval);
    if target.None? || sub.item == target then Skip
    else if sub.termEnd.Some? && sub.termEnd.value - r.at > DAY then Retarget(sub.termEnd.value)
    else Swap(target.value, if cat.IntervalOf(sub.item) == Some(interval) then DoNotBill else ProratedImmediately)
  }

  /** One row of a sweep, and whether it counts as applied. */
  function SweptRow(c: Cell, r: Row, cat: Catalog, now: Time, term: Time, calls: nat): (Cell, bool) {
    if calls == 0 || r.subscription != c.sub.id then (c, false)
    else
      match Decide(r, c.sub, cat)
      case Skip => (c, false)
      case Retarget(at) => (if calls > 1 then Wrote(c, KEEP_ALL.(pendingAt := Put(Some(at)))) else c, false)
      case Swap(price, mode) =>
        var s := Updated(c.sub, Some(price), mode, cat, now, term);
        if calls == 1 || s.None? then (c, false)
        else
          var next := c.(sub := s.value);
          (Reconciled(next, cat, now, calls - 2), ReconcileCompletes(next, cat, now, calls - 2))
  }

  /** Whether a reconcile gets through without a failing call. */
  predicate ReconcileCompletes(c: Cell, cat: Catalog, now: Time, calls: nat) {
    var a := c.acct;
    if a.status == Some(Comped) then !(a.periodEnd.Some? && a.periodEnd.value < now) || calls > 0
    else if calls == 0 then false
    else if a.subscription.Some? then
      a.subscription == Some(c.sub.id) && (RecordFields(a, c.sub, cat, now).None? || calls > 1)
    else if !Live(c.sub.status) then a.status.None? || calls > 1
    else calls > 1 && (RecordFields(a, c.sub, cat, now).None? || calls > 2)
  }

  /** One account's share of a sweep. */
  function Swept(c: Cell, cat: Catalog, now: Time, lead: Time, term: Time, calls: nat): (Cell, bool) {
    var r := DueRow(c.acct, now, lead);
    if r.None? then (c, false) else SweptRow(c, r.value, cat, now, term, calls)
  }

  function CancelRequested(c: Cell, role: Role, calls: nat): (Cell, Outcome) {
    var refused := LoadForChange(c.acct, role);
    if refused.Some? then (c, refused.value)
    else if calls == 0 || c.acct.subscription != Some(c.sub.id) || !Live(c.sub.status) then (c, Failed)
    else (c.(sub := c.sub.(cancelAtEnd := true)), SubscriptionCancelled)
  }

  function Resumed(c: Cell, role: Role, calls: nat): (Cell, Outcome) {
    var refused := LoadForChange(c.acct, role);
    if refused.Some? then (c, refused.value)
    else if calls == 0 || c.acct.subscription != Some(c.sub.id) || !Live(c.sub.status) then (c, Failed)
    else (c.(sub := c.sub.(cancelAtEnd := false)), SubscriptionResumed)
  }
}
