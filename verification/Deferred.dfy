/**
 * A recorded yearly-to-monthly change, which only the periodic sweep can carry out: when sweeps
 * come often enough, it is swapped before the renewal and no further year is billed.
 */
module Deferred {
  import opened Options
  import opened Plans
  import opened Accounts
  import opened Paddle
  import opened PaddleRuns

  /** One account under watch, with the time of the last completed sweep. */
  datatype Watch = Watch(cell: Cell, now: Time, lastSweep: Time)

  datatype Event =
    | Reconciles(calls: nat)
    | Sweeps(term: Time, calls: nat)
    | Passes(until: Time)
    | Renews(term: Time)
    | Reports(status: Status)

  /** How many calls a sweep makes for one account at most: read, update, and the two of the reconcile. */
  const SWEEP_CALLS := 4

  /** Any sweep may fail part way; time never runs more than `gap` past the last one that completed. */
  predicate Possible(w: Watch, e: Event, gap: Time) {
    match e
    case Reconciles(_) => true
    case Sweeps(term, calls) => term > 0
    case Passes(until) =>
      w.now <= until <= w.lastSweep + gap && (w.cell.sub.termEnd.Some? ==> until < w.cell.sub.termEnd.value)
    case Renews(term) =>
      w.cell.sub.termEnd.Some? && w.cell.sub.item.Some? && w.cell.sub.termEnd.value <= w.lastSweep + gap && term > 0
    case Reports(status) => Live(status)
  }

  function After(w: Watch, e: Event, cat: Catalog, lead: Time, gap: Time): Watch
    requires Possible(w, e, gap)
  {
    match e
    case Reconciles(calls) => w.(cell := Reconciled(w.cell, cat, w.now, calls))
    case Sweeps(term, calls) =>
      w.(cell := Swept(w.cell, cat, w.now, lead, term, calls).0,
         lastSweep := if calls >= SWEEP_CALLS then w.now else w.lastSweep)
    case Passes(until) => w.(now := until)
    case Renews(term) => w.(cell := w.cell.(sub := Renewed(w.cell.sub, term)), now := w.cell.sub.termEnd.value)
    case Reports(status) => w.(cell := w.cell.(sub := w.cell.sub.(status := status)))
  }

  /** A renewal comes exactly at the term's end; a status reported is shown by the next reconcile. */
  lemma RenewalIsAtTermEnd(
    w: Watch, cat: Catalog, lead: Time, gap: Time, term: Time, status: Status)
    requires Possible(w, Renews(term), gap) && Live(status) && cat.Distinct() && cat.PlanOf(w.cell.sub.item).Some?
    requires w.cell.acct.subscription == Some(w.cell.sub.id) && w.cell.acct.status != Some(Comped)
    ensures After(w, Renews(term), cat, lead, gap).now == w.cell.sub.termEnd.value
    ensures After(After(w, Reports(status), cat, lead, gap), Reconciles(3), cat, lead, gap).cell.acct.status
            == Some(status)
  {
  }

  /** A paid year with a monthly change recorded for its end, more than `gap` before that end. */
  predicate Recorded(w: Watch, cat: Catalog, gap: Time) {
    var a, sub := w.cell.acct, w.cell.sub;
    && Ready(cat)
    && a.subscription == Some(sub.id) && a.status.Some? && a.status != Some(Comped) && Live(sub.status)
    && |sub.charged| > 0 && sub.item == Some(Billed(sub)) && IsPrice(cat, sub.item)
    && a.interval == Some(Year) && Shown(a, cat) == sub.item
    && a.pendingPlan.Some? && a.pendingInterval == Some(Month) && IsPrice(cat, Target(a, cat))
    && sub.termEnd.Some? && a.pendingAt == sub.termEnd && !sub.cancelAtEnd
    && w.lastSweep <= w.now <= w.lastSweep + gap && w.now + gap < sub.termEnd.value
  }

  /** Not swapped yet: nothing moved, and the next sweep still falls before the date. */
  predicate Waiting(w0: Watch, w: Watch, lead: Time) {
    && w.cell.acct == w0.cell.acct.(status := w.cell.acct.status, periodEnd := w.cell.acct.periodEnd)
    && w.cell.acct.status.Some? && w.cell.acct.status != Some(Comped)
    && w.cell.sub == w0.cell.sub.(status := w.cell.sub.status) && Live(w.cell.sub.status)
    && w0.cell.sub.termEnd.Some? && w.now < w0.cell.sub.termEnd.value
    && (w.lastSweep <= w0.now || w.lastSweep + lead < w0.cell.sub.termEnd.value)
  }

  /** Swapped: everything billed since is the monthly price, and before the date the app still shows the year's plan. */
  predicate Swapped(w0: Watch, w: Watch, cat: Catalog) {
    var a0, a, sub0, sub := w0.cell.acct, w.cell.acct, w0.cell.sub, w.cell.sub;
    && a.subscription == Some(sub.id) && a.status.Some? && a.status != Some(Comped) && Live(sub.status)
    && !sub.cancelAtEnd && sub.termEnd.Some? && w.now < sub.termEnd.value
    && Target(a0, cat).Some? && sub.item == Target(a0, cat)
    && |sub.charged| > |sub0.charged| && sub0.charged <= sub.charged
    && (forall i :: |sub0.charged| <= i < |sub.charged| ==> Some(sub.charged[i]) == Target(a0, cat))
    && (a.pendingPlan.Some? ==>
          a.plan == a0.plan && a.interval == a0.interval && a.pendingAt == a0.pendingAt
          && a.pendingPlan == a0.pendingPlan && a.pendingInterval == a0.pendingInterval)
    && (a.pendingPlan.None? ==> Shown(a, cat) == Target(a0, cat))
    && (a0.pendingAt.Some? && w.now < a0.pendingAt.value ==> a.pendingPlan.Some?)
  }

  lemma WaitingStep(w0: Watch, w: Watch, e: Event, cat: Catalog, lead: Time, gap: Time)
    requires Recorded(w0, cat, gap) && gap <= lead && Possible(w, e, gap)
    requires w0.now <= w.now <= w.lastSweep + gap
    requires Waiting(w0, w, lead)
    ensures Waiting(w0, After(w, e, cat, lead, gap), lead) || Swapped(w0, After(w, e, cat, lead, gap), cat)
    ensures !e.Renews?
  {
    LookupRoundTrips(cat, w0.cell.sub.item);
    LookupRoundTrips(cat, Target(w0.cell.acct, cat));
    if e.Sweeps? && DueRow(w.cell.acct, w.now, lead).Some? {
      var r := DueRow(w.cell.acct, w.now, lead).value;
      var target := Target(w0.cell.acct, cat);
      assert Decide(r, w.cell.sub, cat) == Swap(target.value, ProratedImmediately);
      var sub := Updated(w.cell.sub, target, ProratedImmediately, cat, w.now, e.term).value;
      assert sub.charged == w0.cell.sub.charged + [target.value];
    }
  }

  lemma SwappedStep(w0: Watch, w: Watch, e: Event, cat: Catalog, lead: Time, gap: Time)
    requires Recorded(w0, cat, gap) && Possible(w, e, gap)
    requires Swapped(w0, w, cat)
    ensures Swapped(w0, After(w, e, cat, lead, gap), cat)
  {
    LookupRoundTrips(cat, Target(w0.cell.acct, cat));
  }

  predicate IsRun(ws: seq<Watch>, es: seq<Event>, cat: Catalog, lead: Time, gap: Time) {
    && |ws| == |es| + 1
    && forall i :: 0 <= i < |es| ==> Possible(ws[i], es[i], gap) && ws[i + 1] == After(ws[i], es[i], cat, lead, gap)
  }

  lemma {:induction false} WaitingOrSwapped(ws: seq<Watch>, es: seq<Event>, cat: Catalog, lead: Time, gap: Time, k: nat)
    requires IsRun(ws, es, cat, lead, gap) && Recorded(ws[0], cat, gap) && 0 <= gap <= lead && k < |ws|
    ensures ws[0].now <= ws[k].now <= ws[k].lastSweep + gap
    ensures Waiting(ws[0], ws[k], lead) || Swapped(ws[0], ws[k], cat)
  {
    if k > 0 {
      WaitingOrSwapped(ws, es, cat, lead, gap, k - 1);
      assert ws[(k - 1) + 1] == After(ws[k - 1], es[k - 1], cat, lead, gap);
      if Waiting(ws[0], ws[k - 1], lead) {
        WaitingStep(ws[0], ws[k - 1], es[k - 1], cat, lead, gap);
      } else {
        SwappedStep(ws[0], ws[k - 1], es[k - 1], cat, lead, gap);
      }
    }
  }

  /**
   * With completed sweeps at most `gap` apart and `gap` no longer than the lead, at every moment of
   * every run: all that was billed since the change was recorded is the monthly price, at least one
   * such bill exists once the date has come, and until the date the app shows the year's plan.
   */
  lemma NoFurtherYearIsBilled(ws: seq<Watch>, es: seq<Event>, cat: Catalog, lead: Time, gap: Time, k: nat)
    requires IsRun(ws, es, cat, lead, gap) && Recorded(ws[0], cat, gap) && 0 <= gap <= lead && k < |ws|
    ensures var before, after, date := ws[0].cell.sub.charged, ws[k].cell.sub.charged, ws[0].cell.acct.pendingAt.value;
            && before <= after
            && (forall i :: |before| <= i < |after| ==> Some(after[i]) == Target(ws[0].cell.acct, cat))
            && (ws[k].now >= date ==> |after| > |before|)
            && (ws[k].now < date ==>
                  ws[k].cell.acct.plan == ws[0].cell.acct.plan && ws[k].cell.acct.interval == Some(Year))
  {
    WaitingOrSwapped(ws, es, cat, lead, gap, k);
  }

  /** Once the date has come, a reconcile shows the monthly plan, which is what is billed. */
  lemma MonthlyShownAfterDate(ws: seq<Watch>, es: seq<Event>, cat: Catalog, lead: Time, gap: Time, k: nat, calls: nat)
    requires IsRun(ws, es, cat, lead, gap) && Recorded(ws[0], cat, gap) && 0 <= gap <= lead && k < |ws| && calls >= 3
    requires ws[k].now >= ws[0].cell.acct.pendingAt.value
    ensures Shown(Reconciled(ws[k].cell, cat, ws[k].now, calls).acct, cat) == Target(ws[0].cell.acct, cat)
  {
    WaitingOrSwapped(ws, es, cat, lead, gap, k);
    LookupRoundTrips(cat, Target(ws[0].cell.acct, cat));
  }

  /** The bound is exact: with a longer gap, a sweep just before the window lets the renewal bill a further year. */
  lemma LongerGapBillsAnotherYear(w0: Watch, cat: Catalog, lead: Time, gap: Time, year: Time)
    returns (ws: seq<Watch>, es: seq<Event>)
    requires Recorded(w0, cat, gap) && 0 <= lead < gap && year > 0
    requires w0.lastSweep == w0.now && w0.cell.sub.termEnd.value == w0.now + gap + 1
    ensures IsRun(ws, es, cat, lead, gap) && |es| == 3 && ws[0] == w0
    ensures ws[3].cell.sub.charged == w0.cell.sub.charged + [w0.cell.sub.item.value]
  {
    var e1, e2, e3 := Passes(w0.now + 1), Sweeps(1, 4), Renews(year);
    var w1 := After(w0, e1, cat, lead, gap);
    var w2 := After(w1, e2, cat, lead, gap);
    assert w2 == w1.(lastSweep := w1.now);
    var w3 := After(w2, e3, cat, lead, gap);
    ws, es := [w0, w1, w2, w3], [e1, e2, e3];
  }
}
