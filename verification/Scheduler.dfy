/**
 * Workers sharing one advisory lock, each sweeping the due accounts call by call, interleaved with
 * the other workers, reconciles and the clock.
 */
module Scheduler {
  import opened Options
  import opened Plans
  import opened Accounts
  import opened Paddle

  /** A selected row and whose it is. */
  datatype Selected = Selected(email: string, row: Row)

  /** Where a worker stands: before the lock, holding it, in the loop, past a read, or past an item update. */
  datatype Worker =
    | Idle
    | Holding
    | Looping(rows: seq<Selected>)
    | Decided(rows: seq<Selected>, decision: Decision)
    | Settling(rows: seq<Selected>)

  /** An item update the provider accepted from a sweep, and how much of the term was left. */
  datatype Update = Update(email: string, at: Time, left: Time)

  datatype World = World(
    cells: map<string, Cell>,
    now: Time,
    lock: Option<nat>,
    workers: map<nat, Worker>,
    updates: seq<Update>)

  datatype Step =
    | Acquire(i: nat)
    | Select(i: nat, rows: seq<Selected>)
    | Read(i: nat)
    | Act(i: nat, term: Time)
    | Settle(i: nat, calls: nat)
    | GiveUpRow(i: nat)
    | Release(i: nat)
    | Crash(i: nat)
    | Reconcile(email: string, calls: nat)
    | Pass(until: Time)

  /** The price each account's pending change aims at. */
  type Goals = map<string, Option<string>>

  function Work(w: World, i: nat): Worker {
    if i in w.workers then w.workers[i] else Idle
  }

  function Rows(k: Worker): seq<Selected> {
    if k.Idle? || k.Holding? then [] else k.rows
  }

  function Goal(r: Row, cat: Catalog): Option<string> {
    cat.PriceFor(r.plan, r.interval.Or(Month))
  }

  /** The rows of one SELECT: every due account once, in some order. */
  predicate IsSelection(rows: seq<Selected>, w: World, lead: Time) {
    && (forall k :: 0 <= k < |rows| ==>
          rows[k].email in w.cells && DueRow(w.cells[rows[k].email].acct, w.now, lead) == Some(rows[k].row))
    && (forall j, k :: 0 <= j < k < |rows| ==> rows[j].email != rows[k].email)
    && (forall e :: e in w.cells && DueRow(w.cells[e].acct, w.now, lead).Some? ==>
          exists k :: 0 <= k < |rows| && rows[k].email == e)
  }

  /**
   * `locking` says whether the advisory lock is really asked for. Nothing renews in between: the
   * clock stays before the end of every live term.
   */
  predicate Allowed(w: World, s: Step, cat: Catalog, lead: Time, locking: bool) {
    match s
    case Acquire(i) => Work(w, i).Idle? && (locking ==> w.lock.None?)
    case Select(i, rows) => Work(w, i).Holding? && IsSelection(rows, w, lead)
    case Read(i) => Work(w, i).Looping? && |Work(w, i).rows| > 0
    case Act(i, term) => Work(w, i).Decided? && |Work(w, i).rows| > 0 && term > 0
    case Settle(i, _) => Work(w, i).Settling? && |Work(w, i).rows| > 0
    case GiveUpRow(i) => |Rows(Work(w, i))| > 0
    case Release(i) => Work(w, i).Holding? || (Work(w, i).Looping? && |Work(w, i).rows| == 0)
    case Crash(i) => !Work(w, i).Idle?
    case Reconcile(email, _) => email in w.cells
    case Pass(until) =>
      w.now <= until && forall e :: e in w.cells && Live(w.cells[e].sub.status) && w.cells[e].sub.termEnd.Some? ==>
        until < w.cells[e].sub.termEnd.value
  }

  function WithCell(w: World, e: string, c: Cell): World { w.(cells := w.cells[e := c]) }

  function WithWorker(w: World, i: nat, k: Worker): World { w.(workers := w.workers[i := k]) }

  function Freed(w: World, i: nat): World {
    WithWorker(w.(lock := if w.lock == Some(i) then None else w.lock), i, Idle)
  }

  function Acted(w: World, i: nat, cat: Catalog, term: Time): World
    requires Work(w, i).Decided? && |Work(w, i).rows| > 0
  {
    var rows, d := Work(w, i).rows, Work(w, i).decision;
    var email, row := rows[0].email, rows[0].row;
    var next := WithWorker(w, i, Looping(rows[1..]));
    if email !in w.cells || row.subscription != w.cells[email].sub.id then next
    else
      var c := w.cells[email];
      match d
      case Skip => next
      case Retarget(at) => WithCell(next, email, Wrote(c, KEEP_ALL.(pendingAt := Put(Some(at)))))
      case Swap(price, mode) =>
        var s := Updated(c.sub, Some(price), mode, cat, w.now, term);
        if s.None? then next
        else
          WithCell(WithWorker(w, i, Settling(rows)), email, c.(sub := s.value))
            .(updates := w.updates + [Update(email, w.now, c.sub.termEnd.Or(w.now) - w.now)])
  }

  function Next(w: World, s: Step, cat: Catalog, lead: Time, locking: bool): World
    requires Allowed(w, s, cat, lead, locking)
  {
    match s
    case Acquire(i) => WithWorker(w.(lock := if locking then Some(i) else w.lock), i, Holding)
    case Select(i, rows) => WithWorker(w, i, Looping(rows))
    case Read(i) =>
      var rows := Work(w, i).rows;
      var email := rows[0].email;
      if email !in w.cells || rows[0].row.subscription != w.cells[email].sub.id
      then WithWorker(w, i, Looping(rows[1..]))
      else WithWorker(w, i, Decided(rows, Decide(rows[0].row, w.cells[email].sub, cat)))
    case Act(i, term) => Acted(w, i, cat, term)
    case Settle(i, calls) =>
      var rows := Work(w, i).rows;
      var next := WithWorker(w, i, Looping(rows[1..]));
      if rows[0].email !in w.cells then next
      else WithCell(next, rows[0].email, Reconciled(w.cells[rows[0].email], cat, w.now, calls))
    case GiveUpRow(i) => WithWorker(w, i, Looping(Rows(Work(w, i))[1..]))
    case Release(i) => Freed(w, i)
    case Crash(i) => Freed(w, i)
    case Reconcile(email, calls) => WithCell(w, email, Reconciled(w.cells[email], cat, w.now, calls))
    case Pass(until) => w.(now := until)
  }

  /** Only the lock's holder is anywhere but idle. */
  ghost predicate Exclusive(w: World) {
    forall i: nat :: !Work(w, i).Idle? ==> w.lock == Some(i)
  }

  /** The one worker that may be anywhere but idle. */
  function Holder(w: World): Worker {
    if w.lock.Some? then Work(w, w.lock.value) else Idle
  }

  /** Every change pending on an account is the one in `goals`. */
  ghost predicate PendingFixed(cells: map<string, Cell>, cat: Catalog, goals: Goals) {
    && goals.Keys == cells.Keys
    && (forall e :: e in cells && cells[e].acct.pendingPlan.Some? ==>
          goals[e] == cat.PriceFor(cells[e].acct.pendingPlan.value, cells[e].acct.pendingInterval.Or(Month)))
  }

  /** Every row still to do aims at its account's goal and was due. */
  ghost predicate RowsGood(rows: seq<Selected>, now: Time, cat: Catalog, lead: Time, goals: Goals) {
    forall k :: 0 <= k < |rows| ==>
      rows[k].email in goals && Goal(rows[k].row, cat) == goals[rows[k].email] && rows[k].row.at <= now + lead
  }

  /** A decision to move the date moves it more than a day later. */
  predicate RetargetGood(k: Worker) {
    k.Decided? && k.decision.Retarget? && |k.rows| > 0 ==> k.decision.at > k.rows[0].row.at + DAY
  }

  /** A decision to swap concerns an account still off its goal, and was taken within a day of the date. */
  predicate DecisionGood(k: Worker, cells: map<string, Cell>, cat: Catalog) {
    k.Decided? && k.decision.Swap? && |k.rows| > 0 && k.rows[0].email in cells ==>
      var sub, row := cells[k.rows[0].email].sub, k.rows[0].row;
      && Some(k.decision.price) == Goal(row, cat)
      && sub.item != Goal(row, cat)
      && (sub.termEnd.Some? ==> sub.termEnd.value - row.at <= DAY)
  }

  /** No account was updated twice, each update came near the end of a term, and each still stands. */
  ghost predicate UpdatesGood(us: seq<Update>, cells: map<string, Cell>, lead: Time, goals: Goals) {
    && (forall j, k :: 0 <= j < k < |us| ==> us[j].email != us[k].email)
    && (forall k :: 0 <= k < |us| ==>
          us[k].left <= lead + DAY && us[k].email in cells && us[k].email in goals
          && cells[us[k].email].sub.item == goals[us[k].email])
  }

  ghost predicate Inv(w: World, cat: Catalog, lead: Time, goals: Goals) {
    && lead >= 0
    && Exclusive(w)
    && PendingFixed(w.cells, cat, goals)
    && RowsGood(Rows(Holder(w)), w.now, cat, lead, goals)
    && DecisionGood(Holder(w), w.cells, cat)
    && RetargetGood(Holder(w))
    && UpdatesGood(w.updates, w.cells, lead, goals)
  }

  /** A reconcile leaves the subscription alone and at most forgets a pending change. */
  lemma ReconcileOnlyForgets(c: Cell, cat: Catalog, now: Time, calls: nat)
    ensures var c' := Reconciled(c, cat, now, calls);
            && c'.sub == c.sub
            && (c'.acct.pendingPlan.Some? ==>
                  c'.acct.pendingPlan == c.acct.pendingPlan && c'.acct.pendingInterval == c.acct.pendingInterval)
  {
  }

  /** The update itself: the account was off its goal, so it is new to the list, and now it is on it. */
  lemma SwapKeepsUpdates(us: seq<Update>, u: Update, cells: map<string, Cell>, c: Cell, lead: Time, goals: Goals)
    requires UpdatesGood(us, cells, lead, goals) && goals.Keys == cells.Keys && u.email in cells
    requires cells[u.email].sub.item != goals[u.email] && c.sub.item == goals[u.email] && u.left <= lead + DAY
    ensures UpdatesGood(us + [u], cells[u.email := c], lead, goals)
  {
  }

  /** Where an accepted swap leads. */
  predicate Swaps(w: World, i: nat, cat: Catalog, term: Time) {
    && Work(w, i).Decided? && |Work(w, i).rows| > 0 && Work(w, i).decision.Swap?
    && Work(w, i).rows[0].email in w.cells
    && Work(w, i).rows[0].row.subscription == w.cells[Work(w, i).rows[0].email].sub.id
    && Updated(w.cells[Work(w, i).rows[0].email].sub, Some(Work(w, i).decision.price), Work(w, i).decision.mode,
               cat, w.now, term).Some?
  }

  lemma SwapKeeps(w: World, i: nat, term: Time, cat: Catalog, lead: Time, goals: Goals)
    requires Inv(w, cat, lead, goals) && Allowed(w, Act(i, term), cat, lead, true) && Swaps(w, i, cat, term)
    ensures Inv(Acted(w, i, cat, term), cat, lead, goals)
  {
    var rows := Work(w, i).rows;
    var email, c, w' := rows[0].email, w.cells[rows[0].email], Acted(w, i, cat, term);
    assert Holder(w) == Work(w, i);
    var update := Update(email, w.now, c.sub.termEnd.Or(w.now) - w.now);
    SwapKeepsUpdates(w.updates, update, w.cells, w'.cells[email], lead, goals);
  }

  lemma NoSwapKeeps(w: World, i: nat, term: Time, cat: Catalog, lead: Time, goals: Goals)
    requires Inv(w, cat, lead, goals) && Allowed(w, Act(i, term), cat, lead, true) && !Swaps(w, i, cat, term)
    ensures Inv(Acted(w, i, cat, term), cat, lead, goals)
  {
  }

  lemma ReconcileKeeps(w: World, w': World, email: string, calls: nat, cat: Catalog, lead: Time, goals: Goals)
    requires Inv(w, cat, lead, goals) && email in w.cells
    requires w' == WithCell(w, email, Reconciled(w.cells[email], cat, w.now, calls))
    ensures Inv(w', cat, lead, goals)
  {
    ReconcileOnlyForgets(w.cells[email], cat, w.now, calls);
  }

  lemma WorkerKeeps(w: World, s: Step, cat: Catalog, lead: Time, goals: Goals)
    requires Inv(w, cat, lead, goals) && Allowed(w, s, cat, lead, true)
    requires s.Acquire? || s.Select? || s.Read? || s.GiveUpRow? || s.Release? || s.Crash? || s.Pass?
    ensures Inv(Next(w, s, cat, lead, true), cat, lead, goals)
  {
  }

  lemma StepKeeps(w: World, s: Step, cat: Catalog, lead: Time, goals: Goals)
    requires Inv(w, cat, lead, goals) && Allowed(w, s, cat, lead, true)
    ensures Inv(Next(w, s, cat, lead, true), cat, lead, goals)
  {
    match s {
      case Act(i, term) =>
        if Swaps(w, i, cat, term) {
          SwapKeeps(w, i, term, cat, lead, goals);
        } else {
          NoSwapKeeps(w, i, term, cat, lead, goals);
        }
      case Settle(i, calls) =>
        var popped := Next(w, GiveUpRow(i), cat, lead, true);
        WorkerKeeps(w, GiveUpRow(i), cat, lead, goals);
        var email := Work(w, i).rows[0].email;
        if email in w.cells {
          ReconcileKeeps(popped, Next(w, s, cat, lead, true), email, calls, cat, lead, goals);
        }
      case Reconcile(email, calls) => ReconcileKeeps(w, Next(w, s, cat, lead, true), email, calls, cat, lead, goals);
      case _ => WorkerKeeps(w, s, cat, lead, goals);
    }
  }

  ghost predicate IsRun(ws: seq<World>, steps: seq<Step>, cat: Catalog, lead: Time, locking: bool) {
    && |ws| == |steps| + 1
    && forall i :: 0 <= i < |steps| ==>
         Allowed(ws[i], steps[i], cat, lead, locking) && ws[i + 1] == Next(ws[i], steps[i], cat, lead, locking)
  }

  lemma {:induction false} RunKeeps(ws: seq<World>, steps: seq<Step>, cat: Catalog, lead: Time, goals: Goals, k: nat)
    requires IsRun(ws, steps, cat, lead, true) && Inv(ws[0], cat, lead, goals) && k < |ws|
    ensures Inv(ws[k], cat, lead, goals)
  {
    if k > 0 {
      RunKeeps(ws, steps, cat, lead, goals, k - 1);
      StepKeeps(ws[k - 1], steps[k - 1], cat, lead, goals);
      assert ws[(k - 1) + 1] == Next(ws[k - 1], steps[k - 1], cat, lead, true);
    }
  }

  /** Before any sweep: nobody holds the lock and nothing has been updated. */
  predicate Quiet(w: World) {
    w.lock.None? && w.updates == [] && forall i :: i in w.workers ==> w.workers[i].Idle?
  }

  /**
   * However many workers run under the lock, however their steps interleave, and whichever of them
   * crash: at most one is sweeping, no account's item is updated twice, and an update comes with no
   * more than the lead and a day of the term left.
   */
  lemma SweepsUpdateAtMostOnce(ws: seq<World>, steps: seq<Step>, cat: Catalog, lead: Time, k: nat)
    requires lead >= 0 && IsRun(ws, steps, cat, lead, true) && Quiet(ws[0]) && k < |ws|
    ensures forall i: nat, j: nat :: !Work(ws[k], i).Idle? && !Work(ws[k], j).Idle? ==> i == j
    ensures forall a, b :: 0 <= a < b < |ws[k].updates| ==> ws[k].updates[a].email != ws[k].updates[b].email
    ensures forall a :: 0 <= a < |ws[k].updates| ==> ws[k].updates[a].left <= lead + DAY
  {
    RunKeeps(ws, steps, cat, lead, GoalsOf(ws[0].cells, cat), k);
  }

  /** The lock's holder is sweeping, so that the lock comes free with it. */
  predicate HeldWhileSweeping(w: World) {
    w.lock.Some? ==> !Work(w, w.lock.value).Idle?
  }

  lemma HeldStep(w: World, s: Step, cat: Catalog, lead: Time)
    requires Exclusive(w) && HeldWhileSweeping(w) && Allowed(w, s, cat, lead, true)
    ensures HeldWhileSweeping(Next(w, s, cat, lead, true))
  {
  }

  lemma {:induction false} HeldOnRun(ws: seq<World>, steps: seq<Step>, cat: Catalog, lead: Time, goals: Goals, k: nat)
    requires IsRun(ws, steps, cat, lead, true) && Inv(ws[0], cat, lead, goals) && HeldWhileSweeping(ws[0])
    requires k < |ws|
    ensures HeldWhileSweeping(ws[k])
  {
    if k > 0 {
      HeldOnRun(ws, steps, cat, lead, goals, k - 1);
      RunKeeps(ws, steps, cat, lead, goals, k - 1);
      HeldStep(ws[k - 1], steps[k - 1], cat, lead);
      assert ws[(k - 1) + 1] == Next(ws[k - 1], steps[k - 1], cat, lead, true);
    }
  }

  /**
   * In every run the lock is taken exactly while some worker is sweeping: however a sweep ends, by its release or a
   * crash, the next worker can acquire the lock.
   */
  lemma LockHeldExactlyWhileSweeping(ws: seq<World>, steps: seq<Step>, cat: Catalog, lead: Time, k: nat, j: nat)
    requires lead >= 0 && IsRun(ws, steps, cat, lead, true) && Quiet(ws[0]) && k < |ws|
    ensures ws[k].lock.None? <==> forall i: nat :: Work(ws[k], i).Idle?
    ensures Allowed(ws[k], Acquire(j), cat, lead, true) <==> forall i: nat :: Work(ws[k], i).Idle?
    ensures k < |steps| && (steps[k].Release? || steps[k].Crash?) ==>
      ws[k + 1].lock.None? && Allowed(ws[k + 1], Acquire(j), cat, lead, true)
  {
    var goals := GoalsOf(ws[0].cells, cat);
    RunKeeps(ws, steps, cat, lead, goals, k);
    HeldOnRun(ws, steps, cat, lead, goals, k);
    if k < |steps| && (steps[k].Release? || steps[k].Crash?) {
      assert ws[k + 1] == Next(ws[k], steps[k], cat, lead, true);
    }
  }

  /** As time passes, a paying account's change becomes due once its date is within the lead, and nothing moves. */
  lemma PassingTimeMakesDue(w: World, until: Time, cat: Catalog, lead: Time, e: string)
    requires Allowed(w, Pass(until), cat, lead, true) && e in w.cells
    ensures var t, a := Next(w, Pass(until), cat, lead, true), w.cells[e].acct;
      && t == w.(now := until)
      && (DueRow(t.cells[e].acct, t.now, lead).Some? <==>
            && a.pendingPlan.Some? && a.pendingAt.Some? && a.pendingAt.value <= until + lead
            && a.subscription.Some? && a.status != Some(Comped))
  {
  }

  // ----- one worker undisturbed

  /** The account after its share of a sweep in which every call is answered. */
  function SweptCell(c: Cell, row: Row, cat: Catalog, now: Time, term: Time): Cell {
    SweptRow(c, row, cat, now, term, 5).0
  }

  /** The steps of one row, and where they lead if nobody else moves. */
  lemma RowAlone(w: World, i: nat, cat: Catalog, lead: Time, term: Time) returns (ws: seq<World>, steps: seq<Step>)
    requires Work(w, i).Looping? && |Work(w, i).rows| > 0 && Work(w, i).rows[0].email in w.cells && term > 0
    ensures IsRun(ws, steps, cat, lead, true) && ws[0] == w && |steps| > 0
    ensures var email, row := Work(w, i).rows[0].email, Work(w, i).rows[0].row;
      var t := ws[|steps|];
      && t.cells == w.cells[email := SweptCell(w.cells[email], row, cat, w.now, term)]
      && t.now == w.now && t.lock == w.lock && t.workers == w.workers[i := Looping(Work(w, i).rows[1..])]
  {
    var rows := Work(w, i).rows;
    var email, row, c := rows[0].email, rows[0].row, w.cells[rows[0].email];
    steps := [Read(i)];
    var w1 := Next(w, Read(i), cat, lead, true);
    ws := [w, w1];
    if row.subscription == c.sub.id {
      steps := steps + [Act(i, term)];
      var w2 := Next(w1, Act(i, term), cat, lead, true);
      ws := ws + [w2];
      if Work(w2, i).Settling? {
        steps := steps + [Settle(i, 3)];
        var w3 := Next(w2, Settle(i, 3), cat, lead, true);
        ws := ws + [w3];
        assert w3.cells == w.cells[email := SweptCell(c, row, cat, w.now, term)];
      }
    }
    assert ws[|steps|].workers == w.workers[i := Looping(rows[1..])];
    assert ws[|steps|].cells == w.cells[email := SweptCell(c, row, cat, w.now, term)];
  }

  /** Each of these rows' accounts after its share, every other one as before. */
  ghost predicate AllSwept(cells: map<string, Cell>, rows: seq<Selected>, was: map<string, Cell>,
                           cat: Catalog, now: Time, term: Time)
  {
    && cells.Keys == was.Keys
    && (forall k :: 0 <= k < |rows| && rows[k].email in was ==>
          cells[rows[k].email] == SweptCell(was[rows[k].email], rows[k].row, cat, now, term))
    && (forall e :: e in was && (forall k :: 0 <= k < |rows| ==> rows[k].email != e) ==> cells[e] == was[e])
  }

  lemma RunsJoin(ws: seq<World>, steps: seq<Step>, vs: seq<World>, more: seq<Step>, cat: Catalog, lead: Time)
    requires IsRun(ws, steps, cat, lead, true) && IsRun(vs, more, cat, lead, true) && ws[|steps|] == vs[0]
    ensures IsRun(ws + vs[1..], steps + more, cat, lead, true)
    ensures (ws + vs[1..])[|steps + more|] == vs[|more|] && (ws + vs[1..])[0] == ws[0]
  {
    var all, both := ws + vs[1..], steps + more;
    forall i | 0 <= i < |both|
      ensures Allowed(all[i], both[i], cat, lead, true) && all[i + 1] == Next(all[i], both[i], cat, lead, true)
    {
      if i < |steps| {
        assert all[i] == ws[i] && all[i + 1] == ws[i + 1];
      } else {
        assert all[i] == vs[i - |steps|] && all[i + 1] == vs[i - |steps| + 1];
      }
    }
  }

  lemma {:induction false} LoopAlone(w: World, i: nat, cat: Catalog, lead: Time, term: Time)
    returns (ws: seq<World>, steps: seq<Step>)
    requires Work(w, i).Looping? && term > 0
    requires forall k :: 0 <= k < |Work(w, i).rows| ==> Work(w, i).rows[k].email in w.cells
    requires forall j, k :: 0 <= j < k < |Work(w, i).rows| ==> Work(w, i).rows[j].email != Work(w, i).rows[k].email
    ensures IsRun(ws, steps, cat, lead, true) && ws[0] == w
    ensures var t := ws[|steps|];
      && AllSwept(t.cells, Work(w, i).rows, w.cells, cat, w.now, term)
      && t.now == w.now && t.lock == w.lock && t.workers == w.workers[i := Looping([])]
    decreases |Work(w, i).rows|
  {
    var rows := Work(w, i).rows;
    if rows == [] {
      ws, steps := [w], [];
      assert w.workers == w.workers[i := Looping([])];
    } else {
      ws, steps := RowAlone(w, i, cat, lead, term);
      var mid := ws[|steps|];
      assert Work(mid, i).rows == rows[1..];
      var vs, more := LoopAlone(mid, i, cat, lead, term);
      RunsJoin(ws, steps, vs, more, cat, lead);
      SweptApart(w.cells, mid.cells, vs[|more|].cells, rows, cat, w.now, term);
      ws, steps := ws + vs[1..], steps + more;
    }
  }

  lemma SweptApart(was: map<string, Cell>, mid: map<string, Cell>, cells: map<string, Cell>, rows: seq<Selected>,
                   cat: Catalog, now: Time, term: Time)
    requires rows != [] && (forall k :: 0 <= k < |rows| ==> rows[k].email in was)
    requires forall j, k :: 0 <= j < k < |rows| ==> rows[j].email != rows[k].email
    requires mid == was[rows[0].email := SweptCell(was[rows[0].email], rows[0].row, cat, now, term)]
    requires AllSwept(cells, rows[1..], mid, cat, now, term)
    ensures AllSwept(cells, rows, was, cat, now, term)
  {
    forall k | 0 <= k < |rows|
      ensures cells[rows[k].email] == SweptCell(was[rows[k].email], rows[k].row, cat, now, term)
    {
      if k > 0 {
        assert rows[1..][k - 1] == rows[k];
      }
    }
    forall e | e in was && forall k :: 0 <= k < |rows| ==> rows[k].email != e
      ensures cells[e] == was[e]
    {
      assert rows[0].email != e;
    }
  }

  /**
   * A worker that finds the lock free and is left alone does the whole sweep: from any selection it brings every due
   * account to where that account's own sweep does, leaves every other one alone, and gives the lock back.
   */
  lemma AloneSweepsEverything(w: World, i: nat, rows: seq<Selected>, cat: Catalog, lead: Time, term: Time)
    returns (ws: seq<World>, steps: seq<Step>)
    requires w.lock.None? && Work(w, i).Idle? && IsSelection(rows, w, lead) && term > 0
    ensures IsRun(ws, steps, cat, lead, true) && ws[0] == w
    ensures var t := ws[|steps|];
      && t.cells.Keys == w.cells.Keys && t.now == w.now && t.lock.None? && t.workers == w.workers[i := Idle]
      && forall e :: e in w.cells ==> t.cells[e] == Swept(w.cells[e], cat, w.now, lead, term, 5).0
  {
    var w1 := Next(w, Acquire(i), cat, lead, true);
    var w2 := Next(w1, Select(i, rows), cat, lead, true);
    var vs, more := LoopAlone(w2, i, cat, lead, term);
    var last := vs[|more|];
    var w4 := Next(last, Release(i), cat, lead, true);
    ws, steps := [w, w1, w2], [Acquire(i), Select(i, rows)];
    RunsJoin(ws, steps, vs, more, cat, lead);
    ws, steps := ws + vs[1..], steps + more;
    RunsJoin(ws, steps, [last, w4], [Release(i)], cat, lead);
    ws, steps := ws + [last, w4][1..], steps + [Release(i)];
    assert w4.workers == w.workers[i := Idle];
    forall e | e in w.cells
      ensures w4.cells[e] == Swept(w.cells[e], cat, w.now, lead, term, 5).0
    {
      if DueRow(w.cells[e].acct, w.now, lead).Some? {
        var k :| 0 <= k < |rows| && rows[k].email == e;
        assert w4.cells[rows[k].email] == SweptCell(w.cells[e], rows[k].row, cat, w.now, term);
      } else {
        assert forall k :: 0 <= k < |rows| ==> rows[k].email != e;
      }
    }
  }

  function GoalsOf(cells: map<string, Cell>, cat: Catalog): Goals {
    map e | e in cells ::
      if cells[e].acct.pendingPlan.Some?
      then cat.PriceFor(cells[e].acct.pendingPlan.value, cells[e].acct.pendingInterval.Or(Month))
      else None
  }

  /**
   * In every run, whenever a worker acts on a stale date, it writes one more than a day after the date selected,
   * and the provider is not called.
   */
  lemma RetargetOnlyMovesDate(ws: seq<World>, steps: seq<Step>, cat: Catalog, lead: Time, k: nat)
    requires lead >= 0 && IsRun(ws, steps, cat, lead, true) && Quiet(ws[0])
    requires k < |steps| && steps[k].Act? && Work(ws[k], steps[k].i).decision.Retarget?
    ensures var selected, at := Work(ws[k], steps[k].i).rows[0], Work(ws[k], steps[k].i).decision.at;
      && at > selected.row.at + DAY
      && ws[k + 1].updates == ws[k].updates && ws[k + 1].cells.Keys == ws[k].cells.Keys
      && (forall e :: e in ws[k].cells ==> ws[k + 1].cells[e].sub == ws[k].cells[e].sub)
      && (forall e :: e in ws[k].cells
                      && (e != selected.email || selected.row.subscription != ws[k].cells[e].sub.id) ==>
            ws[k + 1].cells[e] == ws[k].cells[e])
      && (selected.email in ws[k].cells && selected.row.subscription == ws[k].cells[selected.email].sub.id ==>
            ws[k + 1].cells[selected.email].acct == ws[k].cells[selected.email].acct.(pendingAt := Some(at)))
  {
    RunKeeps(ws, steps, cat, lead, GoalsOf(ws[0].cells, cat), k);
    assert Holder(ws[k]) == Work(ws[k], steps[k].i);
  }

  /** The only due account of a world, as a selection. */
  function OnlyRow(w: World, email: string, lead: Time): seq<Selected>
    requires email in w.cells && DueRow(w.cells[email].acct, w.now, lead).Some?
  {
    [Selected(email, DueRow(w.cells[email].acct, w.now, lead).value)]
  }

  /** One idle world with one account that a sweep would swap. */
  predicate OneToSwap(w: World, email: string, cat: Catalog, lead: Time) {
    && w.workers == map[] && w.updates == [] && w.cells.Keys == {email}
    && DueRow(w.cells[email].acct, w.now, lead).Some?
    && DueRow(w.cells[email].acct, w.now, lead).value.subscription == w.cells[email].sub.id
    && Live(w.cells[email].sub.status) && cat.Distinct()
    && Decide(DueRow(w.cells[email].acct, w.now, lead).value, w.cells[email].sub, cat).Swap?
  }

  /** Without the lock, both workers select the row and both read the old item. */
  lemma BothDecide(w: World, email: string, cat: Catalog, lead: Time) returns (ws: seq<World>, steps: seq<Step>)
    requires OneToSwap(w, email, cat, lead)
    ensures |steps| == 6 && IsRun(ws, steps, cat, lead, false) && ws[0] == w
    ensures var rows := OnlyRow(w, email, lead);
            var d := Decided(rows, Decide(rows[0].row, w.cells[email].sub, cat));
            ws[6] == w.(workers := map[0 := d, 1 := d])
  {
    var rows := OnlyRow(w, email, lead);
    var d := Decided(rows, Decide(rows[0].row, w.cells[email].sub, cat));
    assert rows[0].email == email;
    steps := [Acquire(0), Acquire(1), Select(0, rows), Select(1, rows), Read(0), Read(1)];
    ws := [w, w.(workers := map[0 := Holding]), w.(workers := map[0 := Holding, 1 := Holding]),
           w.(workers := map[0 := Looping(rows), 1 := Holding]),
           w.(workers := map[0 := Looping(rows), 1 := Looping(rows)]),
           w.(workers := map[0 := d, 1 := Looping(rows)]), w.(workers := map[0 := d, 1 := d])];
    assert ws[1].workers == ws[0].workers[0 := Holding];
    assert ws[2].workers == ws[1].workers[1 := Holding];
    assert ws[3].workers == ws[2].workers[0 := Looping(rows)];
    assert ws[4].workers == ws[3].workers[1 := Looping(rows)];
    assert ws[5].workers == ws[4].workers[0 := d];
    assert ws[6].workers == ws[5].workers[1 := d];
  }

  lemma ActOnSwap(w: World, i: nat, term: Time, cat: Catalog)
    requires term > 0 && Work(w, i).Decided? && |Work(w, i).rows| > 0 && Work(w, i).decision.Swap?
    requires Work(w, i).rows[0].email in w.cells
    requires Work(w, i).rows[0].row.subscription == w.cells[Work(w, i).rows[0].email].sub.id
    requires Live(w.cells[Work(w, i).rows[0].email].sub.status) && cat.PlanOf(Some(Work(w, i).decision.price)).Some?
    ensures var w' := Acted(w, i, cat, term);
            var email := Work(w, i).rows[0].email;
            && w'.cells.Keys == w.cells.Keys
            && w'.cells[email].sub.id == w.cells[email].sub.id && Live(w'.cells[email].sub.status)
            && w'.cells[email].sub.item == Some(Work(w, i).decision.price)
            && (w.cells[email].sub.item == Some(Work(w, i).decision.price) ==>
                  w'.cells[email].sub.charged == w.cells[email].sub.charged)
            && |w'.cells[email].sub.charged| <= |w.cells[email].sub.charged| + 1
            && |w'.updates| == |w.updates| + 1 && w'.updates[|w.updates|].email == email && w.updates <= w'.updates
            && forall j: nat :: j != i ==> Work(w', j) == Work(w, j)
  {
  }

  /**
   * Without the lock two workers can both read the old item and both update it: the check for an item
   * that already matches does not keep the second from calling. As the provider bills nothing for an
   * item that is there already, the two updates together bill at most once.
   */
  lemma WithoutLockTwoUpdates(w: World, email: string, cat: Catalog, lead: Time, term: Time)
    returns (ws: seq<World>, steps: seq<Step>)
    requires OneToSwap(w, email, cat, lead) && term > 0
    ensures IsRun(ws, steps, cat, lead, false) && ws[0] == w
    ensures |ws[|steps|].updates| == 2 && forall k :: 0 <= k < 2 ==> ws[|steps|].updates[k].email == email
    ensures email in ws[|steps|].cells
    ensures |ws[|steps|].cells[email].sub.charged| <= |w.cells[email].sub.charged| + 1
  {
    var row := OnlyRow(w, email, lead)[0].row;
    LookupRoundTrips(cat, Goal(row, cat));
    ws, steps := BothDecide(w, email, cat, lead);
    ActOnSwap(ws[6], 0, term, cat);
    var w7 := Acted(ws[6], 0, cat, term);
    assert Work(ws[6], 1).Decided? && Work(w7, 1) == Work(ws[6], 1);
    ActOnSwap(w7, 1, term, cat);
    var w8 := Acted(w7, 1, cat, term);
    ws, steps := ws + [w7, w8], steps + [Act(0, term), Act(1, term)];
  }
}
