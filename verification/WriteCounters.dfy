/**
 * Burst caps: fixed-window counters bumped atomically by any number of workers, pruned by age.
 *
 * Times are milliseconds since the epoch. A window start is stored as UTC wall-clock text; the
 * pruning statement compares it with the database's own clock, which may run in another zone.
 */
module WriteCounters {
  import opened Options
  import opened Sets

  type Millis = int

  const DAY: Millis := 86400000

  datatype Span = Hour | Day {
    function Length(): Millis { if Hour? then 3600000 else 86400000 }
  }

  /** Key prefixes say what is counted, over which window, and how often it may happen. */
  datatype Scope =
    | VoterHour(voter: string, tenant: nat)
    | TenantHour(tenant: nat)
    | DomainDay(domain: string, tenant: nat)
  {
    function Window(): Span { if DomainDay? then Day else Hour }
  }

  datatype Caps = Caps(voterHour: nat, tenantHour: nat, domainDay: nat)

  function Cap(c: Caps, s: Scope): nat {
    match s
    case VoterHour(_, _) => c.voterHour
    case TenantHour(_) => c.tenantHour
    case DomainDay(_, _) => c.domainDay
  }

  /** The start of the aligned window a moment falls in. */
  function WindowStart(w: Span, now: Millis): Millis {
    if w.Hour? then now / 3600000 * 3600000 else now / 86400000 * 86400000
  }

  predicate Aligned(w: Span, start: Millis) {
    if w.Hour? then start % 3600000 == 0 else start % 86400000 == 0
  }

  lemma HourIsUnique(now: Millis, start: Millis)
    ensures now / 3600000 * 3600000 % 3600000 == 0
    ensures now / 3600000 * 3600000 <= now < now / 3600000 * 3600000 + 3600000
    ensures start % 3600000 == 0 && start <= now < start + 3600000 ==> start == now / 3600000 * 3600000
  {
  }

  lemma DayIsUnique(now: Millis, start: Millis)
    ensures now / 86400000 * 86400000 % 86400000 == 0
    ensures now / 86400000 * 86400000 <= now < now / 86400000 * 86400000 + 86400000
    ensures start % 86400000 == 0 && start <= now < start + 86400000 ==> start == now / 86400000 * 86400000
  {
  }

  /** The start is aligned, and its window is the only aligned one that holds the moment. */
  lemma WindowIsUnique(w: Span, now: Millis, start: Millis)
    ensures Aligned(w, WindowStart(w, now))
    ensures WindowStart(w, now) <= now < WindowStart(w, now) + w.Length()
    ensures Aligned(w, start) && start <= now < start + w.Length() ==> start == WindowStart(w, now)
  {
    HourIsUnique(now, start);
    DayIsUnique(now, start);
  }

  /** One bump, as the database served it: for what, when, in which window, and the count it handed back. */
  datatype Charge = Charge(scope: Scope, at: Millis, start: Millis, count: nat)

  predicate InWindow(c: Charge, s: Scope, start: Millis) { c.scope == s && c.start == start }

  /** How often a scope was bumped in a window. */
  function Count(log: seq<Charge>, s: Scope, start: Millis): nat {
    if log == [] then 0
    else Count(log[..|log| - 1], s, start) + (if InWindow(log[|log| - 1], s, start) then 1 else 0)
  }

  /** Every bump was handed back its place among the bumps of its window. */
  predicate Numbered(log: seq<Charge>) {
    log == [] ||
    (var before, c := log[..|log| - 1], log[|log| - 1];
     Numbered(before) && c.count == Count(before, c.scope, c.start) + 1)
  }

  /** Every bump was counted in the window of its moment. */
  ghost predicate Stamped(log: seq<Charge>) {
    forall i :: 0 <= i < |log| ==> log[i].start == WindowStart(log[i].scope.Window(), log[i].at)
  }

  /** Positions of bumps of a window that a cap accepts. */
  ghost function Accepted(log: seq<Charge>, s: Scope, start: Millis, cap: nat): set<nat> {
    set i: nat | i < |log| && InWindow(log[i], s, start) && log[i].count <= cap
  }

  lemma {:induction false} AcceptedIsCounted(log: seq<Charge>, s: Scope, start: Millis, cap: nat)
    requires Numbered(log)
    ensures |Accepted(log, s, start, cap)| <= Count(log, s, start)
    ensures |Accepted(log, s, start, cap)| <= cap
  {
    if log != [] {
      var last, before := |log| - 1, log[..|log| - 1];
      AcceptedIsCounted(before, s, start, cap);
      if InWindow(log[last], s, start) && log[last].count <= cap {
        assert Accepted(log, s, start, cap) == Accepted(before, s, start, cap) + {last};
      } else {
        assert Accepted(log, s, start, cap) == Accepted(before, s, start, cap);
      }
    }
  }

  /** Positions of accepted bumps of a scope at moments from `from` up to but not including `to`. */
  ghost function AcceptedBetween(log: seq<Charge>, s: Scope, cap: nat, from: Millis, to: Millis): set<nat> {
    set i: nat | i < |log| && log[i].scope == s && log[i].count <= cap && from <= log[i].at < to
  }

  lemma AcceptedInWindow(log: seq<Charge>, s: Scope, cap: nat, start: Millis)
    requires Stamped(log) && Aligned(s.Window(), start)
    ensures AcceptedBetween(log, s, cap, start, start + s.Window().Length()) == Accepted(log, s, start, cap)
  {
    forall i: nat | i < |log| && log[i].scope == s
      ensures start <= log[i].at < start + s.Window().Length() <==> log[i].start == start
    {
      WindowIsUnique(s.Window(), log[i].at, start);
    }
  }

  /** Each scope accepts at most its cap in a window, under every interleaving of the workers. */
  lemma AtMostCapPerWindow(log: seq<Charge>, s: Scope, cap: nat, start: Millis)
    requires Numbered(log) && Stamped(log) && Aligned(s.Window(), start)
    ensures |AcceptedBetween(log, s, cap, start, start + s.Window().Length())| <= cap
  {
    AcceptedIsCounted(log, s, start, cap);
    AcceptedInWindow(log, s, cap, start);
  }

  /** Any interval of one window's length accepts at most twice the cap, since it meets at most two windows. */
  lemma AtMostTwiceCapPerInterval(log: seq<Charge>, s: Scope, cap: nat, from: Millis)
    requires Numbered(log) && Stamped(log)
    ensures |AcceptedBetween(log, s, cap, from, from + s.Window().Length())| <= 2 * cap
  {
    var size, first := s.Window().Length(), WindowStart(s.Window(), from);
    WindowMeetsTwo(s.Window(), from);
    AtMostCapPerWindow(log, s, cap, first);
    AtMostCapPerWindow(log, s, cap, first + size);
    BetweenSplits(log, s, cap, from, first, size);
  }

  lemma WindowMeetsTwo(w: Span, from: Millis)
    ensures Aligned(w, WindowStart(w, from)) && Aligned(w, WindowStart(w, from) + w.Length())
    ensures WindowStart(w, from) <= from < WindowStart(w, from) + w.Length()
  {
    var first := WindowStart(w, from);
    WindowIsUnique(w, from, first);
    NextIsAligned(w, first);
  }

  lemma NextIsAligned(w: Span, start: Millis)
    requires Aligned(w, start)
    ensures Aligned(w, start + w.Length())
  {
  }

  lemma BetweenSplits(log: seq<Charge>, s: Scope, cap: nat, from: Millis, first: Millis, size: Millis)
    requires first <= from < first + size
    ensures |AcceptedBetween(log, s, cap, from, from + size)| <=
            |AcceptedBetween(log, s, cap, first, first + size)|
            + |AcceptedBetween(log, s, cap, first + size, first + size + size)|
  {
    UnionCount(AcceptedBetween(log, s, cap, from, from + size),
               AcceptedBetween(log, s, cap, first, first + size),
               AcceptedBetween(log, s, cap, first + size, first + size + size));
  }

  lemma UnionCount<T>(c: set<T>, a: set<T>, b: set<T>)
    requires c <= a + b
    ensures |c| <= |a| + |b|
  {
    SubsetSize(c, a + b);
    assert |a + b| == |a| + |b| - |a * b|;
  }

  /** The moments on both sides of a window's start. */
  lemma WindowsMeetAt(w: Span, start: Millis)
    requires Aligned(w, start)
    ensures WindowStart(w, start - 1) == start - w.Length() && WindowStart(w, start) == start
  {
    PreviousIsAligned(w, start);
    WindowIsUnique(w, start - 1, start - w.Length());
    WindowIsUnique(w, start, start);
  }

  lemma PreviousIsAligned(w: Span, start: Millis)
    requires Aligned(w, start)
    ensures Aligned(w, start - w.Length())
  {
  }

  lemma TwoFirstBumpsAreNumbered(c: Charge, d: Charge)
    requires c.count == 1 && d.count == 1 && (c.scope != d.scope || c.start != d.start)
    ensures Numbered([c, d])
  {
    var log := [c, d];
    assert log[..1] == [c] && [c][..0] == [];
    assert Count([c], c.scope, c.start) == 1 && Count([c], d.scope, d.start) == 0;
  }

  /** Twice the cap is reached: a burst at the end of one window and another at the start of the next. */
  lemma TwiceCapIsReached(s: Scope, start: Millis) returns (log: seq<Charge>)
    requires Aligned(s.Window(), start)
    ensures Numbered(log) && Stamped(log)
    ensures |AcceptedBetween(log, s, 1, start - 1, start - 1 + s.Window().Length())| == 2
  {
    var size := s.Window().Length();
    log := [Charge(s, start - 1, start - size, 1), Charge(s, start, start, 1)];
    WindowsMeetAt(s.Window(), start);
    TwoFirstBumpsAreNumbered(log[0], log[1]);
    assert AcceptedBetween(log, s, 1, start - 1, start - 1 + size) == {0, 1};
  }

  /** What the pruning statement deletes: starts more than two days before the database's wall clock. */
  predicate Pruned(start: Millis, now: Millis, zone: Millis) {
    start < now + zone - 2 * DAY
  }

  /** A pruning at `now` leaves the window that a worker charges for the moment `at`. */
  predicate Spares(w: Span, zone: Millis, now: Millis, at: Millis) {
    !Pruned(WindowStart(w, at), now, zone)
  }

  /**
   * No pruning takes the window of a worker whose moment is at most `lag` behind it, exactly when that lag and the
   * database's zone ahead of UTC together leave room for the window in the two days.
   */
  lemma PruneSparesChargedExactly(w: Span, zone: Millis, lag: nat)
    ensures (forall now, at :: now - lag <= at ==> Spares(w, zone, now, at))
            <==> zone + lag <= 48 * 60 * 60 * 1000 - w.Length() + 1
  {
    if zone + lag <= 2 * DAY - w.Length() + 1 {
      forall now, at | now - lag <= at
        ensures Spares(w, zone, now, at)
      {
        WindowIsUnique(w, at, 0);
      }
    } else {
      var at := w.Length() - 1;
      WindowIsUnique(w, at, 0);
      assert !Spares(w, zone, at + lag, at);
    }
  }

  /** The scopes a public write is charged to. */
  function Checks(tenant: nat, voter: Option<string>, domain: Option<string>): seq<Scope> {
    (if voter.Some? then [VoterHour(voter.value, tenant)] else []) + [TenantHour(tenant)] +
    (if domain.Some? then [DomainDay(domain.value, tenant)] else [])
  }

  lemma CountNext(log: seq<Charge>, c: Charge, s: Scope, start: Millis)
    ensures Count(log + [c], s, start) == Count(log, s, start) + (if InWindow(c, s, start) then 1 else 0)
  {
    assert (log + [c])[..|log|] == log;
  }

  /** Windows from the horizon on are in the table with the number of their bumps, if they had any. */
  ghost predicate Tabled(table: map<(Scope, Millis), nat>, log: seq<Charge>, horizon: Option<Millis>) {
    forall s: Scope, start: Millis :: !Behind(start, horizon) ==>
      Count(log, s, start) == if (s, start) in table then table[(s, start)] else 0
  }

  /** The window is one that a pruning may have deleted. */
  predicate Behind(start: Millis, horizon: Option<Millis>) {
    horizon.Some? && start < horizon.value
  }

  function Later(horizon: Option<Millis>, t: Millis): Option<Millis> {
    if horizon.Some? && horizon.value > t then horizon else Some(t)
  }

  lemma BumpKeepsTable(table: map<(Scope, Millis), nat>, log: seq<Charge>, horizon: Option<Millis>, c: Charge)
    requires Tabled(table, log, horizon) && !Behind(c.start, horizon)
    requires c.count == 1 + if (c.scope, c.start) in table then table[(c.scope, c.start)] else 0
    ensures Tabled(table[(c.scope, c.start) := c.count], log + [c], horizon)
    ensures c.count == Count(log, c.scope, c.start) + 1
  {
    forall s: Scope, start: Millis
      ensures Count(log + [c], s, start) == Count(log, s, start) + (if InWindow(c, s, start) then 1 else 0)
    {
      CountNext(log, c, s, start);
    }
  }

  /** No scope's window at this moment has been pruned. */
  ghost predicate AllAhead(checks: seq<Scope>, now: Millis, horizon: Option<Millis>) {
    forall i :: 0 <= i < |checks| ==> !Behind(WindowStart(checks[i].Window(), now), horizon)
  }

  /**
   * The counter table, with the history of its bumps in the order the database served them. Each bump brings the
   * moment at which its worker worked out the window, and those moments come in any order.
   */
  class Counters {
    var table: map<(Scope, Millis), nat>
    ghost var log: seq<Charge>
    /** The latest moment before which windows were pruned. */
    ghost var horizon: Option<Millis>

    /** Every bump was counted in the window of its moment, and handed its place there. */
    ghost predicate Valid()
      reads this
    {
      Numbered(log) && Stamped(log) && Tabled(table, log, horizon)
    }

    constructor ()
      ensures Valid() && log == [] && horizon == None
    {
      table := map[];
      log, horizon := [], None;
    }

    /** The atomic upsert. It hands back the right place unless the window has been pruned. */
    method Bump(s: Scope, now: Millis) returns (count: nat)
      modifies `table, `log
      ensures old(Valid()) && !Behind(WindowStart(s.Window(), now), horizon) ==> Valid()
      ensures log == old(log) + [Charge(s, now, WindowStart(s.Window(), now), count)]
    {
      var start := WindowStart(s.Window(), now);
      count := if (s, start) in table then table[(s, start)] + 1 else 1;
      ghost var charge := Charge(s, now, start, count);
      if Valid() && !Behind(start, horizon) {
        BumpKeepsTable(table, log, horizon, charge);
      }
      table := table[(s, start) := count];
      assert (log + [charge])[..|log|] == log;
      log := log + [charge];
    }

    /** Pruning by the database's clock, in whatever zone it runs; the horizon moves to what it deletes. */
    method PruneCounters(now: Millis, zone: Millis)
      modifies `table, `horizon
      ensures old(Valid()) ==> Valid()
      ensures horizon == Later(old(horizon), now + zone - 2 * DAY)
      ensures table == map k | k in old(table) && !Pruned(k.1, now, zone) :: old(table)[k]
    {
      table := map k | k in table && !Pruned(k.1, now, zone) :: table[k];
      horizon := Later(horizon, now + zone - 2 * DAY);
    }

    /**
     * Bumps the voter's hour, the workspace's hour and the email domain's day, as far as they are known, each in the
     * aligned window of now. The write is accepted exactly when no count handed back is above its own cap, and
     * otherwise the first that is names the cap that tripped.
     */
    method ChargePublicWrite(caps: Caps, tenant: nat, voter: Option<string>, domain: Option<string>, now: Millis)
      returns (tripped: Option<Scope>)
      modifies `table, `log
      ensures old(Valid()) && AllAhead(Checks(tenant, voter, domain), now, horizon) ==> Valid()
      ensures old(log) <= log
      ensures |log| == |old(log)| + (if voter.Some? then 1 else 0) + 1 + (if domain.Some? then 1 else 0)
      ensures forall i :: |old(log)| <= i < |log| ==>
        var size := if log[i].scope.DomainDay? then 86400000 else 3600000;
        log[i].at == now && log[i].start % size == 0 && log[i].start <= now < log[i].start + size
      ensures var first := |old(log)|;
        var second := first + (if voter.Some? then 1 else 0);
        && (voter.Some? ==> log[first].scope == VoterHour(voter.value, tenant))
        && log[second].scope == TenantHour(tenant)
        && (domain.Some? ==> log[second + 1].scope == DomainDay(domain.value, tenant))
        && tripped == if voter.Some? && log[first].count > caps.voterHour then Some(log[first].scope)
                      else if log[second].count > caps.tenantHour then Some(log[second].scope)
                      else if domain.Some? && log[second + 1].count > caps.domainDay then Some(log[second + 1].scope)
                      else None
    {
      var checks: seq<Scope> := [];
      if voter.Some? {
        checks := checks + [VoterHour(voter.value, tenant)];
      }
      checks := checks + [TenantHour(tenant)];
      if domain.Some? {
        checks := checks + [DomainDay(domain.value, tenant)];
      }
      assert checks == Checks(tenant, voter, domain);
      HourIsUnique(now, now);
      DayIsUnique(now, now);
      tripped := ChargeAll(caps, checks, now);
    }

    /** The first bump from this position on that is above its cap. */
    ghost predicate IsFirstOver(caps: Caps, from: nat, i: int)
      reads this
    {
      && from <= i < |log| && log[i].count > Cap(caps, log[i].scope)
      && forall j :: from <= j < i ==> log[j].count <= Cap(caps, log[j].scope)
    }

    /** Every scope is bumped, even once one has tripped. */
    method ChargeAll(caps: Caps, checks: seq<Scope>, now: Millis) returns (tripped: Option<Scope>)
      modifies `table, `log
      ensures old(Valid()) && AllAhead(checks, now, horizon) ==> Valid()
      ensures old(log) <= log && |log| == |old(log)| + |checks|
      ensures forall i :: |old(log)| <= i < |log| ==>
        log[i].scope == checks[i - |old(log)|] && log[i].at == now
        && log[i].start == WindowStart(log[i].scope.Window(), now)
      ensures tripped.None? ==> forall i :: |old(log)| <= i < |log| ==> log[i].count <= Cap(caps, log[i].scope)
      ensures tripped.Some? ==> exists i :: IsFirstOver(caps, |old(log)|, i) && log[i].scope == tripped.value
    {
      tripped := None;
      for i := 0 to |checks|
        invariant old(Valid()) && AllAhead(checks, now, horizon) ==> Valid()
        invariant |log| == |old(log)| + i && old(log) <= log
        invariant forall j :: |old(log)| <= j < |log| ==>
          log[j].scope == checks[j - |old(log)|] && log[j].at == now
          && log[j].start == WindowStart(log[j].scope.Window(), now)
        invariant tripped.None? ==> forall j :: |old(log)| <= j < |log| ==> log[j].count <= Cap(caps, log[j].scope)
        invariant tripped.Some? ==> exists j :: IsFirstOver(caps, |old(log)|, j) && log[j].scope == tripped.value
      {
        ghost var before := log;
        ghost var first :| tripped.Some? ==> IsFirstOver(caps, |old(log)|, first) && log[first].scope == tripped.value;
        var count := Bump(checks[i], now);
        assert log[|before|].count == count && log[|before|].scope == checks[i];
        assert forall j :: 0 <= j < |before| ==> log[j] == before[j];
        if tripped.Some? {
          assert IsFirstOver(caps, |old(log)|, first);
        } else if count > Cap(caps, checks[i]) {
          tripped := Some(checks[i]);
          assert IsFirstOver(caps, |old(log)|, |before|);
        }
      }
    }
  }
}
