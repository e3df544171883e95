/**
 * Promotional offers: the price the pricing page advertises and the discount that checkout applies
 * come from two separate lookups over the same rows. Money is in cents, time in seconds.
 */
module Offers {
  import opened Options
  import opened Plans
  import opened Rounding
  import opened Rows

  type Id = nat

  datatype Offer = Offer(
    plan: Plan,
    interval: Interval,
    cents: int,
    starts: Option<int>,
    ends: Option<int>,
    discount: Option<Id>,
    active: bool,
    createdAt: int)

  /** The provider's flat discount: it can apply to one price only, or to any when `restrictTo` is absent. */
  datatype Discount = Discount(amount: int, restrictTo: Option<string>, archived: bool)

  /** The offers table, a row's id being its position, and the provider's discounts. */
  datatype Shop = Shop(offers: seq<Offer>, discounts: map<Id, Discount>)

  function ListCents(plan: Plan, interval: Interval): int {
    100 * ListPrice(plan, interval)
  }

  predicate AtHalfCent(cents: real) {
    cents - cents.Floor as real == 0.5
  }

  lemma FloorIs(x: real, n: int)
    requires n as real <= x < (n + 1) as real
    ensures x.Floor == n
  {
  }

  /** Price and discount are rounded separately; together they make up the list price, or a cent more at a half cent. */
  lemma RoundsTogetherExactly(list: int, cents: real)
    ensures RoundHalfUp(list as real - cents) == list - RoundHalfUp(cents) + (if AtHalfCent(cents) then 1 else 0)
  {
    var whole := cents.Floor;
    var part := cents - whole as real;
    if part < 0.5 {
      FloorIs(cents + 0.5, whole);
      FloorIs(list as real - cents + 0.5, list - whole);
    } else if part == 0.5 {
      FloorIs(cents + 0.5, whole + 1);
      FloorIs(list as real - cents + 0.5, list - whole);
    } else {
      FloorIs(cents + 0.5, whole + 1);
      FloorIs(list as real - cents + 0.5, list - whole - 1);
    }
  }

  // ----- creating, backfilling and deactivating

  datatype Request = Request(plan: Plan, interval: Interval, price: real, starts: Option<int>, ends: Option<int>)

  function PercentOff(req: Request): int
    requires ListPrice(req.plan, req.interval) > 0
  {
    RoundHalfUp((1.0 - req.price / ListPrice(req.plan, req.interval) as real) * 100.0)
  }

  predicate Acceptable(req: Request) {
    && Paid(req.plan)
    && 0.0 < req.price < ListPrice(req.plan, req.interval) as real
    && 1 <= PercentOff(req) <= 100
  }

  predicate SameSlot(o: Offer, plan: Plan, interval: Interval) {
    o.plan == plan && o.interval == interval
  }

  function Retired(o: Offer, plan: Plan, interval: Interval): Offer {
    if SameSlot(o, plan, interval) && o.active then o.(active := false) else o
  }

  function Retire(plan: Plan, interval: Interval): Offer -> Offer {
    (o: Offer) => Retired(o, plan, interval)
  }

  /** The discount that backs an offer of this price. */
  function Backing(c: Catalog, plan: Plan, interval: Interval, price: real): Discount {
    Discount(RoundHalfUp((ListPrice(plan, interval) as real - price) * 100.0), c.PriceFor(plan, interval), false)
  }

  function NewRow(req: Request, discount: Option<Id>, now: int): Offer {
    Offer(req.plan, req.interval, RoundHalfUp(100.0 * req.price), req.starts, req.ends, discount, true, now)
  }

  /**
   * One creation. `discount` is the provider's new id, absent when the provider failed; `answered` is the number
   * of database statements that succeed before one fails.
   */
  function Created(s: Shop, c: Catalog, req: Request, discount: Option<Id>, now: int, answered: nat): Shop {
    if !Acceptable(req) then s else
    var discounts := if discount.Some? then s.discounts[discount.value := Backing(c, req.plan, req.interval, req.price)]
                     else s.discounts;
    if answered == 0 then Shop(s.offers, discounts) else
    var retired := Map(s.offers, Retire(req.plan, req.interval));
    if answered == 1 then Shop(retired, discounts) else
    Shop(retired + [NewRow(req, discount, now)], discounts)
  }

  function Archive(discounts: map<Id, Discount>, id: Id): map<Id, Discount> {
    if id in discounts then discounts[id := discounts[id].(archived := true)] else discounts
  }

  /** One deactivation; archiving at the provider is best effort and comes first. */
  function Deactivated(s: Shop, row: nat, archives: bool, saved: bool): Shop {
    if row >= |s.offers| then s else
    var o := s.offers[row];
    var discounts := if o.discount.Some? && archives then Archive(s.discounts, o.discount.value) else s.discounts;
    Shop(if saved then s.offers[row := o.(active := false)] else s.offers, discounts)
  }

  predicate NotEnded(o: Offer, now: int) {
    o.ends.None? || o.ends.value >= now
  }

  /** One row of the backfill script. */
  function Backfilled(s: Shop, c: Catalog, row: nat, force: bool, discount: Option<Id>, now: int): Shop {
    if row >= |s.offers| || discount.None? then s else
    var o := s.offers[row];
    if !o.active || !NotEnded(o, now) || (o.discount.Some? && !force)
       || !(0 < o.cents < ListCents(o.plan, o.interval)) then s else
    Shop(s.offers[row := o.(discount := discount)],
         s.discounts[discount.value := Backing(c, o.plan, o.interval, o.cents as real / 100.0)])
  }

  // ----- the two lookups

  predicate OnSale(o: Offer, now: int) {
    o.active && (o.starts.None? || o.starts.value <= now) && NotEnded(o, now)
  }

  function InWindow(now: int): Offer -> bool {
    (o: Offer) => OnSale(o, now)
  }

  function NewestFirst(): (Offer, Offer) -> bool {
    (o: Offer, p: Offer) => o.createdAt >= p.createdAt
  }

  function For(plan: Plan, interval: Interval): Offer -> bool {
    (o: Offer) => SameSlot(o, plan, interval)
  }

  function InWindowFor(plan: Plan, interval: Interval, now: int): Offer -> bool {
    (o: Offer) => SameSlot(o, plan, interval) && OnSale(o, now)
  }

  function Head<T>(s: seq<T>): Option<T> {
    if s == [] then None else Some(s[0])
  }

  /** The rows read for the pricing page. */
  function PageRows(s: Shop, now: int): seq<Offer> {
    SortBy(Filter(s.offers, InWindow(now)), NewestFirst())
  }

  function Honourable(): Offer -> bool {
    (o: Offer) => o.discount.Some?
  }

  /** The newest row in its window that has a discount. */
  function Advertised(s: Shop, plan: Plan, interval: Interval, now: int): Option<Offer> {
    Head(Filter(Filter(PageRows(s, now), For(plan, interval)), Honourable()))
  }

  /** The row that checkout and plan changes look up: the newest in its window, with or without a discount. */
  function CheckoutOffer(s: Shop, plan: Plan, interval: Interval, now: int): Option<Offer> {
    Head(SortBy(Filter(s.offers, InWindowFor(plan, interval, now)), NewestFirst()))
  }

  /** The cents a checkout without a promo code is charged for its first period. */
  function Charged(s: Shop, c: Catalog, plan: Plan, interval: Interval, now: int): int {
    var offer := CheckoutOffer(s, plan, interval, now);
    var list := ListCents(plan, interval);
    if offer.None? || offer.value.discount.None? || offer.value.discount.value !in s.discounts then list else
    var d := s.discounts[offer.value.discount.value];
    if d.archived || (d.restrictTo.Some? && d.restrictTo != c.PriceFor(plan, interval)) then list else list - d.amount
  }

  /** The cents the pricing page shows. */
  function Shown(s: Shop, plan: Plan, interval: Interval, now: int): int {
    var offer := Advertised(s, plan, interval, now);
    if offer.Some? then offer.value.cents else ListCents(plan, interval)
  }

  /** Both lookups read the same ordered rows of one plan and interval. */
  lemma SameRows(s: Shop, plan: Plan, interval: Interval, now: int)
    ensures Filter(PageRows(s, now), For(plan, interval))
            == SortBy(Filter(s.offers, InWindowFor(plan, interval, now)), NewestFirst())
  {
    FilterOfSort(Filter(s.offers, InWindow(now)), NewestFirst(), For(plan, interval));
    FilterTwice(s.offers, InWindow(now), For(plan, interval), InWindowFor(plan, interval, now));
  }

  /**
   * Checkout finds the very row the page advertises, and no discount when none is advertised, exactly when the
   * newest row in its window has a discount or no row in its window has one.
   */
  lemma LookupsAgreeExactly(s: Shop, plan: Plan, interval: Interval, now: int)
    ensures var page, checkout := Advertised(s, plan, interval, now), CheckoutOffer(s, plan, interval, now);
      (if page.Some? then checkout == page else checkout.None? || checkout.value.discount.None?)
      <==> ((checkout.Some? && checkout.value.discount.Some?)
            || forall o :: o in s.offers && SameSlot(o, plan, interval) && OnSale(o, now) ==> o.discount.None?)
  {
    SameRows(s, plan, interval, now);
    var mine := Filter(s.offers, InWindowFor(plan, interval, now));
    var sorted := SortBy(mine, NewestFirst());
    forall o
      ensures o in sorted <==> o in s.offers && SameSlot(o, plan, interval) && OnSale(o, now)
    {
      SortHas(mine, NewestFirst(), o);
      FilterHas(s.offers, InWindowFor(plan, interval, now), o);
    }
    FilterMembers(sorted, Honourable());
  }

  // ----- the invariant

  ghost predicate OneActive(s: Shop) {
    forall i, j :: 0 <= i < j < |s.offers| && s.offers[i].active && s.offers[j].active ==>
      !SameSlot(s.offers[i], s.offers[j].plan, s.offers[j].interval)
  }

  /** An offer's discount brings the list price down to the offer's price. */
  predicate BackedUp(s: Shop, c: Catalog, o: Offer) {
    o.discount.Some? ==>
      && o.discount.value in s.discounts
      && o.cents < ListCents(o.plan, o.interval)
      && s.discounts[o.discount.value].amount == ListCents(o.plan, o.interval) - o.cents
      && s.discounts[o.discount.value].restrictTo == c.PriceFor(o.plan, o.interval)
  }

  ghost predicate Inv(s: Shop, c: Catalog) {
    && OneActive(s)
    && (forall i :: 0 <= i < |s.offers| ==> BackedUp(s, c, s.offers[i]))
    && (forall i, j :: 0 <= i < j < |s.offers| && s.offers[i].discount.Some? ==>
          s.offers[i].discount != s.offers[j].discount)
  }

  /** No active offer's discount has been archived. */
  ghost predicate DiscountsLive(s: Shop) {
    forall i :: 0 <= i < |s.offers| && s.offers[i].active && s.offers[i].discount.Some? ==>
      s.offers[i].discount.value in s.discounts && !s.discounts[s.offers[i].discount.value].archived
  }

  /** Only one row can be in its window for a plan and interval. */
  lemma OnlyOffer(s: Shop, plan: Plan, interval: Interval, now: int, o: Offer, p: Offer)
    requires OneActive(s)
    requires o in s.offers && SameSlot(o, plan, interval) && OnSale(o, now)
    requires p in s.offers && SameSlot(p, plan, interval) && OnSale(p, now)
    ensures o == p
  {
    var i, j :| 0 <= i < |s.offers| && 0 <= j < |s.offers| && s.offers[i] == o && s.offers[j] == p;
    assert SameSlot(s.offers[i], s.offers[j].plan, s.offers[j].interval);
  }

  /** With one active row per plan and interval the two lookups find the same offer. */
  lemma LookupsAgree(s: Shop, plan: Plan, interval: Interval, now: int)
    requires OneActive(s)
    ensures var page, checkout := Advertised(s, plan, interval, now), CheckoutOffer(s, plan, interval, now);
      && (page.Some? ==> checkout == page && page.value in s.offers && SameSlot(page.value, plan, interval)
                         && page.value.active && page.value.discount.Some?)
      && (page.None? ==> checkout.None? || checkout.value.discount.None?)
  {
    LookupsAgreeExactly(s, plan, interval, now);
    SameRows(s, plan, interval, now);
    var mine := Filter(s.offers, InWindowFor(plan, interval, now));
    var sorted := SortBy(mine, NewestFirst());
    var page, checkout := Advertised(s, plan, interval, now), CheckoutOffer(s, plan, interval, now);
    FilterMembers(sorted, Honourable());
    if page.Some? {
      assert page.value in sorted && checkout.value in sorted;
      SortHas(mine, NewestFirst(), page.value);
      FilterHas(s.offers, InWindowFor(plan, interval, now), page.value);
      SortHas(mine, NewestFirst(), checkout.value);
      FilterHas(s.offers, InWindowFor(plan, interval, now), checkout.value);
      OnlyOffer(s, plan, interval, now, page.value, checkout.value);
    }
  }

  /** An offer that can be sold now: switched on, begun, not over, and for this plan and interval. */
  predicate IsOpen(o: Offer, plan: Plan, interval: Interval, now: int) {
    && o.plan == plan && o.interval == interval && o.active
    && (o.starts.Some? ==> o.starts.value <= now) && (o.ends.Some? ==> now <= o.ends.value)
  }

  /** Checkout finds the newest open offer, and none exactly when no offer is open. */
  lemma CheckoutFindsNewest(s: Shop, plan: Plan, interval: Interval, now: int)
    ensures var found := CheckoutOffer(s, plan, interval, now);
      && (found.None? <==> forall o :: o in s.offers ==> !IsOpen(o, plan, interval, now))
      && (found.Some? ==>
            && found.value in s.offers && IsOpen(found.value, plan, interval, now)
            && forall o :: o in s.offers && IsOpen(o, plan, interval, now) ==> o.createdAt <= found.value.createdAt)
  {
    var mine := Filter(s.offers, InWindowFor(plan, interval, now));
    var sorted := SortBy(mine, NewestFirst());
    SortOrders(mine, NewestFirst());
    forall o
      ensures o in sorted <==> o in s.offers && IsOpen(o, plan, interval, now)
    {
      SortHas(mine, NewestFirst(), o);
      FilterHas(s.offers, InWindowFor(plan, interval, now), o);
    }
    forall o | o in sorted
      ensures o.createdAt <= sorted[0].createdAt
    {
      var i :| 0 <= i < |sorted| && sorted[i] == o;
      assert i > 0 ==> NewestFirst()(sorted[0], sorted[i]);
    }
    assert sorted != [] ==> sorted[0] in sorted;
  }

  /** The page shows the newest open offer that has a discount, and none exactly when no open offer has one. */
  lemma PageFindsNewest(s: Shop, plan: Plan, interval: Interval, now: int)
    ensures var found := Advertised(s, plan, interval, now);
      && (found.None? <==> forall o :: o in s.offers && IsOpen(o, plan, interval, now) ==> o.discount.None?)
      && (found.Some? ==>
            && found.value in s.offers && IsOpen(found.value, plan, interval, now) && found.value.discount.Some?
            && forall o :: o in s.offers && IsOpen(o, plan, interval, now) && o.discount.Some? ==>
                 o.createdAt <= found.value.createdAt)
  {
    SameRows(s, plan, interval, now);
    var mine := Filter(s.offers, InWindowFor(plan, interval, now));
    var sorted := SortBy(mine, NewestFirst());
    var kept := Filter(sorted, Honourable());
    SortOrders(mine, NewestFirst());
    FilterKeepsOrder(sorted, NewestFirst(), Honourable());
    forall o
      ensures o in kept <==> o in s.offers && IsOpen(o, plan, interval, now) && o.discount.Some?
    {
      FilterHas(sorted, Honourable(), o);
      SortHas(mine, NewestFirst(), o);
      FilterHas(s.offers, InWindowFor(plan, interval, now), o);
    }
    forall o | o in kept
      ensures o.createdAt <= kept[0].createdAt
    {
      var i :| 0 <= i < |kept| && kept[i] == o;
      assert i > 0 ==> NewestFirst()(kept[0], kept[i]);
    }
    assert kept != [] ==> kept[0] in kept;
  }

  predicate Archived(s: Shop, o: Offer) {
    o.discount.Some? && o.discount.value in s.discounts && s.discounts[o.discount.value].archived
  }

  /**
   * The price shown is the price charged, and when no offer is shown the list price is charged. The one exception
   * is an offer whose discount was archived while its row stayed active.
   */
  lemma ShownIsChargedExactly(s: Shop, c: Catalog, plan: Plan, interval: Interval, now: int)
    requires Inv(s, c)
    ensures Charged(s, c, plan, interval, now) == Shown(s, plan, interval, now)
            <==> (var o := Advertised(s, plan, interval, now); o.None? || !Archived(s, o.value))
  {
    LookupsAgree(s, plan, interval, now);
    var o := Advertised(s, plan, interval, now);
    if o.Some? {
      var i :| 0 <= i < |s.offers| && s.offers[i] == o.value;
      assert BackedUp(s, c, s.offers[i]);
    }
  }

  // ----- runs

  datatype Step =
    | Create(req: Request, discount: Option<Id>, answered: nat)
    | Deactivate(row: nat, archives: bool, saved: bool)
    | Backfill(row: nat, force: bool, minted: Option<Id>)

  function Next(s: Shop, c: Catalog, now: int, step: Step): Shop {
    match step
    case Create(req, discount, answered) => Created(s, c, req, discount, now, answered)
    case Deactivate(row, archives, saved) => Deactivated(s, row, archives, saved)
    case Backfill(row, force, minted) => Backfilled(s, c, row, force, minted, now)
  }

  /** The provider gives each discount a new id, and an offer price is not half way between two cents. */
  predicate Allowed(s: Shop, step: Step) {
    match step
    case Create(req, discount, _) =>
      (discount.Some? ==> discount.value !in s.discounts) && !AtHalfCent(100.0 * req.price)
    case Deactivate(_, _, _) => true
    case Backfill(_, _, minted) => minted.Some? ==> minted.value !in s.discounts
  }

  /** An accepted offer is at least a cent below the list price. */
  lemma AcceptableIsBelowList(req: Request)
    requires Acceptable(req)
    ensures RoundHalfUp(100.0 * req.price) < ListCents(req.plan, req.interval)
  {
    var list := ListPrice(req.plan, req.interval) as real;
    var ratio := req.price / list;
    assert (1.0 - ratio) * 100.0 + 0.5 >= 1.0;
    assert ratio <= 0.995;
    assert req.price == ratio * list;
    assert list == 10.0 || list == 96.0 || list == 15.0 || list == 144.0;
  }

  /** The discount made for a new offer or by the backfill takes exactly the difference to the list price. */
  lemma NewDiscountFits(s: Shop, c: Catalog, req: Request, id: Id, now: int)
    requires Acceptable(req) && !AtHalfCent(100.0 * req.price)
    ensures BackedUp(s.(discounts := s.discounts[id := Backing(c, req.plan, req.interval, req.price)]), c,
                     NewRow(req, Some(id), now))
  {
    AcceptableIsBelowList(req);
    var list := ListCents(req.plan, req.interval);
    RoundsTogetherExactly(list, 100.0 * req.price);
    assert (ListPrice(req.plan, req.interval) as real - req.price) * 100.0 == list as real - 100.0 * req.price;
  }

  lemma BackfillFits(s: Shop, c: Catalog, o: Offer, id: Id)
    requires 0 < o.cents < ListCents(o.plan, o.interval)
    ensures BackedUp(s.(discounts := s.discounts[id := Backing(c, o.plan, o.interval, o.cents as real / 100.0)]), c,
                     o.(discount := Some(id)))
  {
    var list := ListCents(o.plan, o.interval);
    assert (ListPrice(o.plan, o.interval) as real - o.cents as real / 100.0) * 100.0 == (list - o.cents) as real;
    FloorIs((list - o.cents) as real + 0.5, list - o.cents);
  }

  lemma MintKeeps(s: Shop, c: Catalog, id: Id, d: Discount)
    requires Inv(s, c) && id !in s.discounts
    ensures Inv(s.(discounts := s.discounts[id := d]), c)
    ensures DiscountsLive(s) ==> DiscountsLive(s.(discounts := s.discounts[id := d]))
    ensures forall i :: 0 <= i < |s.offers| ==> s.offers[i].discount != Some(id)
  {
    forall i | 0 <= i < |s.offers|
      ensures BackedUp(s.(discounts := s.discounts[id := d]), c, s.offers[i]) && s.offers[i].discount != Some(id)
    {
      assert BackedUp(s, c, s.offers[i]);
    }
  }

  predicate SlotFree(s: Shop, plan: Plan, interval: Interval) {
    forall i :: 0 <= i < |s.offers| && s.offers[i].active ==> !SameSlot(s.offers[i], plan, interval)
  }

  lemma RetireKeeps(s: Shop, c: Catalog, plan: Plan, interval: Interval)
    requires Inv(s, c)
    ensures var t := Shop(Map(s.offers, Retire(plan, interval)), s.discounts);
      Inv(t, c) && SlotFree(t, plan, interval) && (DiscountsLive(s) ==> DiscountsLive(t))
  {
    var t := Shop(Map(s.offers, Retire(plan, interval)), s.discounts);
    forall i | 0 <= i < |s.offers|
      ensures t.offers[i] == s.offers[i].(active := t.offers[i].active) && (t.offers[i].active ==> s.offers[i].active)
      ensures BackedUp(t, c, t.offers[i])
    {
      assert BackedUp(s, c, s.offers[i]);
    }
  }

  lemma InsertKeeps(s: Shop, c: Catalog, o: Offer)
    requires Inv(s, c) && SlotFree(s, o.plan, o.interval) && BackedUp(s, c, o)
    requires o.discount.Some? ==> forall i :: 0 <= i < |s.offers| ==> s.offers[i].discount != o.discount
    ensures Inv(Shop(s.offers + [o], s.discounts), c)
    ensures DiscountsLive(s) && (o.discount.Some? ==> !Archived(s, o)) ==>
      DiscountsLive(Shop(s.offers + [o], s.discounts))
  {
    var t := Shop(s.offers + [o], s.discounts);
    forall i | 0 <= i < |t.offers|
      ensures BackedUp(t, c, t.offers[i])
    {
      assert i < |s.offers| ==> BackedUp(s, c, s.offers[i]);
    }
  }

  lemma CreateKeeps(s: Shop, c: Catalog, now: int, step: Step)
    requires Inv(s, c) && step.Create? && Allowed(s, step)
    ensures Inv(Next(s, c, now, step), c)
    ensures DiscountsLive(s) ==> DiscountsLive(Next(s, c, now, step))
  {
    var Create(req, discount, answered) := step;
    if Acceptable(req) {
      var minted := s;
      if discount.Some? {
        var d := Backing(c, req.plan, req.interval, req.price);
        minted := s.(discounts := s.discounts[discount.value := d]);
        MintKeeps(s, c, discount.value, d);
        NewDiscountFits(s, c, req, discount.value, now);
      }
      RetireKeeps(minted, c, req.plan, req.interval);
      if answered > 1 {
        var retired := Shop(Map(s.offers, Retire(req.plan, req.interval)), minted.discounts);
        InsertKeeps(retired, c, NewRow(req, discount, now));
      }
    }
  }

  lemma DeactivateKeeps(s: Shop, c: Catalog, row: nat, archives: bool, saved: bool)
    requires Inv(s, c)
    ensures Inv(Deactivated(s, row, archives, saved), c)
    ensures DiscountsLive(s) && saved ==> DiscountsLive(Deactivated(s, row, archives, saved))
  {
    var t := Deactivated(s, row, archives, saved);
    forall i | 0 <= i < |t.offers|
      ensures BackedUp(t, c, t.offers[i])
    {
      assert BackedUp(s, c, s.offers[i]);
    }
  }

  lemma BackfillKeeps(s: Shop, c: Catalog, now: int, row: nat, force: bool, minted: Option<Id>)
    requires Inv(s, c) && (minted.Some? ==> minted.value !in s.discounts)
    ensures Inv(Backfilled(s, c, row, force, minted, now), c)
    ensures DiscountsLive(s) ==> DiscountsLive(Backfilled(s, c, row, force, minted, now))
  {
    var t := Backfilled(s, c, row, force, minted, now);
    if t != s {
      var o := s.offers[row];
      var d := Backing(c, o.plan, o.interval, o.cents as real / 100.0);
      MintKeeps(s, c, minted.value, d);
      BackfillFits(s, c, o, minted.value);
      forall i | 0 <= i < |t.offers|
        ensures BackedUp(t, c, t.offers[i])
      {
        assert i != row ==> BackedUp(s, c, s.offers[i]);
      }
    }
  }

  lemma StepKeeps(s: Shop, c: Catalog, now: int, step: Step)
    requires Inv(s, c) && Allowed(s, step)
    ensures Inv(Next(s, c, now, step), c)
    ensures DiscountsLive(s) && (step.Deactivate? ==> step.saved) ==> DiscountsLive(Next(s, c, now, step))
  {
    match step
    case Create(_, _, _) => CreateKeeps(s, c, now, step);
    case Deactivate(row, archives, saved) => DeactivateKeeps(s, c, row, archives, saved);
    case Backfill(row, force, minted) => BackfillKeeps(s, c, now, row, force, minted);
  }

  ghost predicate IsRun(states: seq<Shop>, c: Catalog, times: seq<int>, steps: seq<Step>) {
    && |states| == |steps| + 1 && |times| == |steps|
    && forall i :: 0 <= i < |steps| ==>
         Allowed(states[i], steps[i]) && states[i + 1] == Next(states[i], c, times[i], steps[i])
  }

  lemma {:induction false} RunKeeps(states: seq<Shop>, c: Catalog, times: seq<int>, steps: seq<Step>, k: nat)
    requires IsRun(states, c, times, steps) && k < |states| && Inv(states[0], c)
    ensures Inv(states[k], c)
    ensures DiscountsLive(states[0]) && (forall i :: 0 <= i < k && steps[i].Deactivate? ==> steps[i].saved) ==>
      DiscountsLive(states[k])
  {
    if k > 0 {
      RunKeeps(states, c, times, steps, k - 1);
      StepKeeps(states[k - 1], c, times[k - 1], steps[k - 1]);
    }
  }

  /**
   * From an empty shop, after any creations, backfills and deactivations whose database statements were answered,
   * every price shown at any time is the price charged.
   */
  lemma EveryPriceShownIsCharged(states: seq<Shop>, c: Catalog, times: seq<int>, steps: seq<Step>, k: nat,
                                 plan: Plan, interval: Interval, now: int)
    requires IsRun(states, c, times, steps) && k < |states| && states[0] == Shop([], map[])
    requires forall i :: 0 <= i < k && steps[i].Deactivate? ==> steps[i].saved
    ensures Charged(states[k], c, plan, interval, now) == Shown(states[k], plan, interval, now)
  {
    RunKeeps(states, c, times, steps, k);
    LookupsAgree(states[k], plan, interval, now);
    ShownIsChargedExactly(states[k], c, plan, interval, now);
  }

  /** A deactivation cut short after archiving leaves its offer on show while checkout charges the list price. */
  lemma CutShortDeactivationOvercharges(s: Shop, c: Catalog, row: nat, now: int)
    requires Inv(s, c) && row < |s.offers|
    requires Advertised(s, s.offers[row].plan, s.offers[row].interval, now) == Some(s.offers[row])
    ensures var plan, interval := s.offers[row].plan, s.offers[row].interval;
            var t := Deactivated(s, row, true, false);
            && Shown(t, plan, interval, now) == Shown(s, plan, interval, now) < ListCents(plan, interval)
            && Charged(t, c, plan, interval, now) == ListCents(plan, interval)
  {
    LookupsAgree(s, s.offers[row].plan, s.offers[row].interval, now);
    assert BackedUp(s, c, s.offers[row]);
  }

  /** An offer is accepted exactly when its plan is paid and half a percent or more comes off the list price. */
  lemma AcceptedExactly(req: Request)
    ensures Acceptable(req)
            <==> Paid(req.plan) && 0.0 < req.price <= 0.995 * ListPrice(req.plan, req.interval) as real
  {
    if Paid(req.plan) {
      var list := ListPrice(req.plan, req.interval) as real;
      assert list == 10.0 || list == 96.0 || list == 15.0 || list == 144.0;
      var ratio := req.price / list;
      assert req.price == ratio * list;
    }
  }

  predicate NearestCent(cents: int, amount: real) {
    cents as real - 0.5 <= amount < cents as real + 0.5
  }

  /**
   * A creation leaves every earlier row of another plan or interval alone, switches off every earlier one of its own
   * once the update is answered, and appends the offer as it was entered.
   */
  lemma CreationTouchesOneSlot(
    s: Shop, c: Catalog, req: Request, discount: Option<Id>, now: int, answered: nat, i: nat)
    requires i < |s.offers|
    ensures var t, o := Created(s, c, req, discount, now, answered), s.offers[i];
      && |s.offers| <= |t.offers|
      && (o.plan != req.plan || o.interval != req.interval || !Acceptable(req) || answered == 0 ==> t.offers[i] == o)
      && t.offers[i] == o.(active := t.offers[i].active)
      && (o.plan == req.plan && o.interval == req.interval && Acceptable(req) && answered > 0 ==> !t.offers[i].active)
  {
  }

  lemma CreationAddsRow(s: Shop, c: Catalog, req: Request, discount: Option<Id>, now: int, answered: nat)
    ensures var t := Created(s, c, req, discount, now, answered);
      && |t.offers| == |s.offers| + (if Acceptable(req) && answered >= 2 then 1 else 0)
      && (|t.offers| > |s.offers| ==>
            var o := t.offers[|s.offers|];
            && o.plan == req.plan && o.interval == req.interval && o.starts == req.starts && o.ends == req.ends
            && o.discount == discount && o.active && o.createdAt == now && NearestCent(o.cents, 100.0 * req.price))
      && (forall id :: id in t.discounts <==> id in s.discounts || (Acceptable(req) && discount == Some(id)))
      && (forall id :: id in s.discounts && discount != Some(id) ==> t.discounts[id] == s.discounts[id])
      && (Acceptable(req) && discount.Some? ==>
            var d := t.discounts[discount.value];
            && !d.archived && d.restrictTo == c.PriceFor(req.plan, req.interval)
            && NearestCent(d.amount, 100.0 * (ListPrice(req.plan, req.interval) as real - req.price)))
  {
  }

  lemma {:induction false} RetiredElsewhere(
    offers: seq<Offer>, plan: Plan, interval: Interval, otherPlan: Plan, otherInterval: Interval, now: int)
    requires plan != otherPlan || interval != otherInterval
    ensures Filter(Map(offers, Retire(plan, interval)), InWindowFor(otherPlan, otherInterval, now))
            == Filter(offers, InWindowFor(otherPlan, otherInterval, now))
  {
    if offers != [] {
      RetiredElsewhere(offers[1..], plan, interval, otherPlan, otherInterval, now);
    }
  }

  /** Both lookups of a slot, and so the two prices, depend on its own rows only. */
  lemma SameSlotSamePrices(s: Shop, t: Shop, c: Catalog, plan: Plan, interval: Interval, now: int)
    requires Filter(t.offers, InWindowFor(plan, interval, now)) == Filter(s.offers, InWindowFor(plan, interval, now))
    requires forall o :: o in s.offers && o.discount.Some? && SameSlot(o, plan, interval) ==>
      && (o.discount.value in t.discounts <==> o.discount.value in s.discounts)
      && (o.discount.value in s.discounts ==> t.discounts[o.discount.value] == s.discounts[o.discount.value])
    ensures Advertised(t, plan, interval, now) == Advertised(s, plan, interval, now)
    ensures CheckoutOffer(t, plan, interval, now) == CheckoutOffer(s, plan, interval, now)
    ensures Shown(t, plan, interval, now) == Shown(s, plan, interval, now)
    ensures Charged(t, c, plan, interval, now) == Charged(s, c, plan, interval, now)
  {
    SameRows(s, plan, interval, now);
    SameRows(t, plan, interval, now);
    CheckoutFindsNewest(s, plan, interval, now);
  }

  /** Wherever a creation stops, every other plan and interval is advertised and charged as before. */
  lemma CreationKeepsOtherPrices(
    s: Shop, c: Catalog, req: Request, discount: Option<Id>, now: int, answered: nat,
    plan: Plan, interval: Interval, at: int)
    requires plan != req.plan || interval != req.interval
    requires discount.Some? ==> discount.value !in s.discounts
    requires discount.Some? ==> forall i :: 0 <= i < |s.offers| ==> s.offers[i].discount != discount
    ensures var t := Created(s, c, req, discount, now, answered);
      && Advertised(t, plan, interval, at) == Advertised(s, plan, interval, at)
      && CheckoutOffer(t, plan, interval, at) == CheckoutOffer(s, plan, interval, at)
      && Shown(t, plan, interval, at) == Shown(s, plan, interval, at)
      && Charged(t, c, plan, interval, at) == Charged(s, c, plan, interval, at)
  {
    var t := Created(s, c, req, discount, now, answered);
    var retired := Map(s.offers, Retire(req.plan, req.interval));
    RetiredElsewhere(s.offers, req.plan, req.interval, plan, interval, at);
    FilterAppend(retired, [NewRow(req, discount, now)], InWindowFor(plan, interval, at));
    assert Filter([NewRow(req, discount, now)], InWindowFor(plan, interval, at)) == [];
    SameSlotSamePrices(s, t, c, plan, interval, at);
  }

  lemma {:induction false} UpdatedElsewhere(
    offers: seq<Offer>, row: nat, o: Offer, plan: Plan, interval: Interval, now: int)
    requires row < |offers| && !SameSlot(offers[row], plan, interval) && !SameSlot(o, plan, interval)
    ensures Filter(offers[row := o], InWindowFor(plan, interval, now))
            == Filter(offers, InWindowFor(plan, interval, now))
  {
    if row > 0 {
      UpdatedElsewhere(offers[1..], row - 1, o, plan, interval, now);
      assert offers[row := o][1..] == offers[1..][row - 1 := o];
    } else {
      assert offers[row := o][1..] == offers[1..];
    }
  }

  /** A deactivation, wherever it stops, changes one row's flag, archives at most its discount, and no other price. */
  lemma DeactivationTouchesOneRow(
    s: Shop, c: Catalog, row: nat, archives: bool, saved: bool, plan: Plan, interval: Interval, at: int)
    requires Inv(s, c) && row < |s.offers|
    ensures var t, o := Deactivated(s, row, archives, saved), s.offers[row];
      && t.offers == s.offers[row := t.offers[row]] && t.offers[row] == o.(active := t.offers[row].active)
      && t.offers[row].active == (o.active && !saved)
      && t.discounts.Keys == s.discounts.Keys
      && (forall id :: id in s.discounts ==>
            t.discounts[id] == s.discounts[id].(archived := s.discounts[id].archived
                                                            || (archives && o.discount == Some(id))))
      && (o.plan != plan || o.interval != interval ==>
            && Shown(t, plan, interval, at) == Shown(s, plan, interval, at)
            && Charged(t, c, plan, interval, at) == Charged(s, c, plan, interval, at))
  {
    var t, o := Deactivated(s, row, archives, saved), s.offers[row];
    if o.plan != plan || o.interval != interval {
      UpdatedElsewhere(s.offers, row, t.offers[row], plan, interval, at);
      forall p | p in s.offers && p.discount.Some? && SameSlot(p, plan, interval)
        ensures p.discount != o.discount
      {
        var i :| 0 <= i < |s.offers| && s.offers[i] == p;
        assert i != row;
      }
      SameSlotSamePrices(s, t, c, plan, interval, at);
    }
  }

  /** The backfill gives a discount to a row that is on and not over, if it has none or is forced, and does no more. */
  lemma BackfillTouchesOneRow(s: Shop, c: Catalog, row: nat, force: bool, minted: Option<Id>, now: int)
    requires row < |s.offers|
    ensures var t, o := Backfilled(s, c, row, force, minted, now), s.offers[row];
      var fits := minted.Some? && o.active && (o.ends.Some? ==> now <= o.ends.value) && (o.discount.None? || force)
        && 0 < o.cents < ListCents(o.plan, o.interval);
      && t.offers == s.offers[row := o.(discount := if fits then minted else o.discount)]
      && (forall id :: id in t.discounts <==> id in s.discounts || (fits && minted == Some(id)))
      && (forall id :: id in s.discounts && minted != Some(id) ==> t.discounts[id] == s.discounts[id])
      && (fits ==> var d := t.discounts[minted.value];
            && !d.archived && d.amount == ListCents(o.plan, o.interval) - o.cents
            && d.restrictTo == c.PriceFor(o.plan, o.interval))
  {
    var o := s.offers[row];
    if minted.Some? && 0 < o.cents < ListCents(o.plan, o.interval) {
      BackfillFits(s, c, o, minted.value);
    }
    assert s.offers[row := o] == s.offers;
  }

  /** After a creation that goes through, its offer is the one in its window for the plan and interval. */
  lemma CreatedIsOnShow(s: Shop, c: Catalog, req: Request, id: Id, now: int, at: int)
    requires OneActive(s) && Acceptable(req) && OnSale(NewRow(req, Some(id), now), at)
    ensures var t := Created(s, c, req, Some(id), now, 2);
      && Advertised(t, req.plan, req.interval, at) == Some(NewRow(req, Some(id), now))
      && CheckoutOffer(t, req.plan, req.interval, at) == Some(NewRow(req, Some(id), now))
  {
    var t, row := Created(s, c, req, Some(id), now, 2), NewRow(req, Some(id), now);
    assert t.offers[|s.offers|] == row;
    forall i | 0 <= i < |s.offers|
      ensures t.offers[i] == Retired(s.offers[i], req.plan, req.interval)
    {
    }
    assert OneActive(t);
    LookupsAgree(t, req.plan, req.interval, at);
    SameRows(t, req.plan, req.interval, at);
    var mine := Filter(t.offers, InWindowFor(req.plan, req.interval, at));
    FilterHas(t.offers, InWindowFor(req.plan, req.interval, at), row);
    SortHas(mine, NewestFirst(), row);
    var sorted := SortBy(mine, NewestFirst());
    SortHas(mine, NewestFirst(), sorted[0]);
    FilterHas(t.offers, InWindowFor(req.plan, req.interval, at), sorted[0]);
    OnlyOffer(t, req.plan, req.interval, at, sorted[0], row);
  }

  /**
   * While a newly created offer is on sale, the price shown is the price charged exactly when the price entered is
   * not half way between two cents. Otherwise a cent less is charged than shown.
   */
  lemma CreatedShownIsChargedExactly(s: Shop, c: Catalog, req: Request, id: Id, now: int, at: int)
    requires OneActive(s) && Acceptable(req) && OnSale(NewRow(req, Some(id), now), at)
    ensures var t := Created(s, c, req, Some(id), now, 2);
      Charged(t, c, req.plan, req.interval, at)
      == Shown(t, req.plan, req.interval, at) - (if AtHalfCent(100.0 * req.price) then 1 else 0)
  {
    CreatedIsOnShow(s, c, req, id, now, at);
    var list := ListCents(req.plan, req.interval);
    RoundsTogetherExactly(list, 100.0 * req.price);
    assert (ListPrice(req.plan, req.interval) as real - req.price) * 100.0 == list as real - 100.0 * req.price;
  }

  /** Pro by the month for 5.125 dollars is shown at 5.13 and charged at 5.12. */
  lemma HalfCentIsChargedLess(c: Catalog, id: Id, now: int)
    ensures var req := Request(Pro, Month, 5.125, None, None);
      var t := Created(Shop([], map[]), c, req, Some(id), now, 2);
      Acceptable(req) && Shown(t, Pro, Month, now) == 513 && Charged(t, c, Pro, Month, now) == 512
  {
    var req := Request(Pro, Month, 5.125, None, None);
    FloorIs((1.0 - 5.125 / 10.0) * 100.0 + 0.5, 49);
    FloorIs(512.5 + 0.5, 513);
    FloorIs((10.0 - 5.125) * 100.0 + 0.5, 488);
    CreatedIsOnShow(Shop([], map[]), c, req, id, now, now);
  }

  // ----- the handlers

  /** The row that prices a plan and interval in the result of `GetActiveOffers`. */
  function Entry(byPlan: map<(Plan, Interval), Offer>, plan: Plan, interval: Interval): Option<Offer> {
    if (plan, interval) in byPlan then Some(byPlan[(plan, interval)]) else None
  }

  lemma AdvertisedAfter(rows: seq<Offer>, i: nat, plan: Plan, interval: Interval)
    requires i < |rows|
    ensures var before := Head(Filter(Filter(rows[..i], For(plan, interval)), Honourable()));
            Head(Filter(Filter(rows[..i + 1], For(plan, interval)), Honourable()))
            == if before.None? && SameSlot(rows[i], plan, interval) && rows[i].discount.Some?
               then Some(rows[i]) else before
  {
    FilterSnoc(rows, i, For(plan, interval));
    if SameSlot(rows[i], plan, interval) {
      FilterAppend(Filter(rows[..i], For(plan, interval)), [rows[i]], Honourable());
    } else {
      assert Filter(rows[..i], For(plan, interval)) + [] == Filter(rows[..i], For(plan, interval));
    }
  }

  class Desk {
    const catalog: Catalog
    var offers: seq<Offer>
    var discounts: map<Id, Discount>

    constructor (catalog: Catalog)
      ensures this.catalog == catalog && Current() == Shop([], map[])
    {
      this.catalog := catalog;
      offers, discounts := [], map[];
    }

    function Current(): Shop
      reads this
    {
      Shop(offers, discounts)
    }

    method CreateOffer(req: Request, discount: Option<Id>, now: int, answered: nat) returns (ok: bool)
      modifies this
      ensures Current() == Created(old(Current()), catalog, req, discount, now, answered)
      ensures ok <==>
        Paid(req.plan) && 0.0 < req.price <= 0.995 * ListPrice(req.plan, req.interval) as real && answered >= 2
      ensures forall i :: 0 <= i < |old(offers)|
                          && (old(offers)[i].plan != req.plan || old(offers)[i].interval != req.interval) ==>
        i < |offers| && offers[i] == old(offers)[i]
    {
      AcceptedExactly(req);
      if !Paid(req.plan) || !(0.0 < req.price < ListPrice(req.plan, req.interval) as real) {
        return false;
      }
      var percentOff := PercentOff(req);
      if percentOff < 1 || percentOff > 100 {
        return false;
      }
      if discount.Some? {
        discounts := discounts[discount.value := Backing(catalog, req.plan, req.interval, req.price)];
      }
      if answered < 1 {
        return false;
      }
      offers := Map(offers, Retire(req.plan, req.interval));
      if answered < 2 {
        return false;
      }
      offers := offers + [NewRow(req, discount, now)];
      ok := true;
    }

    method DeactivateOffer(row: nat, archives: bool, saved: bool) returns (ok: bool)
      modifies this
      ensures Current() == Deactivated(old(Current()), row, archives, saved)
      ensures ok <==> row < |old(offers)| && saved
    {
      if row >= |offers| {
        return false;
      }
      if offers[row].discount.Some? && archives {
        discounts := Archive(discounts, offers[row].discount.value);
      }
      if saved {
        offers := offers[row := offers[row].(active := false)];
      }
      ok := saved;
    }

    /** What the pricing page shows: the newest offer that can be charged, per plan and interval. */
    method GetActiveOffers(now: int) returns (byPlan: map<(Plan, Interval), Offer>)
      ensures forall plan, interval :: Entry(byPlan, plan, interval) == Advertised(Current(), plan, interval, now)
    {
      var rows := PageRows(Current(), now);
      byPlan := map[];
      for i := 0 to |rows|
        invariant forall plan, interval ::
          Entry(byPlan, plan, interval) == Head(Filter(Filter(rows[..i], For(plan, interval)), Honourable()))
      {
        var r := rows[i];
        ghost var before := byPlan;
        if r.discount.Some? {
          if (r.plan, r.interval) !in byPlan {
            byPlan := byPlan[(r.plan, r.interval) := r];
          }
        }
        forall plan, interval
          ensures Entry(byPlan, plan, interval)
                  == Head(Filter(Filter(rows[..i + 1], For(plan, interval)), Honourable()))
        {
          AdvertisedAfter(rows, i, plan, interval);
          assert Entry(before, plan, interval) == Head(Filter(Filter(rows[..i], For(plan, interval)), Honourable()));
        }
      }
      assert rows[..|rows|] == rows;
    }
  }
}
