/** Subscription tiers, their limits, and the provider's price ids. */
module Plans {
  import opened Options

  /** A request may name any string; a name that is not a key of the plan table is `Unlisted`. */
  datatype Plan = Free | Pro | Business | Unlisted(name: string)

  datatype Interval = Month | Year

  datatype Cap = Finite(max: nat) | Unlimited {
    predicate Admits(count: nat) { Unlimited? || count <= max }
    predicate HasRoom(count: nat) { Unlimited? || count < max }
  }

  datatype Limits = Limits(seats: Cap, ownWorkspaces: Cap, joinWorkspaces: Cap)

  predicate Paid(plan: Plan) { plan.Pro? || plan.Business? }

  function Rank(plan: Plan): nat {
    match plan
    case Free => 0
    case Pro => 1
    case Business => 2
    case Unlisted(_) => 0
  }

  function PlanLimits(plan: Plan): Limits {
    match plan
    case Pro => Limits(Finite(5), Finite(3), Finite(3))
    case Business => Limits(Unlimited, Unlimited, Unlimited)
    case _ => Limits(Finite(2), Finite(1), Finite(1))
  }

  /** A higher tier never offers less room. */
  lemma LimitsGrowWithRank(low: Plan, high: Plan, count: nat)
    requires Rank(low) <= Rank(high)
    ensures PlanLimits(low).seats.Admits(count) ==> PlanLimits(high).seats.Admits(count)
    ensures PlanLimits(low).ownWorkspaces.Admits(count) ==> PlanLimits(high).ownWorkspaces.Admits(count)
    ensures PlanLimits(low).joinWorkspaces.Admits(count) ==> PlanLimits(high).joinWorkspaces.Admits(count)
  {
  }

  /** The monthly list price, in whole dollars. */
  function MonthlyPrice(plan: Plan): nat {
    match plan
    case Pro => 10
    case Business => 15
    case _ => 0
  }

  /** `Math.round(monthly * 0.8) * 12` for a year, with the rounding done exactly. */
  function IntervalPrice(monthly: nat, interval: Interval): nat {
    if interval.Year? then (8 * monthly + 5) / 10 * 12 else monthly
  }

  function ListPrice(plan: Plan, interval: Interval): nat {
    IntervalPrice(MonthlyPrice(plan), interval)
  }

  /** A year costs twelve times four fifths of a month, to the nearest dollar; only the paid plans cost anything. */
  lemma YearIsFourFifths(plan: Plan)
    ensures var month, year := ListPrice(plan, Month), ListPrice(plan, Year);
      && year % 12 == 0 && 8 * month - 5 < 10 * (year / 12) <= 8 * month + 5
      && (month == if plan == Pro then 10 else if plan == Business then 15 else 0)
  {
  }

  datatype Direction = Same | Upgrade | Downgrade

  function DirectionOf(curPlan: Plan, curInterval: Interval, newPlan: Plan, newInterval: Interval): Direction {
    if curPlan == newPlan && curInterval == newInterval then Same
    else if Rank(newPlan) > Rank(curPlan) then Upgrade
    else if Rank(newPlan) < Rank(curPlan) then Downgrade
    else if newInterval.Year? then Upgrade else Downgrade
  }

  /** Going back is the opposite direction, exactly when the two names are not two distinct unranked plans. */
  lemma DirectionReverses(p: Plan, i: Interval, q: Plan, j: Interval)
    ensures (DirectionOf(p, i, q, j).Upgrade? <==> DirectionOf(q, j, p, i).Downgrade?)
            && (DirectionOf(p, i, q, j).Downgrade? <==> DirectionOf(q, j, p, i).Upgrade?)
            <==> !(p != q && i == j && Rank(p) == 0 && Rank(q) == 0)
  {
  }

  /** The provider's price ids, one per paid tier and interval; absent when not configured. */
  datatype Catalog = Catalog(pro: Option<string>, proYear: Option<string>,
                             business: Option<string>, businessYear: Option<string>)
  {
    function PriceFor(plan: Plan, interval: Interval): Option<string> {
      match plan
      case Pro => if interval.Year? then proYear else pro
      case Business => if interval.Year? then businessYear else business
      case _ => None
    }

    /** The first plan, in table order, one of whose two prices is this id. */
    function PlanOf(price: Option<string>): Option<Plan> {
      if price.None? || price == Some("") then None
      else if pro == price || proYear == price then Some(Pro)
      else if business == price || businessYear == price then Some(Business)
      else None
    }

    function IntervalOf(price: Option<string>): Option<Interval> {
      if price.None? || price == Some("") then None
      else if proYear == price || businessYear == price then Some(Year)
      else Some(Month)
    }

    /** No two configured prices coincide, and none is the empty string. */
    predicate Distinct() {
      && pro != Some("") && proYear != Some("") && business != Some("") && businessYear != Some("")
      && (pro.Some? ==> pro != proYear && pro != business && pro != businessYear)
      && (proYear.Some? ==> proYear != business && proYear != businessYear)
      && (business.Some? ==> business != businessYear)
    }

    predicate Complete() {
      pro.Some? && proYear.Some? && business.Some? && businessYear.Some?
    }

    ghost predicate RoundTrips() {
      forall plan, interval :: PriceFor(plan, interval).Some? ==>
        && PlanOf(PriceFor(plan, interval)) == Some(plan)
        && IntervalOf(PriceFor(plan, interval)) == Some(interval)
    }
  }

  /** The two inverse lookups undo `PriceFor` exactly when the configured ids are distinct. */
  lemma PricesRoundTrip(c: Catalog)
    ensures c.RoundTrips() <==> c.Distinct()
  {
    if c.RoundTrips() {
      assert c.PriceFor(Pro, Month) == c.pro && c.PriceFor(Pro, Year) == c.proYear;
      assert c.PriceFor(Business, Month) == c.business && c.PriceFor(Business, Year) == c.businessYear;
    }
  }

  /** The converse lookup: the plan and interval found for a known id lead back to that id. */
  lemma LookupRoundTrips(c: Catalog, price: Option<string>)
    requires c.Distinct() && c.PlanOf(price).Some?
    ensures c.IntervalOf(price).Some?
    ensures c.PriceFor(c.PlanOf(price).value, c.IntervalOf(price).value) == price
  {
  }
}
