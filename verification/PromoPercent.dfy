/** How deep a percent-off promo code may go: the provider refuses a charge under 70 cents. */
module PromoPercent {
  import opened Options
  import opened Plans
  import opened Rounding

  const MIN_CHARGE := 0.7

  datatype Scope = AnyPlan | Only(plan: Plan)

  /** A price table in whole dollars; 0 is no price. */
  type Prices = (Plan, Interval) -> nat

  function PlansIn(scope: Scope): seq<Plan> {
    match scope
    case AnyPlan => [Pro, Business]
    case Only(plan) => [plan]
  }

  /** The code can apply to this plan and interval, at a price above zero. */
  predicate Applies(prices: Prices, scope: Scope, plan: Plan, interval: Interval) {
    plan in PlansIn(scope) && prices(plan, interval) > 0
  }

  /** A code for any plan is for Pro and Business, any other for its one plan. */
  lemma AppliesExactly(prices: Prices, scope: Scope, plan: Plan, interval: Interval)
    ensures Applies(prices, scope, plan, interval)
            <==> (scope == Only(plan) || (scope.AnyPlan? && (plan.Pro? || plan.Business?)))
                 && prices(plan, interval) > 0
  {
  }

  ghost predicate IsLowest(prices: Prices, scope: Scope, lowest: nat) {
    && (exists plan, interval :: Applies(prices, scope, plan, interval) && prices(plan, interval) == lowest)
    && (forall plan, interval :: Applies(prices, scope, plan, interval) ==> lowest <= prices(plan, interval))
  }

  function Min(s: seq<nat>): (r: nat)
    requires s != []
    ensures r in s && forall v :: v in s ==> r <= v
  {
    if |s| == 1 then s[0] else
    var rest := Min(s[1..]);
    assert s == [s[0]] + s[1..];
    if s[0] <= rest then s[0] else rest
  }

  /** A price that the code applies to. */
  ghost predicate IsPrice(prices: Prices, scope: Scope, v: nat) {
    exists plan, interval :: Applies(prices, scope, plan, interval) && prices(plan, interval) == v
  }

  /** The cheapest price the code can apply to. */
  method LowestApplicablePrice(prices: Prices, scope: Scope) returns (lowest: Option<nat>)
    ensures lowest.Some? ==> IsLowest(prices, scope, lowest.value)
    ensures lowest.None? <==> forall plan, interval :: !Applies(prices, scope, plan, interval)
  {
    var plans := PlansIn(scope);
    var found: seq<nat> := [];
    for i := 0 to |plans|
      invariant forall v :: v in found ==> IsPrice(prices, scope, v)
      invariant forall j, interval :: 0 <= j < i && prices(plans[j], interval) > 0 ==>
        prices(plans[j], interval) in found
    {
      var month, year := prices(plans[i], Month), prices(plans[i], Year);
      if month > 0 {
        assert Applies(prices, scope, plans[i], Month);
        found := found + [month];
      }
      if year > 0 {
        assert Applies(prices, scope, plans[i], Year);
        found := found + [year];
      }
      forall interval
        ensures prices(plans[i], interval) > 0 ==> prices(plans[i], interval) in found
      {
        assert interval == Month || interval == Year;
      }
    }
    lowest := None;
    if found != [] {
      lowest := Some(Min(found));
      assert IsPrice(prices, scope, lowest.value);
    }
  }

  /** What is left to charge of a price, in cents. */
  function Remaining(price: nat, percentOff: real): int {
    RoundHalfUp(price as real * (1.0 - percentOff / 100.0) * 100.0)
  }

  predicate BelowMinimumCharge(percentOff: real, lowest: Option<nat>) {
    lowest.Some? && Remaining(lowest.value, percentOff) as real / 100.0 < MIN_CHARGE
  }

  function MaxUsablePercent(lowest: Option<nat>): int
    requires lowest.Some? ==> lowest.value > 0
  {
    if lowest.None? then 100 else
    var most := ((1.0 - MIN_CHARGE / lowest.value as real) * 100.0).Floor;
    if most < 1 then 1 else most
  }

  lemma RemainingCents(price: nat, percentOff: real)
    ensures Remaining(price, percentOff) == RoundHalfUp(price as real * (100.0 - percentOff))
  {
    calc {
      price as real * (1.0 - percentOff / 100.0) * 100.0;
      price as real * ((1.0 - percentOff / 100.0) * 100.0);
      price as real * (100.0 - percentOff);
    }
  }

  /** Off a whole-dollar price a whole percentage leaves a whole number of cents. */
  lemma RemainingIsExact(price: nat, percentOff: int)
    ensures Remaining(price, percentOff as real) == price * (100 - percentOff)
  {
    RemainingCents(price, percentOff as real);
    var cents := price * (100 - percentOff);
    assert 100.0 - percentOff as real == (100 - percentOff) as real;
    assert price as real * (100 - percentOff) as real == cents as real;
    assert (cents as real + 0.5).Floor == cents;
  }

  /** Any percentage is refused exactly when less than 69.5 cents of the cheapest price would be left. */
  lemma RefusedExactlyBelow(price: nat, percentOff: real)
    ensures BelowMinimumCharge(percentOff, Some(price)) <==> price as real * (100.0 - percentOff) < 69.5
  {
    RemainingCents(price, percentOff);
  }

  lemma MaxIsExact(price: nat, percentOff: int)
    requires price > 0
    ensures percentOff <= MaxUsablePercent(Some(price)) <==> price * (100 - percentOff) >= 70
  {
  }

  /** What the loop over plans and intervals returns. */
  ghost predicate IsLowestApplicable(prices: Prices, scope: Scope, lowest: Option<nat>) {
    if lowest.Some? then IsLowest(prices, scope, lowest.value)
    else forall plan, interval :: !Applies(prices, scope, plan, interval)
  }

  /** A percentage is refused exactly when it is above the hint given to the admin. */
  lemma RefusedExactlyAboveMax(prices: Prices, scope: Scope, lowest: Option<nat>, percentOff: int)
    requires IsLowestApplicable(prices, scope, lowest) && 1 <= percentOff <= 100
    ensures BelowMinimumCharge(percentOff as real, lowest) <==> percentOff > MaxUsablePercent(lowest)
  {
    if lowest.Some? {
      RemainingIsExact(lowest.value, percentOff);
      MaxIsExact(lowest.value, percentOff);
    }
  }

  lemma DearerLeavesMore(cheap: nat, dear: nat, percentOff: int)
    requires cheap <= dear && percentOff <= 100
    ensures cheap * (100 - percentOff) <= dear * (100 - percentOff)
  {
    assert (dear - cheap) * (100 - percentOff) >= 0;
  }

  /** A percentage is accepted exactly when every price it can apply to keeps at least 70 cents. */
  lemma AcceptedExactlyWhenChargeable(prices: Prices, scope: Scope, lowest: Option<nat>, percentOff: int)
    requires IsLowestApplicable(prices, scope, lowest) && 1 <= percentOff <= 100
    ensures !BelowMinimumCharge(percentOff as real, lowest)
            <==> forall plan, interval :: Applies(prices, scope, plan, interval) ==>
                   Remaining(prices(plan, interval), percentOff as real) >= 70
  {
    if lowest.Some? {
      RemainingIsExact(lowest.value, percentOff);
      forall plan, interval | Applies(prices, scope, plan, interval)
        ensures Remaining(prices(plan, interval), percentOff as real) >= Remaining(lowest.value, percentOff as real)
      {
        RemainingIsExact(prices(plan, interval), percentOff);
        DearerLeavesMore(lowest.value, prices(plan, interval), percentOff);
      }
    }
  }
}
