/**
 Pricing rules: what a quantity costs at list, and after a free allowance. A
 tiered price is the sum, unit by unit, of the marginal price of each unit.
 */
module Pricing {
  import opened Calendar
  import opened Wrappers
  import opened Sums

  datatype PricingModel =
    | Free | PerRequest | Per1KRequests | PerMillionRequests | PerOperation | PerGb | PerGbMonth
    | PerActiveUser | PerConversion | FixedMonthly | FixedAnnual | Tiered

  datatype AllowancePeriod = DayPeriod | MonthPeriod | YearPeriod
  datatype AllowanceScope = DailyScope | MonthlyScope | ProjectScope | AccountScope | ServiceScope | SkuScope
  datatype FreeAllowance = FreeAllowance(quantity: nat, period: AllowancePeriod, scope: AllowanceScope)

  /** Units up to `upTo` (inclusive, cumulative; `None` unbounded) cost `unitPriceMicros` each. */
  datatype Tier = Tier(upTo: Option<nat>, unitPriceMicros: nat)

  datatype PricingRule = PricingRule(
    id: string, providerId: string, serviceId: string, billingSkuId: Option<string>,
    effectiveFrom: Date, effectiveTo: Option<Date>, currency: string, pricingModel: PricingModel,
    unitPriceMicros: Option<nat>, tiers: Option<seq<Tier>>, freeAllowance: Option<FreeAllowance>)

  datatype Estimate = Known(listMicros: nat, freeAdjustedMicros: nat) | Unknown

  function Min(a: int, b: int): int { if a <= b then a else b }

  // The tier loop

  function TierWidth(tier: Tier, remaining: nat, lower: nat): nat {
    match tier.upTo case None => remaining case Some(bound) => Max0(bound - lower)
  }

  /** What the loop adds for `tiers`, and what it leaves unpriced. */
  function TierWalk(tiers: seq<Tier>, remaining: nat, lower: nat): (nat, nat) {
    if tiers == [] || remaining == 0 then (0, remaining)
    else
      var inTier := Min(remaining, TierWidth(tiers[0], remaining, lower));
      var (total, left) := TierWalk(tiers[1..], remaining - inTier, tiers[0].upTo.GetOr(lower));
      (inTier * tiers[0].unitPriceMicros + total, left)
  }

  function TieredPrice(tiers: seq<Tier>, qty: nat): Option<nat> {
    var (total, left) := TierWalk(tiers, qty, 0);
    if left > 0 then None else Some(total)
  }

  /** Fewer units leave fewer unpriced. */
  lemma {:induction false} FewerLeft(tiers: seq<Tier>, a: nat, b: nat, lower: nat)
    requires a <= b
    ensures TierWalk(tiers, a, lower).1 <= TierWalk(tiers, b, lower).1
    decreases |tiers|
  {
    if tiers != [] && a > 0 {
      var inA, inB := Min(a, TierWidth(tiers[0], a, lower)), Min(b, TierWidth(tiers[0], b, lower));
      FewerLeft(tiers[1..], a - inA, b - inB, tiers[0].upTo.GetOr(lower));
    }
  }

  method PriceTiered(tiers: seq<Tier>, qty: nat) returns (price: Option<nat>)
    ensures price == TieredPrice(tiers, qty)
  {
    var remaining: nat, lower: nat, total: nat := qty, 0, 0;
    ghost var whole := TierWalk(tiers, qty, 0);
    var i := 0;
    while i < |tiers| && remaining > 0
      invariant 0 <= i <= |tiers|
      invariant var rest := TierWalk(tiers[i..], remaining, lower); whole == (total + rest.0, rest.1)
    {
      var tier := tiers[i];
      var width := match tier.upTo case None => remaining case Some(bound) => Max0(bound - lower);
      var inTier := Min(remaining, width);
      assert tiers[i..][1..] == tiers[i + 1..];
      total := total + inTier * tier.unitPriceMicros;
      remaining := remaining - inTier;
      lower := tier.upTo.GetOr(lower);
      i := i + 1;
    }
    price := if remaining > 0 then None else Some(total);
  }

  // List price

  /** `Math.ceil(n / d)` of a non-negative integer fraction. */
  function CeilNat(n: nat, d: nat): (r: nat)
    requires d > 0
    ensures n <= r * d < n + d
  {
    CeilBounds(n, d);
    CeilDiv(n, d)
  }

  lemma CeilBounds(n: int, d: int)
    requires n >= 0 && d > 0
    ensures CeilDiv(n, d) >= 0 && n <= CeilDiv(n, d) * d < n + d
  {
    CeilNearest(n, d);
    FactorNegative(d, -CeilDiv(n, d) - 1) by {
      assert d * (-CeilDiv(n, d) - 1) == -(CeilDiv(n, d) * d) - d;
    }
  }

  function PriceAtList(rule: PricingRule, qty: nat, share: nat): Option<nat>
    requires share > 0
  {
    match rule.pricingModel
    case Free => Some(0)
    case Tiered =>
      if rule.tiers.None? || rule.tiers.value == [] then None else TieredPrice(rule.tiers.value, qty)
    case FixedMonthly => rule.unitPriceMicros
    case FixedAnnual => rule.unitPriceMicros
    case Per1KRequests => LinearPrice(rule, qty, 1_000)
    case PerMillionRequests => LinearPrice(rule, qty, 1_000_000)
    case PerGbMonth => LinearPrice(rule, qty, share)
    case _ => LinearPrice(rule, qty, 1)
  }

  function LinearPrice(rule: PricingRule, qty: nat, per: nat): Option<nat>
    requires per > 0
  {
    if rule.unitPriceMicros.None? then None else Some(CeilNat(qty * rule.unitPriceMicros.value, per))
  }

  /** Only a storage month priced for one day is shared over its month. */
  function ShareOf(rule: PricingRule, day: Option<Date>): (n: nat)
    ensures n > 0
  {
    if rule.pricingModel.PerGbMonth? && day.Some? then DaysInMonth(day.value.InMonth()) else 1
  }

  function AllowanceLeft(a: FreeAllowance, share: nat, prior: int): nat { Max0(a.quantity * share - Max0(prior)) }

  /** The units past the free allowance, given what the period already consumed. */
  function Billable(rule: PricingRule, qty: nat, prior: int, day: Option<Date>): (n: nat)
    ensures n <= qty
  {
    match rule.freeAllowance
    case None => qty
    case Some(a) => Max0(qty - AllowanceLeft(a, ShareOf(rule, day), prior))
  }

  function EstimateMicros(rule: PricingRule, quantity: int, prior: int, day: Option<Date>): Estimate {
    var qty, share := Max0(quantity), ShareOf(rule, day);
    match PriceAtList(rule, qty, share)
    case None => Unknown
    case Some(priced) =>
      if rule.freeAllowance.None? then Known(priced, priced)
      else Known(priced, PriceAtList(rule, Billable(rule, qty, prior, day), share).GetOr(priced))
  }

  /** The first rule of the SKU in force on the day; the end date is exclusive. */
  function RuleInForce(rules: seq<PricingRule>, sku: string, day: Date): Option<PricingRule> {
    if rules == [] then None
    else if rules[0].billingSkuId == Some(sku) && Le(rules[0].effectiveFrom, day)
            && (rules[0].effectiveTo.None? || Lt(day, rules[0].effectiveTo.value))
    then Some(rules[0])
    else RuleInForce(rules[1..], sku, day)
  }

  lemma {:induction false} RuleInForceMember(rules: seq<PricingRule>, sku: string, day: Date)
    ensures RuleInForce(rules, sku, day).Some? ==> RuleInForce(rules, sku, day).value in rules
  {
    if rules != [] {
      RuleInForceMember(rules[1..], sku, day);
    }
  }

  /** The rule prices the SKU on that day; its end is exclusive. */
  predicate Applies(rule: PricingRule, sku: string, day: Date) {
    && rule.billingSkuId == Some(sku)
    && Le(rule.effectiveFrom, day) && (rule.effectiveTo.Some? ==> Lt(day, rule.effectiveTo.value))
  }

  /** What is found applies and nothing before it does; nothing is found when nothing applies. */
  lemma {:induction false} RuleInForceExact(rules: seq<PricingRule>, sku: string, day: Date) returns (i: nat)
    ensures i <= |rules| && forall j :: 0 <= j < i ==> !Applies(rules[j], sku, day)
    ensures i < |rules| ==> Applies(rules[i], sku, day) && RuleInForce(rules, sku, day) == Some(rules[i])
    ensures i == |rules| ==> RuleInForce(rules, sku, day) == None
  {
    if rules == [] || Applies(rules[0], sku, day) {
      i := 0;
    } else {
      var rest := RuleInForceExact(rules[1..], sku, day);
      i := rest + 1;
    }
  }

  // The price of a quantity

  /** `amount` is the price of `q` units at so much per `per` units, rounded up to a micro. */
  predicate RoundedUp(rule: PricingRule, q: nat, per: nat, amount: nat) {
    rule.unitPriceMicros.Some?
    && q * rule.unitPriceMicros.value <= per * amount < q * rule.unitPriceMicros.value + per
  }

  /** `amount` is the list price of `q` units, a storage month shared over `share` days. */
  predicate ListPrice(rule: PricingRule, q: nat, share: nat, amount: nat) {
    match rule.pricingModel
    case Free => amount == 0
    case Tiered => rule.tiers.Some? && rule.tiers.value != [] && TieredPrice(rule.tiers.value, q) == Some(amount)
    case FixedMonthly => rule.unitPriceMicros == Some(amount)
    case FixedAnnual => rule.unitPriceMicros == Some(amount)
    case Per1KRequests => RoundedUp(rule, q, 1_000, amount)
    case PerMillionRequests => RoundedUp(rule, q, 1_000_000, amount)
    case PerGbMonth => RoundedUp(rule, q, share, amount)
    case _ => RoundedUp(rule, q, 1, amount)
  }

  /** The rule knows what `q` units cost. */
  predicate Priceable(rule: PricingRule, q: nat) {
    match rule.pricingModel
    case Free => true
    case Tiered => rule.tiers.Some? && rule.tiers.value != [] && TieredPrice(rule.tiers.value, q).Some?
    case _ => rule.unitPriceMicros.Some?
  }

  lemma LinearRoundsUp(rule: PricingRule, q: nat, per: nat)
    requires per > 0 && rule.unitPriceMicros.Some?
    ensures LinearPrice(rule, q, per).Some? && RoundedUp(rule, q, per, LinearPrice(rule, q, per).value)
  {
  }

  lemma ListPriceExact(rule: PricingRule, q: nat, share: nat)
    requires share > 0
    ensures var price := PriceAtList(rule, q, share);
      && (price.Some? <==> Priceable(rule, q))
      && (price.Some? ==> ListPrice(rule, q, share, price.value))
  {
    hide RoundedUp, TieredPrice, LinearPrice;
    if rule.unitPriceMicros.Some? {
      LinearRoundsUp(rule, q, 1_000);
      LinearRoundsUp(rule, q, 1_000_000);
      LinearRoundsUp(rule, q, share);
      LinearRoundsUp(rule, q, 1);
    } else {
      LinearUnknown(rule, q);
    }
  }

  lemma LinearUnknown(rule: PricingRule, q: nat)
    requires rule.unitPriceMicros.None?
    ensures forall per: nat :: per > 0 ==> LinearPrice(rule, q, per).None?
  {
  }

  lemma FewerPriceable(rule: PricingRule, a: nat, b: nat)
    requires a <= b && Priceable(rule, b)
    ensures Priceable(rule, a)
  {
    hide TierWalk;
    if rule.pricingModel.Tiered? {
      FewerLeft(rule.tiers.value, a, b, 0);
    }
  }

  // Tiers as marginal prices

  /** Cumulative bounds rise, and only the last tier is unbounded. */
  predicate WellFormed(tiers: seq<Tier>, lower: nat) {
    tiers == [] ||
    (match tiers[0].upTo
     case None => |tiers| == 1
     case Some(bound) => lower < bound && WellFormed(tiers[1..], bound))
  }

  predicate NonIncreasing(tiers: seq<Tier>) {
    forall i, j :: 0 <= i < j < |tiers| ==> tiers[j].unitPriceMicros <= tiers[i].unitPriceMicros
  }

  /** The tier price of the unit with `unit` units before it; 0 past the last bound. */
  function Marginal(tiers: seq<Tier>, unit: nat): nat {
    if tiers == [] then 0
    else if tiers[0].upTo.None? || unit < tiers[0].upTo.value then tiers[0].unitPriceMicros
    else Marginal(tiers[1..], unit)
  }

  predicate Covers(tiers: seq<Tier>, unit: nat) {
    tiers != [] && (tiers[0].upTo.None? || unit < tiers[0].upTo.value || Covers(tiers[1..], unit))
  }

  /** The marginal prices of units `from .. from + count`, one by one. */
  function UnitByUnit(tiers: seq<Tier>, from: nat, count: nat): nat {
    if count == 0 then 0 else UnitByUnit(tiers, from, count - 1) + Marginal(tiers, from + count - 1)
  }

  lemma {:induction false} UnitsSplit(tiers: seq<Tier>, from: nat, a: nat, b: nat)
    ensures UnitByUnit(tiers, from, a + b) == UnitByUnit(tiers, from, a) + UnitByUnit(tiers, from + a, b)
  {
    if b > 0 {
      UnitsSplit(tiers, from, a, b - 1);
    }
  }

  lemma {:induction false} UnitsInFirst(tiers: seq<Tier>, from: nat, count: nat)
    requires tiers != [] && (tiers[0].upTo.None? || from + count <= tiers[0].upTo.value)
    ensures UnitByUnit(tiers, from, count) == count * tiers[0].unitPriceMicros
  {
    if count > 0 {
      UnitsInFirst(tiers, from, count - 1);
    }
  }

  lemma {:induction false} UnitsPastFirst(tiers: seq<Tier>, from: nat, count: nat)
    requires tiers != [] && tiers[0].upTo.Some? && tiers[0].upTo.value <= from
    ensures UnitByUnit(tiers, from, count) == UnitByUnit(tiers[1..], from, count)
  {
    if count > 0 {
      UnitsPastFirst(tiers, from, count - 1);
    }
  }

  /** The band loop charges exactly the marginal price of every unit it covers. */
  lemma {:induction false} TierWalkExact(tiers: seq<Tier>, remaining: nat, lower: nat)
    requires WellFormed(tiers, lower)
    ensures var (total, left) := TierWalk(tiers, remaining, lower);
            && left <= remaining
            && total == UnitByUnit(tiers, lower, remaining - left)
            && (left == 0 <==> remaining == 0 || Covers(tiers, lower + remaining - 1))
    decreases |tiers|
  {
    if tiers != [] && remaining > 0 {
      var inTier := Min(remaining, TierWidth(tiers[0], remaining, lower));
      if tiers[0].upTo.None? {
        UnitsInFirst(tiers, lower, remaining);
        assert TierWalk(tiers[1..], 0, lower) == (0, 0);
      } else {
        var bound := tiers[0].upTo.value;
        TierWalkExact(tiers[1..], remaining - inTier, bound);
        var left := TierWalk(tiers[1..], remaining - inTier, bound).1;
        UnitsInFirst(tiers, lower, inTier);
        if inTier < remaining {
          assert lower + inTier == bound;
          UnitsPastFirst(tiers, bound, remaining - inTier - left);
          UnitsSplit(tiers, lower, inTier, remaining - inTier - left);
        }
      }
    }
  }

  /** A tiered price is known exactly up to the last bound, and is then the unit-by-unit price. */
  lemma TieredIsUnitByUnit(tiers: seq<Tier>, qty: nat)
    requires WellFormed(tiers, 0)
    ensures TieredPrice(tiers, qty) ==
            if qty == 0 || Covers(tiers, qty - 1) then Some(UnitByUnit(tiers, 0, qty)) else None
  {
    TierWalkExact(tiers, qty, 0);
  }

  lemma {:induction false} MarginalFalls(tiers: seq<Tier>, a: nat, b: nat)
    requires NonIncreasing(tiers) && a <= b && Covers(tiers, b)
    ensures Marginal(tiers, b) <= Marginal(tiers, a) <= tiers[0].unitPriceMicros
    ensures Covers(tiers, a)
  {
    if tiers[0].upTo.Some? && tiers[0].upTo.value <= a {
      MarginalFalls(tiers[1..], a, b);
    } else if tiers[0].upTo.Some? && tiers[0].upTo.value <= b {
      MarginalFalls(tiers[1..], b, b);
    }
  }

  /** Later units cost no more than the same number of first units. */
  lemma {:induction false} LaterUnitsCheaper(tiers: seq<Tier>, from: nat, count: nat)
    requires NonIncreasing(tiers) && (count == 0 || Covers(tiers, from + count - 1))
    ensures UnitByUnit(tiers, from, count) <= UnitByUnit(tiers, 0, count)
  {
    if count > 0 {
      MarginalFalls(tiers, count - 1, from + count - 1);
      if count > 1 {
        MarginalFalls(tiers, from + count - 2, from + count - 1);
      }
      LaterUnitsCheaper(tiers, from, count - 1);
    }
  }

  lemma {:induction false} AtMostFirstBand(tiers: seq<Tier>, count: nat)
    requires tiers != [] && NonIncreasing(tiers) && (count == 0 || Covers(tiers, count - 1))
    ensures UnitByUnit(tiers, 0, count) <= count * tiers[0].unitPriceMicros
  {
    hide NonIncreasing, Covers, Marginal;
    if count > 0 {
      MarginalFalls(tiers, count - 1, count - 1);
      if count > 1 {
        MarginalFalls(tiers, count - 2, count - 1);
      }
      AtMostFirstBand(tiers, count - 1);
      Distributes(count - 1, 1, tiers[0].unitPriceMicros);
    }
  }

  function PriceOrZero(tiers: seq<Tier>): nat -> int { (q: nat) => TieredPrice(tiers, q).GetOr(0) }

  /** The total of a split into days. */
  function TotalUnits(days: seq<nat>): nat {
    if days == [] then 0 else days[0] + TotalUnits(days[1..])
  }

  /**
   Pricing day by day from the first band: never below the period's marginal price, never above its first-band
   price.
   */
  lemma {:induction false} DailyPriceIsCeiling(tiers: seq<Tier>, days: seq<nat>)
    requires WellFormed(tiers, 0) && NonIncreasing(tiers) && tiers != []
    requires TieredPrice(tiers, TotalUnits(days)).Some?
    ensures forall q :: q in days ==> TieredPrice(tiers, q).Some?
    ensures TieredPrice(tiers, TotalUnits(days)).value <= SumBy(days, PriceOrZero(tiers))
            <= TotalUnits(days) * tiers[0].unitPriceMicros
  {
    hide TieredPrice, UnitByUnit, WellFormed, NonIncreasing, Covers;
    if days == [] {
      NoUnits(tiers);
    } else {
      var first, rest := days[0], TotalUnits(days[1..]);
      FewerUnitsKnown(tiers, first, TotalUnits(days));
      FewerUnitsKnown(tiers, rest, TotalUnits(days));
      DailyPriceIsCeiling(tiers, days[1..]);
      FirstDayCosts(tiers, first, rest);
      Distributes(first, rest, tiers[0].unitPriceMicros);
      assert forall q :: q in days ==> q == first || q in days[1..];
    }
  }

  lemma NoUnits(tiers: seq<Tier>)
    requires WellFormed(tiers, 0)
    ensures TieredPrice(tiers, 0) == Some(0)
  {
    TieredIsUnitByUnit(tiers, 0);
  }

  lemma Distributes(a: nat, b: nat, price: nat)
    ensures (a + b) * price == a * price + b * price
  {
  }

  /** Pricing `first` units and then `rest` from the first band again. */
  lemma FirstDayCosts(tiers: seq<Tier>, first: nat, rest: nat)
    requires WellFormed(tiers, 0) && NonIncreasing(tiers) && tiers != []
    requires TieredPrice(tiers, first + rest).Some?
    ensures TieredPrice(tiers, first).Some? && TieredPrice(tiers, rest).Some?
    ensures TieredPrice(tiers, first + rest).value <= TieredPrice(tiers, first).value + TieredPrice(tiers, rest).value
    ensures TieredPrice(tiers, first).value <= first * tiers[0].unitPriceMicros
  {
    hide TieredPrice, UnitByUnit, WellFormed, NonIncreasing, Covers;
    FewerUnitsKnown(tiers, first, first + rest);
    FewerUnitsKnown(tiers, rest, first + rest);
    TieredIsUnitByUnit(tiers, first + rest);
    TieredIsUnitByUnit(tiers, first);
    TieredIsUnitByUnit(tiers, rest);
    UnitsSplit(tiers, 0, first, rest);
    LaterUnitsCheaper(tiers, first, rest);
    AtMostFirstBand(tiers, first);
  }

  lemma FewerUnitsKnown(tiers: seq<Tier>, a: nat, b: nat)
    requires WellFormed(tiers, 0) && NonIncreasing(tiers) && a <= b && TieredPrice(tiers, b).Some?
    ensures TieredPrice(tiers, a).Some?
  {
    TieredIsUnitByUnit(tiers, a);
    TieredIsUnitByUnit(tiers, b);
    if 0 < a {
      MarginalFalls(tiers, a - 1, b - 1);
    }
  }
}
