/**
 The hard provider budget: reservations that precede a call, are never refunded,
 and hold three daily ceilings per scope. One reservation is one locked transaction.
 */
module ProviderBudget {
  import opened Calendar
  import opened Wrappers
  import opened Pricing
  import opened Sums

  /** None where the scope has no such ceiling; a missing operation is not configured either. */
  datatype Limits = Limits(maxCallsPerDay: Option<int>, maxListCostMicrosPerDay: Option<int>,
      maxUnitsByOperation: map<string, int>)

  datatype Request = Request(day: Date, scope: string, operation: string, calls: int, units: int)

  datatype Refusal = NotConfigured | OperationNotConfigured | PriceUnknown | CallCeiling | UnitCeiling | CostCeiling

  datatype Outcome =
    | Reserved(calls: nat, units: nat, costMicros: nat, scopeCalls: int, scopeCostMicros: int, operationUnits: int)
    | Refused(reason: Refusal)

  datatype BudgetRow = BudgetRow(day: Date, scope: string, operation: string, calls: nat, units: nat, costMicros: nat)

  /** The rule in force for an operation on a day. */
  type PriceList = (string, Date) -> Option<PricingRule>

  /** List-price cost of `units`; None when the price is unknown, which is not a price of zero. */
  function ListCostMicros(prices: PriceList, operation: string, day: Date, units: int): Option<nat> {
    match prices(operation, day)
    case None => None
    case Some(rule) =>
      if units <= 0 then Some(0)
      else match EstimateMicros(rule, units, 0, None)
        case Known(list, _) => Some(list)
        case Unknown => None
  }

  // The table

  predicate SameKey(a: BudgetRow, b: BudgetRow) {
    a.day == b.day && a.scope == b.scope && a.operation == b.operation
  }

  function Plus(a: BudgetRow, b: BudgetRow): BudgetRow {
    a.(calls := a.calls + b.calls, units := a.units + b.units, costMicros := a.costMicros + b.costMicros)
  }

  function Upsert(rows: seq<BudgetRow>, r: BudgetRow): seq<BudgetRow> {
    if rows == [] then [r]
    else if SameKey(rows[0], r) then [Plus(rows[0], r)] + rows[1..]
    else [rows[0]] + Upsert(rows[1..], r)
  }

  function CallsIn(day: Date, scope: string): BudgetRow -> int {
    (r: BudgetRow) => if r.day == day && r.scope == scope then r.calls else 0
  }

  function CostIn(day: Date, scope: string): BudgetRow -> int {
    (r: BudgetRow) => if r.day == day && r.scope == scope then r.costMicros else 0
  }

  function UnitsIn(day: Date, scope: string, operation: string): BudgetRow -> int {
    (r: BudgetRow) => if r.day == day && r.scope == scope && r.operation == operation then r.units else 0
  }

  // One reservation

  function Wanted(prices: PriceList, q: Request): BudgetRow {
    BudgetRow(q.day, q.scope, q.operation, Max0(q.calls), Max0(q.units),
              ListCostMicros(prices, q.operation, q.day, Max0(q.units)).GetOr(0))
  }

  function Decide(rows: seq<BudgetRow>, q: Request, limits: Limits, prices: PriceList): Outcome {
    var calls, units := Max0(q.calls), Max0(q.units);
    if limits.maxCallsPerDay.None? || limits.maxListCostMicrosPerDay.None? then Refused(NotConfigured)
    else if q.operation !in limits.maxUnitsByOperation then Refused(OperationNotConfigured)
    else match ListCostMicros(prices, q.operation, q.day, units)
      case None => Refused(PriceUnknown)
      case Some(cost) =>
        var usedCalls, usedCost := SumBy(rows, CallsIn(q.day, q.scope)), SumBy(rows, CostIn(q.day, q.scope));
        var usedUnits := SumBy(rows, UnitsIn(q.day, q.scope, q.operation));
        if usedCalls + calls > limits.maxCallsPerDay.value then Refused(CallCeiling)
        else if usedUnits + units > limits.maxUnitsByOperation[q.operation] then Refused(UnitCeiling)
        else if usedCost + cost > limits.maxListCostMicrosPerDay.value then Refused(CostCeiling)
        else Reserved(calls, units, cost, usedCalls + calls, usedCost + cost, usedUnits + units)
  }

  function Reserve(rows: seq<BudgetRow>, q: Request, limits: Limits, prices: PriceList): seq<BudgetRow> {
    if Decide(rows, q, limits, prices).Reserved? then Upsert(rows, Wanted(prices, q)) else rows
  }

  class ProviderBudgetService {
    var rows: seq<BudgetRow>

    constructor ()
      ensures rows == []
    {
      rows := [];
    }

    method ReserveCall(q: Request, limits: Limits, prices: PriceList) returns (outcome: Outcome)
      modifies this
      ensures outcome == Decide(old(rows), q, limits, prices)
      ensures rows == Reserve(old(rows), q, limits, prices)
    {
      var calls, units := Max0(q.calls), Max0(q.units);
      if limits.maxCallsPerDay.None? || limits.maxListCostMicrosPerDay.None? {
        return Refused(NotConfigured);
      }
      if q.operation !in limits.maxUnitsByOperation {
        return Refused(OperationNotConfigured);
      }
      var cost := ListCostMicros(prices, q.operation, q.day, units);
      if cost.None? {
        return Refused(PriceUnknown);
      }
      var usedCalls := SumBy(rows, CallsIn(q.day, q.scope));
      var usedCost := SumBy(rows, CostIn(q.day, q.scope));
      var usedUnits := SumBy(rows, UnitsIn(q.day, q.scope, q.operation));
      if usedCalls + calls > limits.maxCallsPerDay.value {
        return Refused(CallCeiling);
      }
      if usedUnits + units > limits.maxUnitsByOperation[q.operation] {
        return Refused(UnitCeiling);
      }
      if usedCost + cost.value > limits.maxListCostMicrosPerDay.value {
        return Refused(CostCeiling);
      }
      rows := Upsert(rows, BudgetRow(q.day, q.scope, q.operation, calls, units, cost.value));
      return Reserved(calls, units, cost.value, usedCalls + calls, usedCost + cost.value, usedUnits + units);
    }
  }

  // What an upsert does to a sum

  ghost predicate Additive(f: BudgetRow -> int) {
    forall a, b :: SameKey(a, b) ==> f(Plus(a, b)) == f(a) + f(b)
  }

  lemma {:induction false} UpsertSum(rows: seq<BudgetRow>, r: BudgetRow, f: BudgetRow -> int)
    requires Additive(f)
    ensures SumBy(Upsert(rows, r), f) == SumBy(rows, f) + f(r)
  {
    if rows != [] {
      UpsertSum(rows[1..], r, f);
      var rest := if SameKey(rows[0], r) then rows[1..] else Upsert(rows[1..], r);
      var head := if SameKey(rows[0], r) then Plus(rows[0], r) else rows[0];
      assert ([head] + rest)[1..] == rest;
      assert SumBy([head] + rest, f) == f(head) + SumBy(rest, f);
    } else {
      assert SumBy([r], f) == f(r) + SumBy([r][1..], f);
    }
  }

  lemma SumsAdditive(day: Date, scope: string, operation: string)
    ensures Additive(CallsIn(day, scope)) && Additive(CostIn(day, scope)) && Additive(UnitsIn(day, scope, operation))
  {
  }

  // Over every sequence of reservations

  /** Ceilings fixed per scope. */
  function Reservations(reqs: seq<Request>, limitsOf: string -> Limits, prices: PriceList): seq<BudgetRow> {
    if reqs == [] then []
    else
      var last := reqs[|reqs| - 1];
      Reserve(Reservations(reqs[..|reqs| - 1], limitsOf, prices), last, limitsOf(last.scope), prices)
  }

  /** A scope-day within its ceilings; a scope or operation that is not configured has reserved nothing. */
  predicate Within(rows: seq<BudgetRow>, day: Date, scope: string, operation: string, limits: Limits) {
    var calls, cost := SumBy(rows, CallsIn(day, scope)), SumBy(rows, CostIn(day, scope));
    var units := SumBy(rows, UnitsIn(day, scope, operation));
    if limits.maxCallsPerDay.None? || limits.maxListCostMicrosPerDay.None? then calls == cost == units == 0
    else
      && calls <= Max0(limits.maxCallsPerDay.value)
      && cost <= Max0(limits.maxListCostMicrosPerDay.value)
      && if operation !in limits.maxUnitsByOperation then units == 0
         else units <= Max0(limits.maxUnitsByOperation[operation])
  }

  lemma ReserveSums(
      rows: seq<BudgetRow>, q: Request, limits: Limits, prices: PriceList, day: Date, scope: string,
      operation: string)
    ensures var after, granted, want := Reserve(rows, q, limits, prices), Decide(rows, q, limits, prices).Reserved?,
        Wanted(prices, q);
      var here := granted && q.day == day && q.scope == scope;
      && SumBy(after, CallsIn(day, scope)) == SumBy(rows, CallsIn(day, scope)) + (if here then want.calls else 0)
      && SumBy(after, CostIn(day, scope)) == SumBy(rows, CostIn(day, scope)) + (if here then want.costMicros else 0)
      && SumBy(after, UnitsIn(day, scope, operation)) == SumBy(rows, UnitsIn(day, scope, operation))
                                                         + (if here && q.operation == operation then want.units else 0)
  {
    hide Upsert, SumBy, ListCostMicros, Decide;
    SumsAdditive(day, scope, operation);
    var want := Wanted(prices, q);
    UpsertSum(rows, want, CallsIn(day, scope));
    UpsertSum(rows, want, CostIn(day, scope));
    UpsertSum(rows, want, UnitsIn(day, scope, operation));
  }

  /**
   A reservation is granted exactly when every ceiling is configured, the price is known and the table still
   fits afterwards.
   */
  lemma GrantedExactly(rows: seq<BudgetRow>, q: Request, limits: Limits, prices: PriceList)
    ensures Decide(rows, q, limits, prices).Reserved? <==>
      && limits.maxCallsPerDay.Some? && limits.maxListCostMicrosPerDay.Some?
      && q.operation in limits.maxUnitsByOperation
      && ListCostMicros(prices, q.operation, q.day, Max0(q.units)).Some?
      && var after := Upsert(rows, Wanted(prices, q));
         && SumBy(after, CallsIn(q.day, q.scope)) <= limits.maxCallsPerDay.value
         && SumBy(after, UnitsIn(q.day, q.scope, q.operation)) <= limits.maxUnitsByOperation[q.operation]
         && SumBy(after, CostIn(q.day, q.scope)) <= limits.maxListCostMicrosPerDay.value
  {
    hide Upsert, SumBy, ListCostMicros;
    SumsAdditive(q.day, q.scope, q.operation);
    var want := Wanted(prices, q);
    UpsertSum(rows, want, CallsIn(q.day, q.scope));
    UpsertSum(rows, want, CostIn(q.day, q.scope));
    UpsertSum(rows, want, UnitsIn(q.day, q.scope, q.operation));
  }

  /** What the scope, and the operation in it, would have reserved on the day with this request. */
  function CallsWith(rows: seq<BudgetRow>, q: Request): int {
    SumBy(rows, CallsIn(q.day, q.scope)) + if q.calls > 0 then q.calls else 0
  }

  function UnitsWith(rows: seq<BudgetRow>, q: Request): int {
    SumBy(rows, UnitsIn(q.day, q.scope, q.operation)) + if q.units > 0 then q.units else 0
  }

  function CostWith(rows: seq<BudgetRow>, q: Request, prices: PriceList): int {
    SumBy(rows, CostIn(q.day, q.scope)) + ListCostMicros(prices, q.operation, q.day, q.units).GetOr(0)
  }

  /** Which refusal is named: the first that applies, of configuration, price, calls, units and cost, in that order. */
  lemma RefusedExactly(rows: seq<BudgetRow>, q: Request, limits: Limits, prices: PriceList)
    ensures var answer := Decide(rows, q, limits, prices);
      var configured := limits.maxCallsPerDay.Some? && limits.maxListCostMicrosPerDay.Some?;
      var known := configured && q.operation in limits.maxUnitsByOperation;
      var priced := known && ListCostMicros(prices, q.operation, q.day, q.units).Some?;
      var called := priced && CallsWith(rows, q) <= limits.maxCallsPerDay.value;
      var counted := called && UnitsWith(rows, q) <= limits.maxUnitsByOperation[q.operation];
      && (answer == Refused(NotConfigured) <==> !configured)
      && (answer == Refused(OperationNotConfigured) <==> configured && !known)
      && (answer == Refused(PriceUnknown) <==> known && !priced)
      && (answer == Refused(CallCeiling) <==> priced && !called)
      && (answer == Refused(UnitCeiling) <==> called && !counted)
      && (answer == Refused(CostCeiling) <==>
            counted && CostWith(rows, q, prices) > limits.maxListCostMicrosPerDay.value)
      && (answer.Reserved? ==>
            && answer.calls == (if q.calls > 0 then q.calls else 0)
            && answer.units == (if q.units > 0 then q.units else 0)
            && ListCostMicros(prices, q.operation, q.day, q.units) == Some(answer.costMicros)
            && answer.scopeCalls == CallsWith(rows, q) && answer.scopeCostMicros == CostWith(rows, q, prices)
            && answer.operationUnits == UnitsWith(rows, q))
  {
    hide SumBy, EstimateMicros;
  }

  /** Whatever is asked for, in whatever order: no scope-day ever passes a ceiling. */
  lemma {:induction false} CeilingsHold(
      reqs: seq<Request>, limitsOf: string -> Limits, prices: PriceList, day: Date, scope: string,
      operation: string)
    ensures Within(Reservations(reqs, limitsOf, prices), day, scope, operation, limitsOf(scope))
  {
    if reqs != [] {
      hide SumBy, Reserve, ListCostMicros, Upsert;
      var n := |reqs| - 1;
      var before := Reservations(reqs[..n], limitsOf, prices);
      CeilingsHold(reqs[..n], limitsOf, prices, day, scope, operation);
      ReserveSums(before, reqs[n], limitsOf(reqs[n].scope), prices, day, scope, operation);
    }
  }

  /** A refusal changes nothing, and a grant takes nothing back. */
  lemma TotalsNeverFall(
      rows: seq<BudgetRow>, q: Request, limits: Limits, prices: PriceList, day: Date, scope: string,
      operation: string)
    ensures Decide(rows, q, limits, prices).Refused? ==> Reserve(rows, q, limits, prices) == rows
    ensures SumBy(rows, CallsIn(day, scope)) <= SumBy(Reserve(rows, q, limits, prices), CallsIn(day, scope))
    ensures SumBy(rows, CostIn(day, scope)) <= SumBy(Reserve(rows, q, limits, prices), CostIn(day, scope))
    ensures SumBy(rows, UnitsIn(day, scope, operation)) <=
        SumBy(Reserve(rows, q, limits, prices), UnitsIn(day, scope, operation))
  {
    hide SumBy, ListCostMicros, Upsert, Decide, Reserve;
    ReserveSums(rows, q, limits, prices, day, scope, operation);
    if Decide(rows, q, limits, prices).Refused? {
      RefusalKeepsRows(rows, q, limits, prices);
    }
  }

  lemma RefusalKeepsRows(rows: seq<BudgetRow>, q: Request, limits: Limits, prices: PriceList)
    requires Decide(rows, q, limits, prices).Refused?
    ensures Reserve(rows, q, limits, prices) == rows
  {
  }

  // What was reserved against what it lists at

  /** A quantity whose price is known costs no more at once than in two purchases, whose prices are then known too. */
  ghost predicate Subadditive(prices: PriceList, operation: string, day: Date) {
    forall a: nat, b: nat :: SplitCostsMore(prices, operation, day, a, b)
  }

  predicate SplitCostsMore(prices: PriceList, operation: string, day: Date, a: nat, b: nat) {
    var together := ListCostMicros(prices, operation, day, a + b);
    var one, other := ListCostMicros(prices, operation, day, a), ListCostMicros(prices, operation, day, b);
    together.Some? ==> one.Some? && other.Some? && together.value <= one.value + other.value
  }

  /** The row's cost covers the list price of its units. */
  predicate Costed(prices: PriceList, r: BudgetRow) {
    var list := ListCostMicros(prices, r.operation, r.day, r.units);
    list.Some? ==> list.value <= r.costMicros
  }

  lemma CeilSplits(a: nat, b: nat, price: nat, d: nat)
    requires d > 0
    ensures CeilNat((a + b) * price, d) <= CeilNat(a * price, d) + CeilNat(b * price, d)
  {
    var x, y, z := CeilNat(a * price, d), CeilNat(b * price, d), CeilNat((a + b) * price, d);
    assert (a + b) * price == a * price + b * price;
    assert (x + y) * d == x * d + y * d;
    assert (x + y + 1) * d == (x + y) * d + d;
    FewerTimes(z, x + y + 1, d);
  }

  lemma FewerTimes(m: nat, n: nat, d: nat)
    requires d > 0 && m * d < n * d
    ensures m < n
  {
    assert d * (m - n) == m * d - n * d;
    FactorNegative(d, m - n);
  }

  lemma LinearSplits(rule: PricingRule, a: nat, b: nat, per: nat)
    requires per > 0 && rule.unitPriceMicros.Some?
    ensures LinearPrice(rule, a + b, per).value <= LinearPrice(rule, a, per).value + LinearPrice(rule, b, per).value
  {
    CeilSplits(a, b, rule.unitPriceMicros.value, per);
  }

  lemma PriceSplits(rule: PricingRule, a: nat, b: nat)
    requires rule.pricingModel.Tiered? && rule.tiers.Some? ==>
        WellFormed(rule.tiers.value, 0) && NonIncreasing(rule.tiers.value)
    requires PriceAtList(rule, a + b, 1).Some?
    ensures PriceAtList(rule, a, 1).Some? && PriceAtList(rule, b, 1).Some?
    ensures PriceAtList(rule, a + b, 1).value <= PriceAtList(rule, a, 1).value + PriceAtList(rule, b, 1).value
  {
    hide CeilNat, TieredPrice, LinearPrice, WellFormed, NonIncreasing;
    match rule.pricingModel
    case Free =>
    case Tiered => FirstDayCosts(rule.tiers.value, a, b);
    case FixedMonthly =>
    case FixedAnnual =>
    case Per1KRequests => UnitPriced(rule, a, b, 1_000); LinearSplits(rule, a, b, 1_000);
    case PerMillionRequests => UnitPriced(rule, a, b, 1_000_000); LinearSplits(rule, a, b, 1_000_000);
    case PerGbMonth => UnitPriced(rule, a, b, 1); LinearSplits(rule, a, b, 1);
    case _ => UnitPriced(rule, a, b, 1); LinearSplits(rule, a, b, 1);
  }

  lemma UnitPriced(rule: PricingRule, a: nat, b: nat, per: nat)
    requires per > 0
    ensures LinearPrice(rule, a, per).Some? == LinearPrice(rule, b, per).Some? ==
        LinearPrice(rule, a + b, per).Some? == rule.unitPriceMicros.Some?
  {
  }

  lemma ListIsPriceAtList(prices: PriceList, operation: string, day: Date, units: nat, rule: PricingRule)
    requires prices(operation, day) == Some(rule) && units > 0
    ensures ListCostMicros(prices, operation, day, units) == PriceAtList(rule, units, 1)
  {
    hide PriceAtList, Billable;
  }

  /** Every price but a tiered one that rises is of that kind. */
  lemma RulesAreSubadditive(prices: PriceList, operation: string, day: Date)
    requires var rule := prices(operation, day);
      rule.Some? && rule.value.pricingModel.Tiered? && rule.value.tiers.Some? ==>
        WellFormed(rule.value.tiers.value, 0) && NonIncreasing(rule.value.tiers.value)
    ensures Subadditive(prices, operation, day)
  {
    hide PriceAtList, WellFormed, NonIncreasing, EstimateMicros;
    forall a: nat, b: nat ensures SplitCostsMore(prices, operation, day, a, b) {
      var rule := prices(operation, day);
      if rule.Some? && a > 0 && b > 0 {
        ListIsPriceAtList(prices, operation, day, a, rule.value);
        ListIsPriceAtList(prices, operation, day, b, rule.value);
        ListIsPriceAtList(prices, operation, day, a + b, rule.value);
        var p, q, r := PriceAtList(rule.value, a, 1), PriceAtList(rule.value, b, 1), PriceAtList(rule.value, a + b, 1);
        if r.Some? {
          PriceSplits(rule.value, a, b);
        }
      }
    }
  }

  /**
   Rounded up reservation by reservation, a row whose price splits so never costs less than the list price of
   all its units.
   */
  lemma {:induction false} ReservedCoversListPrice(reqs: seq<Request>, limitsOf: string -> Limits, prices: PriceList)
    ensures forall r :: r in Reservations(reqs, limitsOf, prices) && Subadditive(prices, r.operation, r.day) ==>
        Costed(prices, r)
  {
    if reqs != [] {
      hide Subadditive, Costed, Upsert;
      var n := |reqs| - 1;
      var before, q := Reservations(reqs[..n], limitsOf, prices), reqs[n];
      ReservedCoversListPrice(reqs[..n], limitsOf, prices);
      if Decide(before, q, limitsOf(q.scope), prices).Reserved? {
        WantedCosted(before, q, limitsOf(q.scope), prices);
        UpsertCosted(before, Wanted(prices, q), prices);
      }
    }
  }

  lemma WantedCosted(rows: seq<BudgetRow>, q: Request, limits: Limits, prices: PriceList)
    requires Decide(rows, q, limits, prices).Reserved?
    ensures Priced(prices, Wanted(prices, q))
  {
    hide SumBy, EstimateMicros;
  }

  /** A row whose cost is the list price itself. */
  predicate Priced(prices: PriceList, r: BudgetRow) {
    ListCostMicros(prices, r.operation, r.day, r.units) == Some(r.costMicros)
  }

  lemma PlusCosted(a: BudgetRow, b: BudgetRow, prices: PriceList)
    requires SameKey(a, b) && Costed(prices, a) && Priced(prices, b) && Subadditive(prices, a.operation, a.day)
    ensures Costed(prices, Plus(a, b))
  {
    hide ListCostMicros;
    assert SplitCostsMore(prices, a.operation, a.day, a.units, b.units);
  }

  lemma {:induction false} UpsertCosted(rows: seq<BudgetRow>, r: BudgetRow, prices: PriceList)
    requires forall x :: x in rows && Subadditive(prices, x.operation, x.day) ==> Costed(prices, x)
    requires Priced(prices, r)
    ensures forall x :: x in Upsert(rows, r) && Subadditive(prices, x.operation, x.day) ==> Costed(prices, x)
  {
    hide Subadditive, ListCostMicros;
    if rows != [] {
      assert rows[0] in rows;
      if SameKey(rows[0], r) {
        if Subadditive(prices, r.operation, r.day) {
          PlusCosted(rows[0], r, prices);
        }
      } else {
        UpsertCosted(rows[1..], r, prices);
      }
    }
  }

  // Two purchases

  /** What is reserved per unit: nothing for no units, else the price at list, if the rule knows it. */
  lemma ListCostExact(prices: PriceList, operation: string, day: Date, units: int)
    ensures var cost, rule := ListCostMicros(prices, operation, day, units), prices(operation, day);
      && (cost.Some? <==> rule.Some? && (units <= 0 || Priceable(rule.value, units)))
      && (cost.Some? && units <= 0 ==> cost.value == 0)
      && (cost.Some? && units > 0 ==> ListPrice(rule.value, units, 1, cost.value))
  {
    hide PriceAtList, Priceable, ListPrice;
    if prices(operation, day).Some? && units > 0 {
      ListIsPriceAtList(prices, operation, day, units, prices(operation, day).value);
      ListPriceExact(prices(operation, day).value, units, 1);
    }
  }

  lemma FewerUnitsPriced(prices: PriceList, operation: string, day: Date, a: nat, b: nat)
    requires a <= b && ListCostMicros(prices, operation, day, b).Some?
    ensures ListCostMicros(prices, operation, day, a).Some?
  {
    hide ListCostMicros, Priceable;
    ListCostExact(prices, operation, day, a);
    ListCostExact(prices, operation, day, b);
    if a > 0 {
      FewerPriceable(prices(operation, day).value, a, b);
    }
  }

  function Purchase(operation: string, day: Date, units: nat): Request { Request(day, "scope", operation, 1, units) }

  /** Ceilings of two calls, and of these units and this cost. */
  function Ample(operation: string, units: nat, costMicros: nat): string -> Limits {
    _ => Limits(Some(2), Some(costMicros), map[operation := units])
  }

  function PurchasedBoth(prices: PriceList, operation: string, day: Date, a: nat, b: nat): BudgetRow {
    BudgetRow(day, "scope", operation, 2, a + b,
              ListCostMicros(prices, operation, day, a).GetOr(0) + ListCostMicros(prices, operation, day, b).GetOr(0))
  }

  /** Two purchases of one operation, under ceilings that just hold them, leave one row that adds them up. */
  lemma TwoPurchases(prices: PriceList, operation: string, day: Date, a: nat, b: nat)
    requires ListCostMicros(prices, operation, day, a).Some? && ListCostMicros(prices, operation, day, b).Some?
    ensures var row := PurchasedBoth(prices, operation, day, a, b);
      Reservations([Purchase(operation, day, a), Purchase(operation, day, b)],
          Ample(operation, a + b, row.costMicros), prices) == [row]
  {
    hide ListCostMicros, SumBy;
    var one, other := Purchase(operation, day, a), Purchase(operation, day, b);
    var row := PurchasedBoth(prices, operation, day, a, b);
    var limitsOf := Ample(operation, a + b, row.costMicros);
    var first := Wanted(prices, one);
    assert [one, other][..1] == [one] && [one][..0] == [];
    OneRowSums([], day, operation);
    OneRowSums([first], day, operation);
    assert Reservations([one][..0], limitsOf, prices) == [];
    assert Reservations([one], limitsOf, prices) == [first];
    assert Upsert([first], Wanted(prices, other)) == [Plus(first, Wanted(prices, other))];
  }

  lemma OneRowSums(rows: seq<BudgetRow>, day: Date, operation: string)
    requires |rows| <= 1
    ensures SumBy(rows, CallsIn(day, "scope")) == if rows == [] then 0 else CallsIn(day, "scope")(rows[0])
    ensures SumBy(rows, CostIn(day, "scope")) == if rows == [] then 0 else CostIn(day, "scope")(rows[0])
    ensures SumBy(rows, UnitsIn(day, "scope", operation)) ==
            if rows == [] then 0 else UnitsIn(day, "scope", operation)(rows[0])
  {
  }

  /** The rows of this operation and day cover their list price, whatever is reserved under whatever ceilings. */
  ghost predicate AlwaysCosted(prices: PriceList, operation: string, day: Date) {
    forall reqs, limitsOf, r ::
      r in Reservations(reqs, limitsOf, prices) && r.operation == operation && r.day == day ==> Costed(prices, r)
  }

  /** That is so exactly when no quantity lists for more than it does in two purchases. */
  lemma CostedExactly(prices: PriceList, operation: string, day: Date)
    ensures AlwaysCosted(prices, operation, day) <==> Subadditive(prices, operation, day)
  {
    hide Reservations, ListCostMicros;
    if Subadditive(prices, operation, day) {
      forall reqs, limitsOf, r | r in Reservations(reqs, limitsOf, prices) && r.operation == operation && r.day == day
        ensures Costed(prices, r)
      {
        ReservedCoversListPrice(reqs, limitsOf, prices);
      }
    }
    if AlwaysCosted(prices, operation, day) {
      forall a: nat, b: nat ensures SplitCostsMore(prices, operation, day, a, b) {
        if ListCostMicros(prices, operation, day, a + b).Some? {
          FewerUnitsPriced(prices, operation, day, a, a + b);
          FewerUnitsPriced(prices, operation, day, b, a + b);
          TwoPurchases(prices, operation, day, a, b);
          var row := PurchasedBoth(prices, operation, day, a, b);
          assert row in Reservations([Purchase(operation, day, a), Purchase(operation, day, b)],
                                     Ample(operation, a + b, row.costMicros), prices);
        }
      }
    }
  }

  /**
   A rising tier is where it fails: two purchases of a free first unit leave a row of two units reserved at no
   cost.
   */
  lemma RisingTierUndercounts(prices: PriceList, operation: string, day: Date, rule: PricingRule)
    requires rule.pricingModel.Tiered? && rule.tiers == Some([Tier(Some(1), 0), Tier(None, 10)])
    requires prices(operation, day) == Some(rule)
    ensures var row := BudgetRow(day, "scope", operation, 2, 2, 0);
      var reqs := [Purchase(operation, day, 1), Purchase(operation, day, 1)];
      && Reservations(reqs, Ample(operation, 2, 0), prices) == [row]
      && !Costed(prices, row)
  {
    ListIsPriceAtList(prices, operation, day, 1, rule);
    ListIsPriceAtList(prices, operation, day, 2, rule);
    hide Reservations, ListCostMicros;
    var tiers := [Tier(Some(1), 0), Tier(None, 10)];
    assert tiers[1..] == [Tier(None, 10)];
    assert TierWalk(tiers, 1, 0) == (0, 0);
    assert TierWalk([Tier(None, 10)], 1, 1) == (10, 0);
    assert TierWalk(tiers, 2, 0) == (10, 0);
    TwoPurchases(prices, operation, day, 1, 1);
  }
}
