/**
 What an estimate charges, row by row: which rows are emitted and which are gaps,
 their list price by pricing model, and the price of what the allowance leaves.
 */
module EstimateLaws {
  import opened Calendar
  import opened Wrappers
  import opened Budget
  import opened Pricing
  import opened Estimator
  import opened AllowanceLaws
  import opened ManualCost
  import opened Sorting
  import opened Sums

  // What is charged

  /** The free units on `day`: a storage month is shared over the days of its month. */
  function FreeUnits(rule: PricingRule, day: Date): nat
    requires rule.freeAllowance.Some?
  {
    rule.freeAllowance.value.quantity * (if rule.pricingModel.PerGbMonth? then DaysInMonth(day.InMonth()) else 1)
  }

  /** How far `q` more units move what was `used` past the free units. */
  function Past(used: nat, q: nat, free: nat): nat { Max0(used + q - free) - Max0(used - free) }

  lemma ListPriceOn(rule: PricingRule, q: nat, day: Date)
    ensures var price := PriceAtList(rule, q, ShareOf(rule, Some(day)));
      && (price.Some? <==> Priceable(rule, q))
      && (price.Some? ==> ListPrice(rule, q, DaysInMonth(day.InMonth()), price.value))
  {
    hide TieredPrice, LinearPrice, RoundedUp;
    ListPriceExact(rule, q, DaysInMonth(day.InMonth()));
  }

  lemma EstimateExact(rule: PricingRule, q: nat, used: nat, day: Date)
    ensures var e := EstimateMicros(rule, q, used, Some(day));
      && (e.Known? <==> Priceable(rule, q))
      && (e.Known? ==> ListPrice(rule, q, DaysInMonth(day.InMonth()), e.listMicros))
      && (e.Known? && rule.freeAllowance.None? ==> e.freeAdjustedMicros == e.listMicros)
      && (e.Known? && rule.freeAllowance.Some? ==>
            ListPrice(rule, Past(used, q, FreeUnits(rule, day)), DaysInMonth(day.InMonth()), e.freeAdjustedMicros))
  {
    hide PriceAtList, ListPrice, Priceable;
    ListPriceOn(rule, q, day);
    if rule.freeAllowance.Some? && Priceable(rule, q) {
      var billable := Past(used, q, FreeUnits(rule, day));
      assert billable == Billable(rule, q, used, Some(day));
      FewerPriceable(rule, billable, q);
      ListPriceOn(rule, billable, day);
    }
  }

  // The rows of a plan

  /** A positive row of the range, if any: with a price, or a gap. */
  predicate Wanted(row: UsageRow, range: DayRange) { row.quantity > 0 && InRange(range, row.day) }

  predicate HasPrice(row: UsageRow, rules: seq<PricingRule>) {
    var found := RuleInForce(rules, row.billingSkuId, row.day);
    row.quantity > 0 && found.Some? && Priceable(found.value, row.quantity)
  }

  function Emits(range: DayRange, rules: seq<PricingRule>): UsageRow -> bool {
    (row: UsageRow) => Wanted(row, range) && HasPrice(row, rules)
  }

  function Lacks(range: DayRange, rules: seq<PricingRule>): UsageRow -> bool {
    (row: UsageRow) => Wanted(row, range) && !HasPrice(row, rules)
  }

  predicate KindsRight(e: EstimatedRow, rule: PricingRule) {
    match rule.pricingModel
    case FixedMonthly =>
      e.costKind == Recurring && e.billingCadence == Some(MonthlyCadence)
      && e.periodAmountMicros == (if rule.unitPriceMicros.Some? then Some(rule.unitPriceMicros.value) else None)
    case FixedAnnual =>
      e.costKind == Recurring && e.billingCadence == Some(AnnualCadence)
      && e.periodAmountMicros == (if rule.unitPriceMicros.Some? then Some(rule.unitPriceMicros.value) else None)
    case _ => e.costKind == Usage && e.billingCadence == None && e.periodAmountMicros == None
  }

  /** The estimate of `row` when `used` units of its allowance were used before it, if it has one. */
  predicate Charged(e: EstimatedRow, row: UsageRow, rules: seq<PricingRule>, version: string, used: nat)
    requires HasPrice(row, rules)
  {
    var rule, days := RuleInForce(rules, row.billingSkuId, row.day).value, DaysInMonth(row.day.InMonth());
    && e.usage == row && e.ruleId == rule.id && e.currency == rule.currency && e.pricingVersion == version
    && KindsRight(e, rule)
    && ListPrice(rule, row.quantity, days, e.listMicros)
    && e.allowancePriorQuantity == used
    && (if rule.freeAllowance.None? then used == 0 && e.amountMicros == e.listMicros
        else ListPrice(rule, Past(used, row.quantity, FreeUnits(rule, row.day)), days, e.amountMicros))
  }

  /** The units the rows before drew on the allowance that `row` draws on. */
  function UsedByOthers(before: seq<UsageRow>, row: UsageRow, rules: seq<PricingRule>): nat {
    if DrawsOn(row, rules).None? then 0 else TotalFor(before, rules, DrawsOn(row, rules).value)
  }

  /** One estimate per emitted row, in order, each charged after the rows before its own. */
  predicate Estimates(
      out: seq<EstimatedRow>, rows: seq<UsageRow>, range: DayRange, rules: seq<PricingRule>, version: string) {
    if rows == [] then out == []
    else
      var n := |rows| - 1;
      if !Emits(range, rules)(rows[n]) then Estimates(out, rows[..n], range, rules, version)
      else
        && out != []
        && Charged(out[|out| - 1], rows[n], rules, version, UsedByOthers(rows[..n], rows[n], rules))
        && Estimates(out[..|out| - 1], rows[..n], range, rules, version)
  }

  function GapsOf(rows: seq<UsageRow>): seq<Gap> {
    seq(|rows|, i requires 0 <= i < |rows| => Gap(rows[i].billingSkuId, rows[i].day))
  }

  lemma StepEstimates(p: Plan, row: UsageRow, range: DayRange, rules: seq<PricingRule>, version: string, used: nat)
    requires DrawsOn(row, rules).None? ==> used == 0
    requires DrawsOn(row, rules).Some? ==> used == ConsumedAt(p.consumed, DrawsOn(row, rules))
    ensures var after := PlanRow(p, row, range, rules, version);
      && (Emits(range, rules)(row) ==>
            |after.rows| == |p.rows| + 1 && after.rows[..|p.rows|] == p.rows
            && Charged(after.rows[|p.rows|], row, rules, version, used))
      && (!Emits(range, rules)(row) ==> after.rows == p.rows)
      && after.unpriced == p.unpriced + if Lacks(range, rules)(row) then [Gap(row.billingSkuId, row.day)] else []
  {
    hide ListPrice, Priceable, EstimateMicros, Past, FreeUnits;
    var found := RuleInForce(rules, row.billingSkuId, row.day);
    if row.quantity > 0 && found.Some? {
      EstimateExact(found.value, row.quantity, used, row.day);
    }
  }

  lemma {:induction false} WalkEstimates(rows: seq<UsageRow>, range: DayRange, rules: seq<PricingRule>, version: string)
    ensures var p := Walk(NOTHING, rows, range, rules, version);
      && Estimates(p.rows, rows, range, rules, version)
      && p.unpriced == GapsOf(Filter(rows, Lacks(range, rules)))
  {
    if rows != [] {
      hide PlanRow, DrawsOn, Charged, Wanted, HasPrice, Filter;
      var n := |rows| - 1;
      var row, before := rows[n], Walk(NOTHING, rows[..n], range, rules, version);
      WalkEstimates(rows[..n], range, rules, version);
      if DrawsOn(row, rules).Some? {
        UsedIsTotal(rows[..n], range, rules, version, DrawsOn(row, rules).value);
      }
      StepEstimates(before, row, range, rules, version, UsedByOthers(rows[..n], row, rules));
      FilterSnoc(rows, n, Lacks(range, rules));
      assert rows[..n + 1] == rows;
    } else {
      assert GapsOf([]) == [];
    }
  }

  /**
   A plan estimates each positive row of the range whose price is known, in the walk's order, at that price: the
   list price of its whole quantity, and the charge for what its allowance no longer covers, or for all of it.
   The range's other positive rows are the gaps.
   */
  lemma PlannedRowsExact(rows: seq<UsageRow>, range: DayRange, rules: seq<PricingRule>, version: string)
    ensures var p, sorted := PlanOf(rows, range, rules, version), StableSort(rows, UsageBefore);
      && Estimates(p.rows, sorted, range, rules, version)
      && p.unpriced == GapsOf(Filter(sorted, Lacks(range, rules)))
  {
    WalkEstimates(StableSort(rows, UsageBefore), range, rules, version);
  }

  function UsagesOf(out: seq<EstimatedRow>): seq<UsageRow> {
    seq(|out|, i requires 0 <= i < |out| => out[i].usage)
  }

  lemma {:induction false} EstimatesEmit(
      out: seq<EstimatedRow>, rows: seq<UsageRow>, range: DayRange, rules: seq<PricingRule>, version: string)
    requires Estimates(out, rows, range, rules, version)
    ensures UsagesOf(out) == Filter(rows, Emits(range, rules))
  {
    if rows != [] {
      hide Filter, Wanted, HasPrice;
      var n := |rows| - 1;
      FilterSnoc(rows, n, Emits(range, rules));
      assert rows[..n + 1] == rows;
      if Emits(range, rules)(rows[n]) {
        var m := |out| - 1;
        EstimatesEmit(out[..m], rows[..n], range, rules, version);
        assert UsagesOf(out) == UsagesOf(out[..m]) + [out[m].usage];
      } else {
        EstimatesEmit(out, rows[..n], range, rules, version);
      }
    }
  }

  /** Every positive row of the range is estimated or a gap, once and never both. */
  lemma EveryRowOnce(rows: seq<UsageRow>, range: DayRange, rules: seq<PricingRule>, version: string)
    ensures var p, sorted := PlanOf(rows, range, rules, version), StableSort(rows, UsageBefore);
      && UsagesOf(p.rows) == Filter(sorted, Emits(range, rules))
      && p.unpriced == GapsOf(Filter(sorted, Lacks(range, rules)))
      && forall r :: r in rows && Wanted(r, range) <==>
           r in Filter(sorted, Emits(range, rules)) || r in Filter(sorted, Lacks(range, rules))
  {
    hide Filter, Wanted, HasPrice, StableSort, UsageBefore, Walk, Estimates;
    var p, sorted := PlanOf(rows, range, rules, version), StableSort(rows, UsageBefore);
    PlannedRowsExact(rows, range, rules, version);
    EstimatesEmit(p.rows, sorted, range, rules, version);
    SortExact(rows, UsageBefore);
    FilterMember(sorted, Emits(range, rules));
    FilterMember(sorted, Lacks(range, rules));
  }

  /**
   Two rows draw on one allowance exactly when their rules' scopes and periods agree and both rows are inside
   them.
   */
  lemma SharedExactly(a: UsageRow, ra: PricingRule, b: UsageRow, rb: PricingRule)
    requires ra.freeAllowance.Some? && rb.freeAllowance.Some?
    ensures var x, y := ra.freeAllowance.value, rb.freeAllowance.value;
      AllowanceKeyOf(a, ra) == AllowanceKeyOf(b, rb) <==>
        && a.source == b.source
        && (match x.scope
            case SkuScope => y.scope.SkuScope? && a.billingSkuId == b.billingSkuId
            case ServiceScope => y.scope.ServiceScope? && a.serviceId == b.serviceId
            case _ => !y.scope.SkuScope? && !y.scope.ServiceScope? && ra.providerId == rb.providerId)
        && (match x.period
            case DayPeriod => y.period.DayPeriod? && a.day == b.day
            case MonthPeriod => y.period.MonthPeriod? && a.day.y == b.day.y && a.day.m == b.day.m
            case YearPeriod => y.period.YearPeriod? && a.day.y == b.day.y)
  {
  }
}
