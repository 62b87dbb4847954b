/**
 The estimator: usage rows in, priced rows out. Free allowances are consumed in
 day order, so what a row costs depends on the rows of its period before it.
 */
module Estimator {
  import opened Calendar
  import opened CostSources
  import opened Wrappers
  import opened Budget
  import opened Pricing
  import opened Sorting
  import opened Sums
  import opened ManualCost

  datatype UsageRow = UsageRow(
    day: Date, providerId: string, serviceId: string, operationId: Option<string>, usageMetricId: string,
    billingSkuId: string, quantity: int, unit: string, source: string)

  datatype EstimatedRow = EstimatedRow(
    usage: UsageRow, amountMicros: nat, currency: string, pricingVersion: string, costKind: CostKind,
    billingCadence: Option<BillingCadence>, periodAmountMicros: Option<int>,
    listMicros: nat, allowancePriorQuantity: nat, ruleId: string)

  datatype Gap = Gap(billingSkuId: string, day: Date)

  /** What resets an allowance, and what shares it. */
  datatype PeriodKey = OfDay(day: Date) | OfMonth(month: Month) | OfYear(year: int)
  datatype ScopeKey = OfSku(sku: string) | OfService(service: string) | OfProvider(provider: string)
  datatype AllowanceKey = AllowanceKey(source: string, scope: ScopeKey, period: PeriodKey)

  function PeriodOf(day: Date, a: FreeAllowance): PeriodKey {
    match a.period
    case DayPeriod => OfDay(day)
    case MonthPeriod => OfMonth(day.InMonth())
    case YearPeriod => OfYear(day.y)
  }

  function ScopeOf(row: UsageRow, rule: PricingRule, a: FreeAllowance): ScopeKey {
    match a.scope
    case SkuScope => OfSku(row.billingSkuId)
    case ServiceScope => OfService(row.serviceId)
    case _ => OfProvider(rule.providerId)
  }

  function AllowanceKeyOf(row: UsageRow, rule: PricingRule): Option<AllowanceKey> {
    match rule.freeAllowance
    case None => None
    case Some(a) => Some(AllowanceKey(row.source, ScopeOf(row, rule, a), PeriodOf(row.day, a)))
  }

  function ClassifyRule(rule: PricingRule): (CostKind, Option<BillingCadence>, Option<int>) {
    match rule.pricingModel
    case FixedMonthly => (Recurring, Some(MonthlyCadence), AsInt(rule.unitPriceMicros))
    case FixedAnnual => (Recurring, Some(AnnualCadence), AsInt(rule.unitPriceMicros))
    case _ => (Usage, None, None)
  }

  function AsInt(n: Option<nat>): Option<int> { match n case None => None case Some(x) => Some(x) }

  // The walk

  type Consumed = map<AllowanceKey, nat>

  function ConsumedAt(consumed: Consumed, k: Option<AllowanceKey>): nat {
    if k.Some? && k.value in consumed then consumed[k.value] else 0
  }

  datatype Plan = Plan(consumed: Consumed, rows: seq<EstimatedRow>, unpriced: seq<Gap>)

  /** One row of the walk. */
  function PlanRow(p: Plan, row: UsageRow, range: DayRange, rules: seq<PricingRule>, version: string): Plan {
    if row.quantity <= 0 then p
    else
      var inRange := InRange(range, row.day);
      match RuleInForce(rules, row.billingSkuId, row.day)
      case None => if inRange then p.(unpriced := p.unpriced + [Gap(row.billingSkuId, row.day)]) else p
      case Some(rule) =>
        var key := AllowanceKeyOf(row, rule);
        var prior := ConsumedAt(p.consumed, key);
        var consumed := if key.Some? then p.consumed[key.value := prior + row.quantity] else p.consumed;
        match EstimateMicros(rule, row.quantity, prior, Some(row.day))
        case Unknown =>
          Plan(consumed, p.rows, if inRange then p.unpriced + [Gap(row.billingSkuId, row.day)] else p.unpriced)
        case Known(listMicros, adjusted) =>
          var emitted := if inRange then [PricedRow(row, rule, version, listMicros, adjusted, prior)] else [];
          Plan(consumed, p.rows + emitted, p.unpriced)
  }

  function PricedRow(
      row: UsageRow, rule: PricingRule, version: string, listMicros: nat, adjusted: nat, prior: nat): EstimatedRow {
    var (kind, cadence, amount) := ClassifyRule(rule);
    EstimatedRow(row, adjusted, rule.currency, version, kind, cadence, amount, listMicros, prior, rule.id)
  }

  function Walk(p: Plan, rows: seq<UsageRow>, range: DayRange, rules: seq<PricingRule>, version: string): Plan {
    if rows == [] then p
    else PlanRow(Walk(p, rows[..|rows| - 1], range, rules, version), rows[|rows| - 1], range, rules, version)
  }

  const NOTHING := Plan(map[], [], [])

  /** The walk's order: day, SKU, source, operation. */
  predicate UsageBefore(a: UsageRow, b: UsageRow) {
    if a.day != b.day then Lt(a.day, b.day)
    else if a.billingSkuId != b.billingSkuId then Before(a.billingSkuId, b.billingSkuId)
    else if a.source != b.source then Before(a.source, b.source)
    else Before(a.operationId.GetOr(""), b.operationId.GetOr(""))
  }

  function PlanOf(rows: seq<UsageRow>, range: DayRange, rules: seq<PricingRule>, version: string): Plan {
    Walk(NOTHING, StableSort(rows, UsageBefore), range, rules, version)
  }

  method PlanEstimates(rows: seq<UsageRow>, range: DayRange, rules: seq<PricingRule>, version: string)
    returns (out: seq<EstimatedRow>, unpriced: seq<Gap>)
    ensures out == PlanOf(rows, range, rules, version).rows
    ensures unpriced == PlanOf(rows, range, rules, version).unpriced
  {
    var sorted := StableSort(rows, UsageBefore);
    var consumed: Consumed := map[];
    out, unpriced := [], [];
    for i := 0 to |sorted|
      invariant Plan(consumed, out, unpriced) == Walk(NOTHING, sorted[..i], range, rules, version)
    {
      var row := sorted[i];
      assert sorted[..i + 1][..i] == sorted[..i];
      if row.quantity <= 0 {
        continue;
      }
      var inRange := InRange(range, row.day);
      var found := RuleInForce(rules, row.billingSkuId, row.day);
      if found.None? {
        if inRange { unpriced := unpriced + [Gap(row.billingSkuId, row.day)]; }
        continue;
      }
      var key := AllowanceKeyOf(row, found.value);
      var prior := ConsumedAt(consumed, key);
      var estimate := EstimateMicros(found.value, row.quantity, prior, Some(row.day));
      if key.Some? { consumed := consumed[key.value := prior + row.quantity]; }
      if estimate.Unknown? {
        if inRange { unpriced := unpriced + [Gap(row.billingSkuId, row.day)]; }
        continue;
      }
      if !inRange {
        continue;
      }
      out := out + [PricedRow(row, found.value, version, estimate.listMicros, estimate.freeAdjustedMicros, prior)];
    }
    assert sorted[..|sorted|] == sorted;
  }

  // Where the walk may start

  /** The first day of the allowance period `from` falls in. */
  function PeriodStart(from: Date, a: FreeAllowance): Date {
    match a.period
    case DayPeriod => from
    case MonthPeriod => FirstOf(from.InMonth())
    case YearPeriod => Day(from.y, 1, 1)
  }

  function WalkStart(from: Date, rules: seq<PricingRule>): Date {
    if rules == [] then from
    else
      var start := WalkStart(from, rules[..|rules| - 1]);
      match rules[|rules| - 1].freeAllowance
      case None => start
      case Some(a) => if Lt(PeriodStart(from, a), start) then PeriodStart(from, a) else start
  }

  method AllowanceWalkStart(from: Date, rules: seq<PricingRule>) returns (start: Date)
    ensures start == WalkStart(from, rules)
  {
    start := from;
    for i := 0 to |rules|
      invariant start == WalkStart(from, rules[..i])
    {
      assert rules[..i + 1][..i] == rules[..i];
      match rules[i].freeAllowance {
        case None =>
        case Some(a) =>
          var candidate := PeriodStart(from, a);
          if Lt(candidate, start) { start := candidate; }
      }
    }
    assert rules[..|rules|] == rules;
  }

  lemma {:induction false} WalkStartReaches(from: Date, rules: seq<PricingRule>)
    ensures Le(WalkStart(from, rules), from)
    ensures forall r :: r in rules && r.freeAllowance.Some? ==>
        Le(WalkStart(from, rules), PeriodStart(from, r.freeAllowance.value))
  {
    if rules != [] {
      var n := |rules| - 1;
      assert rules == rules[..n] + [rules[n]];
      WalkStartReaches(from, rules[..n]);
    }
  }

  /** The start is the range's own, or the first day of some allowance's period: no history is read for nothing. */
  lemma {:induction false} WalkStartNeeded(from: Date, rules: seq<PricingRule>)
    ensures WalkStart(from, rules) == from
            || exists r :: r in rules && r.freeAllowance.Some?
                           && WalkStart(from, rules) == PeriodStart(from, r.freeAllowance.value)
  {
    if rules != [] {
      var n := |rules| - 1;
      assert rules == rules[..n] + [rules[n]];
      WalkStartNeeded(from, rules[..n]);
    }
  }

  /** That day is the first of all days that share the allowance's period with `from`. */
  lemma PeriodStartIsFirst(from: Date, a: FreeAllowance, day: Date)
    ensures PeriodOf(PeriodStart(from, a), a) == PeriodOf(from, a)
    ensures PeriodOf(day, a) == PeriodOf(from, a) ==> Le(PeriodStart(from, a), day)
  {
  }

  // Truncating the history

  /** The period is the one `from` falls in, or a later one. */
  predicate Recent(k: PeriodKey, from: Date) {
    match k
    case OfDay(d) => Le(from, d)
    case OfMonth(m) => from.InMonth().Index() <= m.Index()
    case OfYear(y) => from.y <= y
  }

  predicate SameRecent(a: Consumed, b: Consumed, from: Date) {
    && (forall k :: k in a && Recent(k.period, from) ==> k in b && a[k] == b[k])
    && (forall k :: k in b && Recent(k.period, from) ==> k in a)
  }

  /** A row before the walk's start only ever touches allowance periods that are over. */
  lemma OldRowsTouchOldPeriods(row: UsageRow, rule: PricingRule, from: Date, rules: seq<PricingRule>)
    requires rule in rules && Lt(row.day, WalkStart(from, rules))
    ensures AllowanceKeyOf(row, rule).Some? ==> !Recent(AllowanceKeyOf(row, rule).value.period, from)
  {
    WalkStartReaches(from, rules);
  }

  /** A row of the range itself is priced against a period that is not over. */
  lemma RangeRowsAreRecent(row: UsageRow, rule: PricingRule, from: Date)
    requires Le(from, row.day)
    ensures AllowanceKeyOf(row, rule).Some? ==> Recent(AllowanceKeyOf(row, rule).value.period, from)
  {
  }

  lemma {:induction false} OldWalk(rows: seq<UsageRow>, range: DayRange, rules: seq<PricingRule>, version: string)
    requires forall r :: r in rows ==> Lt(r.day, WalkStart(range.from, rules))
    ensures var p := Walk(NOTHING, rows, range, rules, version);
            p.rows == [] && p.unpriced == [] && SameRecent(p.consumed, map[], range.from)
  {
    if rows != [] {
      var n := |rows| - 1;
      var row := rows[n];
      assert row in rows;
      OldWalk(rows[..n], range, rules, version);
      WalkStartReaches(range.from, rules);
      RuleInForceMember(rules, row.billingSkuId, row.day);
      var found := RuleInForce(rules, row.billingSkuId, row.day);
      if found.Some? {
        OldRowsTouchOldPeriods(row, found.value, range.from, rules);
      }
    }
  }

  lemma StepFromRecent(a: Plan, b: Plan, row: UsageRow, range: DayRange, rules: seq<PricingRule>, version: string)
    requires a.rows == b.rows && a.unpriced == b.unpriced && SameRecent(a.consumed, b.consumed, range.from)
    ensures var a', b' := PlanRow(a, row, range, rules, version), PlanRow(b, row, range, rules, version);
            a'.rows == b'.rows && a'.unpriced == b'.unpriced && SameRecent(a'.consumed, b'.consumed, range.from)
  {
    var found := RuleInForce(rules, row.billingSkuId, row.day);
    if row.quantity > 0 && found.Some? {
      var key := AllowanceKeyOf(row, found.value);
      if Le(range.from, row.day) {
        RangeRowsAreRecent(row, found.value, range.from);
      }
      if key.Some? && Recent(key.value.period, range.from) {
        assert ConsumedAt(a.consumed, key) == ConsumedAt(b.consumed, key);
      }
      KnownWhateverPrior(found.value, row.quantity, ConsumedAt(a.consumed, key), ConsumedAt(b.consumed, key),
          Some(row.day));
    }
  }

  lemma KnownWhateverPrior(rule: PricingRule, quantity: int, a: int, b: int, day: Option<Date>)
    ensures EstimateMicros(rule, quantity, a, day).Known? == EstimateMicros(rule, quantity, b, day).Known?
  {
  }

  lemma {:induction false} WalkFromRecent(
      a: Plan, b: Plan, rows: seq<UsageRow>, range: DayRange, rules: seq<PricingRule>, version: string)
    requires a.rows == b.rows && a.unpriced == b.unpriced && SameRecent(a.consumed, b.consumed, range.from)
    ensures var a', b' := Walk(a, rows, range, rules, version), Walk(b, rows, range, rules, version);
            a'.rows == b'.rows && a'.unpriced == b'.unpriced && SameRecent(a'.consumed, b'.consumed, range.from)
  {
    if rows != [] {
      hide PlanRow, SameRecent;
      var n := |rows| - 1;
      WalkFromRecent(a, b, rows[..n], range, rules, version);
      StepFromRecent(Walk(a, rows[..n], range, rules, version), Walk(b, rows[..n], range, rules, version),
                     rows[n], range, rules, version);
    }
  }

  lemma {:induction false} WalkAppend(
      p: Plan, a: seq<UsageRow>, b: seq<UsageRow>, range: DayRange, rules: seq<PricingRule>, version: string)
    ensures Walk(p, a + b, range, rules, version) == Walk(Walk(p, a, range, rules, version), b, range, rules, version)
  {
    if b == [] {
      assert a + b == a;
    } else {
      hide PlanRow;
      var n := |b| - 1;
      WalkAppend(p, a, b[..n], range, rules, version);
      assert (a + b)[..|a| + n] == a + b[..n];
    }
  }

  lemma UsageOrder()
    ensures WeakOrder(UsageBefore)
  {
    forall x: UsageRow, y: UsageRow ensures !(UsageBefore(x, y) && UsageBefore(y, x)) {
      NamesTotal(x, y);
    }
    forall x: UsageRow, y: UsageRow, z: UsageRow | !UsageBefore(y, x) && !UsageBefore(z, y) ensures !UsageBefore(z, x) {
      NotBeforeChains(x, y, z);
    }
  }

  lemma NamesTotal(x: UsageRow, y: UsageRow)
    ensures UsageBefore(x, y) || UsageBefore(y, x) ||
            (x.day == y.day && x.billingSkuId == y.billingSkuId && x.source == y.source
             && x.operationId.GetOr("") == y.operationId.GetOr(""))
    ensures !(UsageBefore(x, y) && UsageBefore(y, x))
  {
    BeforeTotal(x.billingSkuId, y.billingSkuId);
    BeforeTotal(x.source, y.source);
    BeforeTotal(x.operationId.GetOr(""), y.operationId.GetOr(""));
  }

  lemma NotBeforeChains(x: UsageRow, y: UsageRow, z: UsageRow)
    requires !UsageBefore(y, x) && !UsageBefore(z, y)
    ensures !UsageBefore(z, x)
  {
    if x.day == y.day == z.day {
      BeforeTotal(y.billingSkuId, x.billingSkuId);
      BeforeTotal(z.billingSkuId, y.billingSkuId);
      NamesChain(x.billingSkuId, y.billingSkuId, z.billingSkuId);
      if x.billingSkuId == y.billingSkuId == z.billingSkuId {
        BeforeTotal(y.source, x.source);
        BeforeTotal(z.source, y.source);
        NamesChain(x.source, y.source, z.source);
        if x.source == y.source == z.source {
          NamesChain(x.operationId.GetOr(""), y.operationId.GetOr(""), z.operationId.GetOr(""));
        }
      }
    }
  }

  function Since(start: Date): UsageRow -> bool { (r: UsageRow) => Le(start, r.day) }

  /** Sorted by day, the rows before `start` come first. */
  lemma {:induction false} SplitAt(sorted: seq<UsageRow>, start: Date) returns (past: seq<UsageRow>)
    requires SortedBy(sorted, UsageBefore)
    ensures sorted == past + Filter(sorted, Since(start))
    ensures forall r :: r in past ==> Lt(r.day, start)
  {
    if sorted == [] || Le(start, sorted[0].day) {
      past := [];
      forall r | r in sorted ensures Since(start)(r) {
        var i :| 0 <= i < |sorted| && sorted[i] == r;
        assert i > 0 ==> !UsageBefore(sorted[i], sorted[0]);
      }
      FilterAll(sorted, Since(start));
    } else {
      var rest := SplitAt(sorted[1..], start);
      past := [sorted[0]] + rest;
      assert sorted == [sorted[0]] + sorted[1..];
    }
  }

  /** Reading usage from `allowanceWalkStart(from)` on plans the same rows, and the same gaps, as reading all of it. */
  lemma TruncationIsSound(rows: seq<UsageRow>, range: DayRange, rules: seq<PricingRule>, version: string)
    ensures var start := WalkStart(range.from, rules);
            var full := PlanOf(rows, range, rules, version);
            var cut := PlanOf(Filter(rows, Since(start)), range, rules, version);
            full.rows == cut.rows && full.unpriced == cut.unpriced
  {
    hide Walk, StableSort, Filter, WeakOrder;
    var start := WalkStart(range.from, rules);
    UsageOrder();
    SortFilter(rows, UsageBefore, Since(start));
    SortSorted(rows, UsageBefore);
    var sorted := StableSort(rows, UsageBefore);
    var past := SplitAt(sorted, start);
    var kept := Filter(sorted, Since(start));
    WalkAppend(NOTHING, past, kept, range, rules, version);
    OldWalk(past, range, rules, version);
    WalkFromRecent(Walk(NOTHING, past, range, rules, version), NOTHING, kept, range, rules, version);
  }
}
