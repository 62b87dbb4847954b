/**
 What manual items plan: the rows they should have by a day, and the charges a
 month holds for the forecast. Both read the same charge days.
 */
module ManualPlan {
  import opened Calendar
  import opened Sums
  import opened Sorting
  import opened Wrappers
  import opened Budget
  import opened CostSources
  import opened ManualCost
  import opened Forecast

  datatype RowPlan = RowPlan(
    day: Date, providerId: string, serviceId: string, amountMicros: int, currency: string, source: string,
    itemId: string, costKind: CostKind, billingCadence: Option<BillingCadence>, periodAmountMicros: Option<int>)

  datatype Keep = Keep(source: string, providerId: string, serviceId: string, days: seq<Date>)

  ghost predicate UniqueIds(items: seq<Item>) {
    forall i, j :: 0 <= i < j < |items| ==> items[i].id != items[j].id
  }

  lemma UniqueSource(items: seq<Item>, a: Item, b: Item)
    requires UniqueIds(items) && a in items && b in items
    requires ManualCostSource(a.id) == ManualCostSource(b.id)
    ensures a == b
  {
    ManualCostSourceInjective(a.id, b.id);
    var i :| 0 <= i < |items| && items[i] == a;
    var j :| 0 <= j < |items| && items[j] == b;
    assert i == j;
  }

  function PlanRow(item: Item, day: Date): RowPlan {
    var (kind, cadence) := ClassifyPeriod(item.period);
    RowPlan(day, item.providerId, item.serviceId, item.amountMicros, item.currency, ManualCostSource(item.id), item.id,
            kind, cadence, if kind.Recurring? then Some(item.amountMicros) else None)
  }

  function PlannedDays(item: Item, today: Date): seq<Date> {
    if Lt(today, item.effectiveFrom) then [] else ChargeDays(item, DayRange(item.effectiveFrom, today))
  }

  function MaterialiseItem(item: Item, today: Date): seq<RowPlan> {
    var days := PlannedDays(item, today);
    seq(|days|, i requires 0 <= i < |days| => PlanRow(item, days[i]))
  }

  function PlanRows(items: seq<Item>, today: Date): seq<RowPlan> {
    if items == [] then [] else PlanRows(items[..|items| - 1], today) + MaterialiseItem(items[|items| - 1], today)
  }

  function KeepOf(item: Item, today: Date): Keep {
    Keep(ManualCostSource(item.id), item.providerId, item.serviceId, PlannedDays(item, today))
  }

  method PlanManualCosts(items: seq<Item>, today: Date) returns (rows: seq<RowPlan>, keep: seq<Keep>)
    ensures rows == PlanRows(items, today)
    ensures |keep| == |items| && forall i :: 0 <= i < |items| ==> keep[i] == KeepOf(items[i], today)
  {
    hide MaterialiseItem, KeepOf;
    rows, keep := [], [];
    for i := 0 to |items|
      invariant rows == PlanRows(items[..i], today)
      invariant |keep| == i && forall j :: 0 <= j < i ==> keep[j] == KeepOf(items[j], today)
    {
      assert items[..i + 1][..i] == items[..i];
      rows := rows + MaterialiseItem(items[i], today);
      keep := keep + [KeepOf(items[i], today)];
    }
    assert items[..|items|] == items;
  }

  // The plan, said of items and days

  ghost predicate DueBy(item: Item, today: Date, day: Date) { Billed(item, day) && Le(day, today) }

  lemma PlannedDaysExact(item: Item, today: Date)
    ensures Increasing(PlannedDays(item, today))
    ensures forall x: Date :: x in PlannedDays(item, today) <==> DueBy(item, today, x)
  {
    ChargeDaysExact(item, DayRange(item.effectiveFrom, today));
  }

  ghost predicate Planned(items: seq<Item>, today: Date, p: RowPlan) {
    exists item, day: Date :: item in items && DueBy(item, today, day) && p == PlanRow(item, day)
  }

  lemma MaterialiseItemExact(item: Item, today: Date, p: RowPlan)
    ensures p in MaterialiseItem(item, today) <==> DueBy(item, today, p.day) && p == PlanRow(item, p.day)
  {
    var days, rows := PlannedDays(item, today), MaterialiseItem(item, today);
    PlannedDaysExact(item, today);
    if p in rows {
      var i :| 0 <= i < |rows| && rows[i] == p;
      assert days[i] in days;
    }
    if DueBy(item, today, p.day) && p == PlanRow(item, p.day) {
      var i :| 0 <= i < |days| && days[i] == p.day;
      assert rows[i] == p;
    }
  }

  lemma PlannedAppend(rest: seq<Item>, last: Item, today: Date, p: RowPlan)
    ensures Planned(rest + [last], today, p) <==>
            Planned(rest, today, p) || (DueBy(last, today, p.day) && p == PlanRow(last, p.day))
  {
    if Planned(rest + [last], today, p) {
      var item, day: Date :| item in rest + [last] && DueBy(item, today, day) && p == PlanRow(item, day);
      assert item in rest || item == last;
    }
    if Planned(rest, today, p) {
      var item, day: Date :| item in rest && DueBy(item, today, day) && p == PlanRow(item, day);
      assert item in rest + [last];
    }
    assert last in rest + [last];
  }

  /** A planned row is a charge due by today, and every such charge is planned. */
  lemma {:induction false} PlanRowsExact(items: seq<Item>, today: Date, p: RowPlan)
    ensures p in PlanRows(items, today) <==> Planned(items, today, p)
  {
    hide MaterialiseItem, DueBy, PlanRow;
    if items == [] {
    } else {
      hide Planned;
      var n := |items| - 1;
      PlanRowsExact(items[..n], today, p);
      MaterialiseItemExact(items[n], today, p);
      PlannedAppend(items[..n], items[n], today, p);
      assert items == items[..n] + [items[n]];
    }
  }

  predicate KindOfPeriod(period: Period, kind: CostKind, cadence: Option<BillingCadence>) {
    match period
    case OneTimeFee => kind == OneTime && cadence == None
    case MonthlyFee => kind == Recurring && cadence == Some(MonthlyCadence)
    case YearlyFee => kind == Recurring && cadence == Some(AnnualCadence)
  }

  /** A planned row bills its item whole, under the item's own source; a recurring one also declares its fee. */
  predicate RowSays(p: RowPlan, item: Item) {
    && p.providerId == item.providerId && p.serviceId == item.serviceId && p.itemId == item.id
    && p.source == "manual_cost_items:" + item.id
    && p.amountMicros == item.amountMicros && p.currency == item.currency
    && KindOfPeriod(item.period, p.costKind, p.billingCadence)
    && p.periodAmountMicros == if item.period.OneTimeFee? then None else Some(item.amountMicros as int)
  }

  lemma PlannedRowSays(items: seq<Item>, today: Date, p: RowPlan)
    ensures p in PlanRows(items, today) <==>
            exists item :: item in items && Billed(item, p.day) && Le(p.day, today) && RowSays(p, item)
  {
    PlanRowsExact(items, today, p);
    forall item: Item, day: Date ensures p == PlanRow(item, day) <==> p.day == day && RowSays(p, item) {
      RowIsPlanRow(p, item, day);
    }
    hide RowSays, PlanRow, PlanRows;
    if p in PlanRows(items, today) {
      var item, day: Date :| item in items && DueBy(item, today, day) && p == PlanRow(item, day);
      assert RowSays(p, item);
    }
    if item :| item in items && Billed(item, p.day) && Le(p.day, today) && RowSays(p, item) {
      assert DueBy(item, today, p.day) && p == PlanRow(item, p.day);
    }
  }

  lemma RowIsPlanRow(p: RowPlan, item: Item, day: Date)
    ensures p == PlanRow(item, day) <==> p.day == day && RowSays(p, item)
  {
  }

  // The month's schedule

  function MonthRange(month: CalendarMonth): DayRange { DayRange(FirstOf(month), LastOf(month)) }

  function ChargeOn(item: Item, day: Date): ScheduledCharge {
    var (kind, cadence) := ClassifyPeriod(item.period);
    ScheduledCharge(ManualCostSource(item.id), item.providerId, item.serviceId, item.name, kind, cadence,
                    Some(day), item.amountMicros, item.currency)
  }

  function ItemCharges(item: Item, month: CalendarMonth): seq<ScheduledCharge> {
    var days := ChargeDays(item, MonthRange(month));
    seq(|days|, i requires 0 <= i < |days| => ChargeOn(item, days[i]))
  }

  function ActiveInMonth(item: Item, month: CalendarMonth): bool {
    && !item.period.OneTimeFee?
    && Le(item.effectiveFrom, LastOf(month))
    && (item.effectiveTo.None? || Le(FirstOf(month), item.effectiveTo.value))
  }

  function ItemCommitments(item: Item, month: CalendarMonth): seq<Commitment> {
    var (_, cadence) := ClassifyPeriod(item.period);
    if cadence.Some? && ActiveInMonth(item, month)
    then [Commitment(ManualCostSource(item.id), item.providerId, item.serviceId, item.name, cadence.value,
        item.amountMicros, item.currency)]
    else []
  }

  function ChargesFor(items: seq<Item>, month: CalendarMonth): seq<ScheduledCharge> {
    if items == [] then [] else ChargesFor(items[..|items| - 1], month) + ItemCharges(items[|items| - 1], month)
  }

  function CommitmentsFor(items: seq<Item>, month: CalendarMonth): seq<Commitment> {
    if items == [] then [] else CommitmentsFor(items[..|items| - 1], month) + ItemCommitments(items[|items| - 1], month)
  }

  function ScheduleFor(items: seq<Item>, month: CalendarMonth): MonthSchedule {
    MonthSchedule(SortCharges(ChargesFor(items, month)), CommitmentsFor(items, month))
  }

  method ManualSchedule(items: seq<Item>, month: CalendarMonth) returns (schedule: MonthSchedule)
    ensures schedule == ScheduleFor(items, month)
  {
    hide ItemCharges, ItemCommitments, SortCharges;
    var charges, commitments := [], [];
    for i := 0 to |items|
      invariant charges == ChargesFor(items[..i], month) && commitments == CommitmentsFor(items[..i], month)
    {
      assert items[..i + 1][..i] == items[..i];
      charges := charges + ItemCharges(items[i], month);
      commitments := commitments + ItemCommitments(items[i], month);
    }
    assert items[..|items|] == items;
    schedule := MonthSchedule(SortCharges(charges), commitments);
  }

  /** A month's range holds exactly that month's days. */
  lemma MonthRangeExact(month: CalendarMonth, day: Date)
    ensures InRange(MonthRange(month), day) <==> day.InMonth() == month
  {
  }

  ghost predicate ChargeOf(items: seq<Item>, month: CalendarMonth, c: ScheduledCharge) {
    exists item, day: Date :: item in items && Billed(item, day) && day.InMonth() == month && c == ChargeOn(item, day)
  }

  lemma ItemChargesExact(item: Item, month: CalendarMonth, c: ScheduledCharge)
    ensures c in ItemCharges(item, month) <==> ChargeOf([item], month, c)
    ensures |ItemCharges(item, month)| <= 1
  {
    var days, cs := ChargeDays(item, MonthRange(month)), ItemCharges(item, month);
    ChargeDaysExact(item, MonthRange(month));
    forall x: Date ensures InRange(MonthRange(month), x) <==> x.InMonth() == month {
      MonthRangeExact(month, x);
    }
    if |days| > 1 {
      assert days[0] in days && days[1] in days;
      OneChargeAMonth(item, days[0], days[1]);
    }
    if c in cs {
      assert cs == [ChargeOn(item, days[0])];
      assert days[0] in days && item in [item];
    }
    if ChargeOf([item], month, c) {
      var it, day: Date :| it in [item] && Billed(it, day) && day.InMonth() == month && c == ChargeOn(it, day);
      var i :| 0 <= i < |days| && days[i] == day;
      assert cs[i] == c;
    }
  }

  /** The charges of a month: exactly its items' charges, one per item at most. */
  lemma {:induction false} ChargesForExact(items: seq<Item>, month: CalendarMonth)
    requires UniqueIds(items)
    ensures NoDup(ChargesFor(items, month))
    ensures forall c :: c in ChargesFor(items, month) <==> ChargeOf(items, month, c)
  {
    if items != [] {
      var n := |items| - 1;
      var rest, last := items[..n], items[n];
      ChargesForExact(rest, month);
      assert items == rest + [last];
      var mine := ItemCharges(last, month);
      forall c ensures c in mine <==> ChargeOf([last], month, c) {
        ItemChargesExact(last, month, c);
      }
      ItemChargesExact(last, month, ChargeOn(last, last.effectiveFrom));
      forall c ensures ChargeOf(items, month, c) <==> ChargeOf(rest, month, c) || ChargeOf([last], month, c) {
        ChargeOfAppend(rest, last, month, c);
      }
      forall c | c in mine ensures c !in ChargesFor(rest, month) {
        ChargeOfOther(items, month, c);
      }
      NoDupSmall(mine);
      NoDupAppend(ChargesFor(rest, month), mine);
    }
  }

  lemma ChargeOfAppend(rest: seq<Item>, last: Item, month: CalendarMonth, c: ScheduledCharge)
    ensures ChargeOf(rest + [last], month, c) <==> ChargeOf(rest, month, c) || ChargeOf([last], month, c)
  {
    if ChargeOf(rest + [last], month, c) {
      var item, day: Date :| item in rest + [last] && Billed(item, day) && day.InMonth() == month
                             && c == ChargeOn(item, day);
      assert item in rest || item in [last];
    }
    if ChargeOf(rest, month, c) {
      var item, day: Date :| item in rest && Billed(item, day) && day.InMonth() == month && c == ChargeOn(item, day);
      assert item in rest + [last];
    }
    if ChargeOf([last], month, c) {
      var item, day: Date :| item in [last] && Billed(item, day) && day.InMonth() == month && c == ChargeOn(item, day);
      assert item in rest + [last];
    }
  }

  lemma NoDupSmall<T>(s: seq<T>)
    requires |s| <= 1
    ensures NoDup(s)
  {
  }

  lemma LastNotBefore(items: seq<Item>)
    requires items != [] && UniqueIds(items)
    ensures items[|items| - 1] !in items[..|items| - 1]
  {
  }

  lemma ChargeOfOther(items: seq<Item>, month: CalendarMonth, c: ScheduledCharge)
    requires items != [] && UniqueIds(items) && ChargeOf([items[|items| - 1]], month, c)
    ensures !ChargeOf(items[..|items| - 1], month, c)
  {
    var rest, last := items[..|items| - 1], items[|items| - 1];
    if ChargeOf(rest, month, c) {
      var item, day: Date :| item in rest && Billed(item, day) && day.InMonth() == month && c == ChargeOn(item, day);
      LastNotBefore(items);
      UniqueSource(items, item, last);
      assert false;
    }
  }

  /** The schedule's charges: one per item and month at most, told apart by their source. */
  lemma ScheduleExact(items: seq<Item>, month: CalendarMonth)
    requires UniqueIds(items)
    ensures var cs := ScheduleFor(items, month).charges;
            && NoDup(cs)
            && (forall c :: c in cs <==> ChargeOf(items, month, c))
            && (forall a, b :: a in cs && b in cs && a.key == b.key ==> a == b)
  {
    var cs := ScheduleFor(items, month).charges;
    ChargesForExact(items, month);
    SortExact(ChargesFor(items, month), ChargeBefore);
    forall a, b | a in cs && b in cs && a.key == b.key ensures a == b {
      var i, x: Date :| i in items && Billed(i, x) && x.InMonth() == month && a == ChargeOn(i, x);
      var j, y: Date :| j in items && Billed(j, y) && y.InMonth() == month && b == ChargeOn(j, y);
      UniqueSource(items, i, j);
      OneChargeAMonth(i, x, y);
    }
  }

  /** What a scheduled charge says of its item: the same as the row that lands for it. */
  predicate ChargeSays(c: ScheduledCharge, item: Item, day: Date) {
    && c.key == "manual_cost_items:" + item.id && c.providerId == item.providerId && c.serviceId == item.serviceId
    && c.name == item.name && c.day == Some(day) && c.amountMicros == item.amountMicros && c.currency == item.currency
    && KindOfPeriod(item.period, c.kind, c.cadence)
  }

  lemma ScheduleSays(items: seq<Item>, month: CalendarMonth, c: ScheduledCharge)
    requires UniqueIds(items)
    ensures c in ScheduleFor(items, month).charges <==>
            exists item, day: Date ::
              item in items && Billed(item, day) && day.y == month.y && day.m == month.m && ChargeSays(c, item, day)
  {
    ScheduleExact(items, month);
    forall item: Item, day: Date ensures c == ChargeOn(item, day) <==> ChargeSays(c, item, day) {
      ChargeIsChargeOn(c, item, day);
    }
    hide ChargeSays, ChargeOn, ScheduleFor, Billed;
    if c in ScheduleFor(items, month).charges {
      var item, day: Date :| item in items && Billed(item, day) && day.InMonth() == month && c == ChargeOn(item, day);
      assert ChargeSays(c, item, day);
    }
  }

  lemma ChargeIsChargeOn(c: ScheduledCharge, item: Item, day: Date)
    ensures c == ChargeOn(item, day) <==> ChargeSays(c, item, day)
  {
  }

  /** An item whose range is not empty is active in the month exactly if it is in force on some day of it. */
  lemma ActiveExactly(item: Item, month: CalendarMonth)
    requires item.effectiveTo.Some? ==> Le(item.effectiveFrom, item.effectiveTo.value)
    ensures ActiveInMonth(item, month) <==>
            !item.period.OneTimeFee? && exists day: Date :: day.InMonth() == month && InForce(item, day)
  {
    var first := if Le(item.effectiveFrom, FirstOf(month)) then FirstOf(month) else item.effectiveFrom;
    if ActiveInMonth(item, month) {
      assert first.InMonth() == month && InForce(item, first);
    }
  }

  predicate CommitmentSays(c: Commitment, item: Item) {
    && c.key == "manual_cost_items:" + item.id && c.providerId == item.providerId && c.serviceId == item.serviceId
    && c.name == item.name && c.periodAmountMicros == item.amountMicros && c.currency == item.currency
    && c.cadence == if item.period.MonthlyFee? then MonthlyCadence else AnnualCadence
  }

  /** The commitments are the fees in force in the month, whether or not they are billed in it. */
  lemma {:induction false} CommitmentsExact(items: seq<Item>, month: CalendarMonth, c: Commitment)
    ensures c in CommitmentsFor(items, month) <==>
            exists item :: item in items && ActiveInMonth(item, month) && CommitmentSays(c, item)
  {
    if items != [] {
      hide ActiveInMonth;
      var n := |items| - 1;
      CommitmentsExact(items[..n], month, c);
      assert items == items[..n] + [items[n]];
      OneCommitment(items[n], month, c);
    }
  }

  lemma OneCommitment(item: Item, month: CalendarMonth, c: Commitment)
    ensures c in ItemCommitments(item, month) <==> ActiveInMonth(item, month) && CommitmentSays(c, item)
  {
  }

  // The month's manual money

  function ItemMonthMicros(month: CalendarMonth): Item -> int {
    (item: Item) => item.amountMicros * |ChargeDays(item, MonthRange(month))|
  }

  /** Every manual charge of the month, at its full amount. */
  function MonthManualMicros(items: seq<Item>, month: CalendarMonth): int { SumBy(items, ItemMonthMicros(month)) }

  lemma ItemChargesTotal(item: Item, month: CalendarMonth)
    ensures SumBy(ItemCharges(item, month), ChargeAmount()) == ItemMonthMicros(month)(item)
  {
    ItemChargesExact(item, month, ChargeOn(item, item.effectiveFrom));
    var cs := ItemCharges(item, month);
    if cs != [] {
      assert cs == [cs[0]];
      assert SumBy(cs[1..], ChargeAmount()) == 0;
    }
  }

  lemma {:induction false} ChargesTotal(items: seq<Item>, month: CalendarMonth)
    ensures SumBy(ChargesFor(items, month), ChargeAmount()) == MonthManualMicros(items, month)
  {
    if items != [] {
      var n := |items| - 1;
      ChargesTotal(items[..n], month);
      ItemChargesTotal(items[n], month);
      SumAppend(ChargesFor(items[..n], month), ItemCharges(items[n], month), ChargeAmount());
      assert items[..n + 1] == items;
      SumSnoc(items, n, ItemMonthMicros(month));
    }
  }

  lemma ScheduleTotal(items: seq<Item>, month: CalendarMonth)
    requires UniqueIds(items)
    ensures SumBy(ScheduleFor(items, month).charges, ChargeAmount()) == MonthManualMicros(items, month)
  {
    ChargesForExact(items, month);
    SortExact(ChargesFor(items, month), ChargeBefore);
    SumSameElements(SortCharges(ChargesFor(items, month)), ChargesFor(items, month), ChargeAmount());
    ChargesTotal(items, month);
  }
}
