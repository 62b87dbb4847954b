/**
 Manual cost items: a fee with a period, an effective range and a billing
 anchor. A row is a charge on the day it is billed, so everything rests on which
 days those are.
 */
module ManualCost {
  import opened Calendar
  import opened Wrappers
  import opened Budget
  import opened CostSources
  import opened Sums

  datatype Period = OneTimeFee | MonthlyFee | YearlyFee

  datatype Item = Item(
    id: string, providerId: string, serviceId: string, name: Option<string>, amountMicros: nat, currency: string,
    period: Period, effectiveFrom: Date, effectiveTo: Option<Date>)

  datatype DayRange = DayRange(from: Date, upTo: Date)

  function ClassifyPeriod(p: Period): (CostKind, Option<BillingCadence>) {
    match p
    case OneTimeFee => (OneTime, None)
    case MonthlyFee => (Recurring, Some(MonthlyCadence))
    case YearlyFee => (Recurring, Some(AnnualCadence))
  }

  // The days an item is billed, said without a range

  /** `day` is the clamped anchor of its own month (or of the item's month in its own year). */
  predicate IsAnchor(item: Item, day: Date) {
    match item.period
    case OneTimeFee => day == item.effectiveFrom
    case MonthlyFee => day == AnchorDayInMonth(day.InMonth(), item.effectiveFrom.d)
    case YearlyFee => day == AnchorDayInMonth(Month(day.y, item.effectiveFrom.m), item.effectiveFrom.d)
  }

  predicate InForce(item: Item, day: Date) {
    Le(item.effectiveFrom, day) && (item.effectiveTo.None? || Le(day, item.effectiveTo.value))
  }

  /** Billed on `day`: an anchor day inside the effective range, whose end a one-off ignores. */
  predicate Billed(item: Item, day: Date) {
    IsAnchor(item, day) && (item.period.OneTimeFee? || InForce(item, day))
  }

  predicate InRange(range: DayRange, day: Date) { Le(range.from, day) && Le(day, range.upTo) }

  // What the loops compute

  function KeepInRange(day: Date, from: Date, upTo: Date): seq<Date> {
    if Le(from, day) && Le(day, upTo) then [day] else []
  }

  function MonthlyDays(m: CalendarMonth, anchor: int, from: Date, upTo: Date): seq<Date>
    requires 1 <= anchor
    decreases upTo.InMonth().Index() - m.Index() + 1
  {
    if m.Index() > upTo.InMonth().Index() then []
    else KeepInRange(AnchorDayInMonth(m, anchor), from, upTo) + MonthlyDays(AddMonths(m, 1), anchor, from, upTo)
  }

  function YearlyDays(y: int, month: int, anchor: int, from: Date, upTo: Date): seq<Date>
    requires 1 <= anchor && 1 <= month <= 12
    decreases upTo.y - y + 1
  {
    if y > upTo.y then []
    else
      KeepInRange(AnchorDayInMonth(Month(y, month), anchor), from, upTo)
      + YearlyDays(y + 1, month, anchor, from, upTo)
  }

  function LowerEnd(item: Item, range: DayRange): Date {
    if Lt(range.from, item.effectiveFrom) then item.effectiveFrom else range.from
  }

  function UpperEnd(item: Item, range: DayRange): Date {
    if item.effectiveTo.Some? && Lt(item.effectiveTo.value, range.upTo) then item.effectiveTo.value else range.upTo
  }

  function ChargeDays(item: Item, range: DayRange): seq<Date> {
    var from, upTo := LowerEnd(item, range), UpperEnd(item, range);
    match item.period
    case OneTimeFee => KeepInRange(item.effectiveFrom, range.from, range.upTo)
    case MonthlyFee => if Lt(upTo, from) then [] else MonthlyDays(from.InMonth(), item.effectiveFrom.d, from, upTo)
    case YearlyFee =>
      if Lt(upTo, from) then [] else YearlyDays(from.y, item.effectiveFrom.m, item.effectiveFrom.d, from, upTo)
  }

  lemma MonthlyDaysUnfold(m: CalendarMonth, anchor: int, from: Date, upTo: Date, before: seq<Date>)
    requires 1 <= anchor
    ensures before + MonthlyDays(m, anchor, from, upTo) ==
            if m.Index() > upTo.InMonth().Index() then before
            else
              before + KeepInRange(AnchorDayInMonth(m, anchor), from, upTo)
              + MonthlyDays(AddMonths(m, 1), anchor, from, upTo)
  {
  }

  lemma YearlyDaysUnfold(y: int, month: int, anchor: int, from: Date, upTo: Date, before: seq<Date>)
    requires 1 <= anchor && 1 <= month <= 12
    ensures before + YearlyDays(y, month, anchor, from, upTo) ==
            if y > upTo.y then before
            else
              before + KeepInRange(AnchorDayInMonth(Month(y, month), anchor), from, upTo)
              + YearlyDays(y + 1, month, anchor, from, upTo)
  {
  }

  method MonthlyLoop(start: CalendarMonth, anchor: int, from: Date, upTo: Date) returns (out: seq<Date>)
    requires 1 <= anchor
    ensures out == MonthlyDays(start, anchor, from, upTo)
  {
    hide MonthlyDays, AnchorDayInMonth, AddMonths;
    out := [];
    var m := start;
    while m.Index() <= upTo.InMonth().Index()
      invariant out + MonthlyDays(m, anchor, from, upTo) == MonthlyDays(start, anchor, from, upTo)
      decreases upTo.InMonth().Index() - m.Index() + 1
    {
      MonthlyDaysUnfold(m, anchor, from, upTo, out);
      var day := AnchorDayInMonth(m, anchor);
      if Le(from, day) && Le(day, upTo) { out := out + [day]; }
      m := AddMonths(m, 1);
    }
    MonthlyDaysUnfold(m, anchor, from, upTo, out);
  }

  method YearlyLoop(start: int, month: int, anchor: int, from: Date, upTo: Date) returns (out: seq<Date>)
    requires 1 <= anchor && 1 <= month <= 12
    ensures out == YearlyDays(start, month, anchor, from, upTo)
  {
    hide YearlyDays, AnchorDayInMonth;
    out := [];
    var y := start;
    while y <= upTo.y
      invariant out + YearlyDays(y, month, anchor, from, upTo) == YearlyDays(start, month, anchor, from, upTo)
      decreases upTo.y - y + 1
    {
      YearlyDaysUnfold(y, month, anchor, from, upTo, out);
      var day := AnchorDayInMonth(Month(y, month), anchor);
      if Le(from, day) && Le(day, upTo) { out := out + [day]; }
      y := y + 1;
    }
    YearlyDaysUnfold(y, month, anchor, from, upTo, out);
  }

  method ComputeChargeDays(item: Item, range: DayRange) returns (out: seq<Date>)
    ensures out == ChargeDays(item, range)
  {
    if item.period.OneTimeFee? {
      var d := item.effectiveFrom;
      return if Le(range.from, d) && Le(d, range.upTo) then [d] else [];
    }
    var from := if Lt(range.from, item.effectiveFrom) then item.effectiveFrom else range.from;
    var ends := item.effectiveTo.Some? && Lt(item.effectiveTo.value, range.upTo);
    var upTo := if ends then item.effectiveTo.value else range.upTo;
    if Lt(upTo, from) {
      return [];
    }
    if item.period.MonthlyFee? {
      out := MonthlyLoop(from.InMonth(), item.effectiveFrom.d, from, upTo);
    } else {
      out := YearlyLoop(from.y, item.effectiveFrom.m, item.effectiveFrom.d, from, upTo);
    }
  }

  // Exactness

  lemma {:induction false} MonthlyDaysExact(m: CalendarMonth, anchor: int, from: Date, upTo: Date)
    requires 1 <= anchor
    ensures Increasing(MonthlyDays(m, anchor, from, upTo))
    ensures forall x: Date :: x in MonthlyDays(m, anchor, from, upTo) <==>
              && x == AnchorDayInMonth(x.InMonth(), anchor)
              && m.Index() <= x.InMonth().Index() && Le(from, x) && Le(x, upTo)
    decreases upTo.InMonth().Index() - m.Index() + 1
  {
    if m.Index() <= upTo.InMonth().Index() {
      var next := AddMonths(m, 1);
      var head, rest := KeepInRange(AnchorDayInMonth(m, anchor), from, upTo), MonthlyDays(next, anchor, from, upTo);
      MonthlyDaysExact(next, anchor, from, upTo);
      forall x: Date | x.InMonth().Index() == m.Index() ensures x.InMonth() == m {}
      forall x: Date | x in rest ensures head != [] ==> Lt(head[0], x) {
        assert head != [] ==> head[0].InMonth().Index() < x.InMonth().Index();
      }
    }
  }

  lemma {:induction false} YearlyDaysExact(y: int, month: int, anchor: int, from: Date, upTo: Date)
    requires 1 <= anchor && 1 <= month <= 12
    ensures Increasing(YearlyDays(y, month, anchor, from, upTo))
    ensures forall x: Date :: x in YearlyDays(y, month, anchor, from, upTo) <==>
        YearlyAnchor(y, month, anchor, from, upTo, x)
    decreases upTo.y - y + 1
  {
    if y <= upTo.y {
      var head, rest := KeepInRange(AnchorDayInMonth(Month(y, month), anchor), from, upTo),
          YearlyDays(y + 1, month, anchor, from, upTo);
      YearlyDaysExact(y + 1, month, anchor, from, upTo);
      forall x: Date | x in rest ensures head != [] ==> Lt(head[0], x) {
        assert YearlyAnchor(y + 1, month, anchor, from, upTo, x);
      }
      forall x: Date
        ensures YearlyAnchor(y, month, anchor, from, upTo, x) <==>
                x in head || YearlyAnchor(y + 1, month, anchor, from, upTo, x)
      {
      }
    }
  }

  /** An anchor of `month` in year `y` or later, inside the range. */
  predicate YearlyAnchor(y: int, month: int, anchor: int, from: Date, upTo: Date, x: Date)
    requires 1 <= anchor && 1 <= month <= 12
  {
    x == AnchorDayInMonth(Month(x.y, month), anchor) && y <= x.y && Le(from, x) && Le(x, upTo)
  }

  /** `chargeDays` lists, in order and once each, exactly the billed days of the range. */
  lemma ChargeDaysExact(item: Item, range: DayRange)
    ensures Increasing(ChargeDays(item, range))
    ensures forall x: Date :: x in ChargeDays(item, range) <==> InRange(range, x) && Billed(item, x)
  {
    var from, upTo := LowerEnd(item, range), UpperEnd(item, range);
    if item.period.MonthlyFee? {
      MonthlyDaysExact(from.InMonth(), item.effectiveFrom.d, from, upTo);
    } else if item.period.YearlyFee? {
      YearlyDaysExact(from.y, item.effectiveFrom.m, item.effectiveFrom.d, from, upTo);
    }
  }

  /** Ranges that meet end to end: their charge days concatenate. */
  lemma ChargeDaysAdditive(item: Item, a: Date, b: Date, c: Date)
    requires Le(a, NextDay(b)) && Le(b, c)
    ensures ChargeDays(item, DayRange(a, c)) ==
            ChargeDays(item, DayRange(a, b)) + ChargeDays(item, DayRange(NextDay(b), c))
  {
    var whole := ChargeDays(item, DayRange(a, c));
    var left, right := ChargeDays(item, DayRange(a, b)), ChargeDays(item, DayRange(NextDay(b), c));
    ChargeDaysExact(item, DayRange(a, c));
    ChargeDaysExact(item, DayRange(a, b));
    ChargeDaysExact(item, DayRange(NextDay(b), c));
    forall x: Date, y: Date | x in left && y in right ensures Lt(x, y) {
      NextDayAdjacent(b, x);
    }
    forall x: Date ensures x in whole <==> x in left + right {
      NextDayAdjacent(b, x);
    }
    IncreasingUnique(whole, left + right);
  }

  /** No item has two charge days in one month. */
  lemma OneChargeAMonth(item: Item, x: Date, y: Date)
    requires Billed(item, x) && Billed(item, y) && x.InMonth() == y.InMonth()
    ensures x == y
  {
  }

  // The next charge

  function Horizon(item: Item, today: Date): Date {
    if item.period.MonthlyFee? then AddDays(today, 62) else AddDays(today, 2 * 366)
  }

  method NextChargeDay(item: Item, today: Date) returns (r: Option<Date>)
    ensures r == NextCharge(item, today)
  {
    if item.period.OneTimeFee? {
      return if Le(today, item.effectiveFrom) then Some(item.effectiveFrom) else None;
    }
    if item.effectiveTo.Some? && Lt(item.effectiveTo.value, today) {
      return None;
    }
    var days := ComputeChargeDays(item, DayRange(today, Horizon(item, today)));
    r := if days != [] then Some(days[0]) else None;
  }

  function NextCharge(item: Item, today: Date): Option<Date> {
    if item.period.OneTimeFee? then (if Le(today, item.effectiveFrom) then Some(item.effectiveFrom) else None)
    else if item.effectiveTo.Some? && Lt(item.effectiveTo.value, today) then None
    else
      var days := ChargeDays(item, DayRange(today, Horizon(item, today)));
      if days != [] then Some(days[0]) else None
  }

  ghost predicate LeastBilledFrom(item: Item, today: Date, x: Date) {
    && Le(today, x) && Billed(item, x)
    && forall y: Date :: Le(today, y) && Billed(item, y) ==> Le(x, y)
  }

  /** The promise: the least charge day on or after today, `null` exactly when there is none. */
  ghost predicate AnswersNextCharge(item: Item, today: Date, r: Option<Date>) {
    match r
    case Some(x) => LeastBilledFrom(item, today, x)
    case None => forall y: Date :: Le(today, y) ==> !Billed(item, y)
  }

  /** The anchor on or after `today`: this period's if it is not past, else the next period's. */
  function NextAnchor(item: Item, today: Date): Date
    requires !item.period.OneTimeFee?
  {
    var d := item.effectiveFrom.d;
    if item.period.MonthlyFee? then
      var here := AnchorDayInMonth(today.InMonth(), d);
      if Le(today, here) then here else AnchorDayInMonth(AddMonths(today.InMonth(), 1), d)
    else
      var here := AnchorDayInMonth(Month(today.y, item.effectiveFrom.m), d);
      if Le(today, here) then here else AnchorDayInMonth(Month(today.y + 1, item.effectiveFrom.m), d)
  }

  lemma NextAnchorLeast(item: Item, today: Date)
    requires !item.period.OneTimeFee?
    ensures Le(today, NextAnchor(item, today)) && IsAnchor(item, NextAnchor(item, today))
    ensures forall y: Date :: Le(today, y) && IsAnchor(item, y) ==> Le(NextAnchor(item, today), y)
  {
    var n := NextAnchor(item, today);
    if item.period.MonthlyFee? {
      AddMonthsOne(today.InMonth());
      forall y: Date | Le(today, y) && IsAnchor(item, y) ensures Le(n, y) {
        assert today.InMonth().Index() <= y.InMonth().Index();
        if y.InMonth().Index() == today.InMonth().Index() {
          assert y.InMonth() == today.InMonth();
        } else if y.InMonth().Index() == today.InMonth().Index() + 1 {
          assert y.InMonth() == AddMonths(today.InMonth(), 1);
        }
      }
    }
  }

  lemma MonthsWithin(m: CalendarMonth)
    ensures MonthStart(AddMonths(m, 1)) <= MonthStart(m) + 31
  {
    MonthStartStep(m);
  }

  lemma YearsWithin(y: int, month: int)
    requires 1 <= month <= 12
    ensures MonthStart(Month(y + 1, month)) + 31 <= YearStart(y) + 732
    ensures YearStart(y) <= MonthStart(Month(y, month))
    ensures MonthStart(Month(y, month)) + DaysInMonth(Month(y, month)) <= YearStart(y) + 366
  {
    YearLength(y);
    YearLength(y + 1);
    WithinYear(y, month);
    WithinYear(y + 1, month);
  }

  lemma WithinYear(y: int, month: int)
    requires 1 <= month <= 12
    ensures YearStart(y) <= MonthStart(Month(y, month))
    ensures MonthStart(Month(y, month)) + DaysInMonth(Month(y, month)) <= YearStart(y) + DaysInYear(y)
    ensures MonthStart(Month(y, month)) + 31 <= YearStart(y) + DaysInYear(y)
  {
    var first: CalendarMonth, last: CalendarMonth, m: CalendarMonth := Month(y, 1), Month(y, 12), Month(y, month);
    MonthStartsInYear(y);
    if month < 12 { MonthStartMonotone(m, last); }
    if month > 1 { MonthStartMonotone(first, m); }
  }

  lemma NextMonthlyWithin(item: Item, today: Date)
    requires item.period.MonthlyFee?
    ensures DayNumber(NextAnchor(item, today)) <= DayNumber(today) + 62
  {
    MonthsWithin(today.InMonth());
  }

  lemma NextYearlyWithin(item: Item, today: Date)
    requires item.period.YearlyFee?
    ensures DayNumber(NextAnchor(item, today)) <= DayNumber(today) + 2 * 366
  {
    hide MonthStart, YearStart;
    YearsWithin(today.y, item.effectiveFrom.m);
    WithinYear(today.y, today.m);
  }

  lemma NextAnchorWithinHorizon(item: Item, today: Date)
    requires !item.period.OneTimeFee?
    ensures Le(NextAnchor(item, today), Horizon(item, today))
  {
    hide NextAnchor, DayNumber, AddDays;
    DayNumberOrder(NextAnchor(item, today), Horizon(item, today));
    if item.period.MonthlyFee? {
      AddDaysNumber(today, 62);
      NextMonthlyWithin(item, today);
    } else {
      AddDaysNumber(today, 2 * 366);
      NextYearlyWithin(item, today);
    }
  }

  /** The guard: a recurring item that starts past the horizon and is ever billed. */
  predicate StartsPastHorizon(item: Item, today: Date) {
    && !item.period.OneTimeFee?
    && Lt(Horizon(item, today), item.effectiveFrom)
    && (item.effectiveTo.None? || Le(item.effectiveFrom, item.effectiveTo.value))
  }

  lemma HorizonAhead(item: Item, today: Date)
    ensures Le(today, Horizon(item, today))
  {
    AddDaysNumber(today, 62);
    AddDaysNumber(today, 2 * 366);
    DayNumberOrder(today, Horizon(item, today));
  }

  lemma StartIsAnchor(item: Item)
    ensures IsAnchor(item, item.effectiveFrom)
  {
  }

  lemma PastHorizonAnswersNone(item: Item, today: Date)
    requires StartsPastHorizon(item, today)
    ensures NextCharge(item, today) == None
    ensures Le(today, item.effectiveFrom) && Billed(item, item.effectiveFrom)
  {
    var range := DayRange(today, Horizon(item, today));
    var days := ChargeDays(item, range);
    assert days != [] ==> days[0] in days;
    HorizonAhead(item, today);
    ChargeDaysExact(item, range);
    StartIsAnchor(item);
  }

  /** Whatever is billed from today on, the search range holds something billed no later. */
  lemma SearchFinds(item: Item, today: Date, x: Date) returns (w: Date)
    requires !item.period.OneTimeFee? && !StartsPastHorizon(item, today)
    requires Le(today, x) && Billed(item, x)
    ensures InRange(DayRange(today, Horizon(item, today)), w) && Billed(item, w) && Le(w, x)
  {
    NextAnchorLeast(item, today);
    NextAnchorWithinHorizon(item, today);
    StartIsAnchor(item);
    w := if Lt(today, item.effectiveFrom) then item.effectiveFrom else NextAnchor(item, today);
  }

  lemma SearchComplete(item: Item, today: Date)
    requires !item.period.OneTimeFee? && !StartsPastHorizon(item, today)
    ensures AnswersNextCharge(item, today, NextCharge(item, today))
  {
    hide Billed, Horizon, StartsPastHorizon;
    var range := DayRange(today, Horizon(item, today));
    var days := ChargeDays(item, range);
    assert days != [] ==> days[0] in days;
    ChargeDaysExact(item, range);
    EndedAnswersNone(item, today);
    forall x: Date | Le(today, x) && Billed(item, x)
      ensures days != [] && Le(days[0], x)
    {
      var w := SearchFinds(item, today, x);
      assert w in days;
    }
  }

  lemma EndedAnswersNone(item: Item, today: Date)
    requires !item.period.OneTimeFee?
    ensures item.effectiveTo.Some? && Lt(item.effectiveTo.value, today) ==>
            forall x: Date :: Le(today, x) ==> !Billed(item, x)
  {
  }

  /** The bounded search is complete, except exactly for an item that starts past its horizon. */
  lemma NextChargeExact(item: Item, today: Date)
    ensures AnswersNextCharge(item, today, NextCharge(item, today)) <==> !StartsPastHorizon(item, today)
  {
    if !item.period.OneTimeFee? {
      if StartsPastHorizon(item, today) {
        PastHorizonAnswersNone(item, today);
      } else {
        SearchComplete(item, today);
      }
    }
  }

  function NextYearsFee(): Item { Item("i", "p", "s", None, 1, "USD", MonthlyFee, Day(2027, 1, 1), None) }

  /** A monthly fee entered a year before it starts: the code reports no charge ahead, although its first day is one. */
  lemma LateStartReportsNone()
    ensures var today: Date := Day(2026, 1, 1);
      && NextCharge(NextYearsFee(), today) == None
      && Le(today, Day(2027, 1, 1)) && Billed(NextYearsFee(), Day(2027, 1, 1))
  {
    var today: Date := Day(2026, 1, 1);
    AddDaysNumber(today, 62);
    YearLength(2026);
    DayNumberOrder(NextYearsFee().effectiveFrom, Horizon(NextYearsFee(), today));
    PastHorizonAnswersNone(NextYearsFee(), today);
  }
}
