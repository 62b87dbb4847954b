/**
 What else the forecast says of a month of manual items: the run-rate is the fees
 in force, and the pending list the charges whose day is still ahead.
 */
module ForecastSchedule {
  import opened Calendar
  import opened Sums
  import opened Sorting
  import opened Wrappers
  import opened Budget
  import opened CostSources
  import opened ManualCost
  import opened Forecast
  import opened ManualPlan
  import opened ForecastFloor

  // Run-rate

  function MonthlyFee(month: CalendarMonth): Item -> int {
    (item: Item) => if item.period.MonthlyFee? && ActiveInMonth(item, month) then item.amountMicros else 0
  }

  function YearlyShare(month: CalendarMonth): Item -> int {
    (item: Item) => if item.period.YearlyFee? && ActiveInMonth(item, month) then RoundDiv(item.amountMicros, 12) else 0
  }

  function MonthlyPart(): Commitment -> int {
    (c: Commitment) => if c.cadence.MonthlyCadence? then c.periodAmountMicros else 0
  }

  function AnnualPart(): Commitment -> int {
    (c: Commitment) => if c.cadence.AnnualCadence? then RoundDiv(c.periodAmountMicros, 12) else 0
  }

  lemma {:induction false} NothingCommitted(schedule: MonthSchedule, latest: Ordered<CostRow>, keys: seq<ChargeKey>)
    requires forall k :: k in keys ==> k in latest.vals
    requires forall k :: k in keys ==> ScheduledKey(schedule, k)
    ensures WithCommitted(schedule, latest, keys) == CommitmentsOf(schedule.commitments)
  {
    if keys != [] {
      var n := |keys| - 1;
      assert keys[n] in keys;
      NothingCommitted(schedule, latest, keys[..n]);
    }
  }

  ghost predicate KeysDiffer(cs: seq<Commitment>) {
    forall i, j :: 0 <= i < j < |cs| ==> cs[i].key != cs[j].key
  }

  /** With keys that differ, the commitment map lists each commitment once, in order. */
  lemma {:induction false} CommitmentsListed(cs: seq<Commitment>)
    requires KeysDiffer(cs)
    ensures var m := CommitmentsOf(cs);
      && |m.keys| == |cs|
      && (forall i :: 0 <= i < |cs| ==>
            m.keys[i] == BySource(cs[i].key) && m.Has(m.keys[i]) && m.vals[m.keys[i]] == cs[i])
      && (forall k :: m.Has(k) ==> k in m.keys)
  {
    if cs != [] {
      var n := |cs| - 1;
      CommitmentsListed(cs[..n]);
      var before := CommitmentsOf(cs[..n]);
      assert !before.Has(BySource(cs[n].key));
    }
  }

  lemma {:induction false} CommitmentKeys(items: seq<Item>, month: CalendarMonth)
    requires UniqueIds(items)
    ensures KeysDiffer(CommitmentsFor(items, month))
    ensures forall c :: c in CommitmentsFor(items, month) ==>
        exists item :: item in items && c.key == ManualCostSource(item.id)
  {
    if items != [] {
      var n := |items| - 1;
      var rest, mine := CommitmentsFor(items[..n], month), ItemCommitments(items[n], month);
      CommitmentKeys(items[..n], month);
      forall c | c in rest ensures c.key != ManualCostSource(items[n].id) {
        var item :| item in items[..n] && c.key == ManualCostSource(item.id);
        OtherSource(items, item);
      }
      forall c | c in rest + mine ensures exists item :: item in items && c.key == ManualCostSource(item.id) {
        if c in rest {
          var item :| item in items[..n] && c.key == ManualCostSource(item.id);
          assert item in items;
        } else {
          assert items[n] in items;
        }
      }
    }
  }

  lemma OtherSource(items: seq<Item>, item: Item)
    requires items != [] && UniqueIds(items) && item in items[..|items| - 1]
    ensures ManualCostSource(item.id) != ManualCostSource(items[|items| - 1].id)
  {
    LastNotBefore(items);
    if ManualCostSource(item.id) == ManualCostSource(items[|items| - 1].id) {
      UniqueSource(items, item, items[|items| - 1]);
    }
  }

  lemma {:induction false} CommitmentTotals(items: seq<Item>, month: CalendarMonth)
    ensures SumBy(CommitmentsFor(items, month), MonthlyPart()) == SumBy(items, MonthlyFee(month))
    ensures SumBy(CommitmentsFor(items, month), AnnualPart()) == SumBy(items, YearlyShare(month))
  {
    if items != [] {
      var n := |items| - 1;
      CommitmentTotals(items[..n], month);
      var rest, mine := CommitmentsFor(items[..n], month), ItemCommitments(items[n], month);
      SumAppend(rest, mine, MonthlyPart());
      SumAppend(rest, mine, AnnualPart());
      assert mine != [] ==> mine[1..] == [];
      assert items[..n + 1] == items;
      SumSnoc(items, n, MonthlyFee(month));
      SumSnoc(items, n, YearlyShare(month));
    }
  }

  /** On every day of the month the run-rate is the fees in force: monthly ones whole, yearly ones by the twelfth. */
  lemma RunRateIsActiveFees(items: seq<Item>, month: CalendarMonth, today: Date, rows: seq<CostRow>)
    requires UniqueIds(items) && RowsAsOf(items, month, today, rows)
    ensures RunRateOf(ScheduleFor(items, month), RowsOfKind(MonthRows(rows, month), Recurring))
            == RunRate(SumBy(items, MonthlyFee(month)), SumBy(items, YearlyShare(month)))
  {
    hide SumBy, Filter, RowsOfKind, MonthRows, RowsAsOf, LandedRow, LatestOf, WithCommitted, CommitmentsOf,
        SortCharges, ChargesFor;
    var schedule, rs := ScheduleFor(items, month), RowsOfKind(MonthRows(rows, month), Recurring);
    var latest, m := LatestOf(schedule, rs), CommitmentsOf(schedule.commitments);
    RowsOfKindLanded(items, month, today, rows, Recurring);
    forall r | r in rs ensures ScheduledSource(schedule, r.source) {
      var c := LandedIsScheduled(items, month, today, r);
    }
    MapsValid(schedule, rs);
    LatestScheduled(schedule, rs);
    NothingCommitted(schedule, latest, latest.keys);
    CommitmentKeys(items, month);
    CommitmentsListed(schedule.commitments);
    SumMapped(m.keys, schedule.commitments, MonthlyAt(m), MonthlyPart());
    SumMapped(m.keys, schedule.commitments, AnnualShareAt(m), AnnualPart());
    CommitmentTotals(items, month);
  }

  // Pending

  /** A scheduled charge has landed exactly when its day has come. */
  lemma LandedIffDue(
      items: seq<Item>, month: CalendarMonth, today: Date, rs: seq<CostRow>, k: CostKind, c: ScheduledCharge)
    requires UniqueIds(items) && LandedOfKind(items, month, today, k, rs)
    requires c in ScheduleFor(items, month).charges && c.kind == k
    ensures c.day.Some?
    ensures (exists r :: r in rs && r.source == c.key) <==> Le(c.day.value, today)
    ensures forall r :: r in rs && r.source == c.key ==> r.amountMicros == c.amountMicros
  {
    hide ScheduleFor, ChargeDays;
    ScheduleExact(items, month);
    var item, day: Date :| item in items && Billed(item, day) && day.InMonth() == month && c == ChargeOn(item, day);
    forall r | r in rs && r.source == c.key ensures Le(day, today) && r.amountMicros == c.amountMicros {
      var other, x: Date :| other in items && DueBy(other, today, x) && r == CostOf(PlanRow(other, x));
      UniqueSource(items, item, other);
      OneChargeAMonth(item, day, x);
    }
    if Le(day, today) {
      var r := CostOf(PlanRow(item, day));
      assert DueBy(item, today, day);
      assert LandedRow(items, today, r);
      assert r in rs && r.source == c.key;
    }
  }

  /** A scheduled charge with its day ahead; a recurring one of nothing is never pending. */
  predicate Ahead(today: Date, c: ScheduledCharge) {
    c.day.Some? && Lt(today, c.day.value) && (c.kind.OneTime? || c.amountMicros > 0)
  }

  lemma {:induction false} PendingMember(
      charges: Ordered<ScheduledCharge>, landed: Ordered<int>, keys: seq<ChargeKey>, c: ScheduledCharge)
    requires forall k :: k in keys ==> charges.Has(k)
    ensures c in PendingAt(charges, landed, keys) <==>
            exists k :: k in keys && RemainingAt(charges, landed)(k) > 0
                        && c == charges.vals[k].(amountMicros := RemainingAt(charges, landed)(k))
  {
    if keys != [] {
      var n := |keys| - 1;
      PendingMember(charges, landed, keys[..n], c);
      assert keys == keys[..n] + [keys[n]];
    }
  }

  /** What remains of one scheduled recurring charge: all of it before its day, nothing from then on. */
  lemma RemainingIsAhead(
      items: seq<Item>, month: CalendarMonth, today: Date, rs: seq<CostRow>, k: ChargeKey)
    returns (c: ScheduledCharge)
    requires UniqueIds(items) && LandedOfKind(items, month, today, Recurring, rs)
    requires ChargesOf(ScheduleFor(items, month).charges).Has(k)
    ensures var schedule := ScheduleFor(items, month);
      var charges, landed := ChargesOf(schedule.charges), LandedOf(schedule, rs);
      && c in schedule.charges && c.kind.Recurring? && k == BySource(c.key) && charges.vals[k] == c && c.day.Some?
      && RemainingAt(charges, landed)(k) == if Lt(today, c.day.value) then c.amountMicros else 0
  {
    hide ScheduleFor, ChargesOf, LandedOf, LandedOfKind, LandedRow;
    var schedule := ScheduleFor(items, month);
    ScheduleExact(items, month);
    c := ChargeAt(schedule.charges, k);
    LandedIffDue(items, month, today, rs, Recurring, c);
    ChargeNotNegative(items, month, c);
    LandedSources(items, month, today, rs);
    LandedExact(schedule, rs);
    BeforeOrAfter(today, c.day.value);
    if LandedOf(schedule, rs).Has(k) {
      var r :| r in rs && k == BySource(r.source);
      assert r.source == c.key;
    }
  }

  lemma BeforeOrAfter(a: Date, b: Date)
    ensures Lt(a, b) <==> !Le(b, a)
  {
  }

  lemma ChargeNotNegative(items: seq<Item>, month: CalendarMonth, c: ScheduledCharge)
    requires UniqueIds(items) && c in ScheduleFor(items, month).charges
    ensures c.amountMicros >= 0 && !c.kind.Usage?
  {
    hide ScheduleFor;
    ScheduleExact(items, month);
    var item, day: Date :| item in items && Billed(item, day) && day.InMonth() == month && c == ChargeOn(item, day);
  }

  lemma LandedSources(items: seq<Item>, month: CalendarMonth, today: Date, rs: seq<CostRow>)
    requires UniqueIds(items) && LandedOfKind(items, month, today, Recurring, rs)
    ensures AllScheduled(ScheduleFor(items, month), rs) && SourcesTellApart(rs)
  {
    hide ScheduleFor, LandedRow;
    forall r | r in rs ensures ScheduledSource(ScheduleFor(items, month), r.source) {
      var c := LandedIsScheduled(items, month, today, r);
    }
    forall a, b | a in rs && b in rs && a.source == b.source ensures a == b {
      LandedSourceUnique(items, month, today, a, b);
    }
  }

  lemma RecurringPendingExact(items: seq<Item>, month: CalendarMonth, today: Date, rs: seq<CostRow>, c: ScheduledCharge)
    requires UniqueIds(items) && LandedOfKind(items, month, today, Recurring, rs)
    ensures c in RecurringPending(ScheduleFor(items, month), rs) <==>
            c in ScheduleFor(items, month).charges && c.kind.Recurring? && Ahead(today, c)
  {
    hide ScheduleFor, ChargesOf, LandedOf, LatestOf, LandedOfKind, LandedRow, PendingAt, WithDeclared;
    var schedule := ScheduleFor(items, month);
    var charges, landed := ChargesOf(schedule.charges), LandedOf(schedule, rs);
    ScheduleExact(items, month);
    LandedSources(items, month, today, rs);
    ScheduleIsAll(schedule, rs);
    ChargesValid(schedule.charges);
    ChargesOfExact(schedule.charges);
    PendingMember(charges, landed, charges.keys, c);
    assert RecurringPending(schedule, rs) == PendingAt(charges, landed, charges.keys);
    if c in PendingAt(charges, landed, charges.keys) {
      var k :| k in charges.keys && RemainingAt(charges, landed)(k) > 0
               && c == charges.vals[k].(amountMicros := RemainingAt(charges, landed)(k));
      var d := RemainingIsAhead(items, month, today, rs, k);
      assert c == d;
    }
    if c in schedule.charges && c.kind.Recurring? && Ahead(today, c) {
      var k := BySource(c.key);
      assert charges.Has(k);
      var d := RemainingIsAhead(items, month, today, rs, k);
      assert d == c && k in charges.keys;
    }
  }

  lemma OneTimePendingExact(items: seq<Item>, month: CalendarMonth, today: Date, rs: seq<CostRow>, c: ScheduledCharge)
    requires UniqueIds(items) && LandedOfKind(items, month, today, OneTime, rs)
    ensures c in Filter(ScheduleFor(items, month).charges, StillDue(SourceSet(rs))) <==>
            c in ScheduleFor(items, month).charges && c.kind.OneTime? && Ahead(today, c)
  {
    hide ScheduleFor, LandedOfKind, Filter;
    var cs := ScheduleFor(items, month).charges;
    FilterMember(cs, StillDue(SourceSet(rs)));
    if c in cs && c.kind.OneTime? {
      LandedIffDue(items, month, today, rs, OneTime, c);
      BeforeOrAfter(today, c.day.value);
      assert c.key in SourceSet(rs) <==> exists r :: r in rs && r.source == c.key;
    }
  }

  /** The pending list is the month's charges whose day is still ahead, each at its full amount. */
  lemma PendingIsAhead(items: seq<Item>, month: CalendarMonth, today: Date, rows: seq<CostRow>, c: ScheduledCharge)
    requires UniqueIds(items) && RowsAsOf(items, month, today, rows)
    ensures c in PendingOf(month, rows, ScheduleFor(items, month)) <==>
        c in ScheduleFor(items, month).charges && Ahead(today, c)
  {
    hide ScheduleFor, Filter, RowsOfKind, MonthRows, RowsAsOf, RecurringPending, StableSort, LandedOfKind, ChargeBefore;
    var schedule, inMonth := ScheduleFor(items, month), MonthRows(rows, month);
    var rec, one := RowsOfKind(inMonth, Recurring), RowsOfKind(inMonth, OneTime);
    RowsOfKindLanded(items, month, today, rows, Recurring);
    RowsOfKindLanded(items, month, today, rows, OneTime);
    RecurringPendingExact(items, month, today, rec, c);
    OneTimePendingExact(items, month, today, one, c);
    SortExact(RecurringPending(schedule, rec) + Filter(schedule.charges, StillDue(SourceSet(one))), ChargeBefore);
    if c in schedule.charges {
      ChargeNotNegative(items, month, c);
    }
  }

  /** The list is in day order, and by name within a day. */
  lemma PendingInOrder(month: CalendarMonth, rows: seq<CostRow>, schedule: MonthSchedule)
    ensures SortedBy(PendingOf(month, rows, schedule), ChargeBefore)
    ensures var pending := PendingOf(month, rows, schedule);
      forall i, j :: 0 <= i < j < |pending| ==>
        && (pending[i].day.None? ==> pending[j].day.None?)
        && (pending[i].day.Some? && pending[j].day.Some? ==> Le(pending[i].day.value, pending[j].day.value))
        && (pending[i].day == pending[j].day ==> !Before(pending[j].key, pending[i].key))
  {
    hide Filter, RowsOfKind, MonthRows, RecurringPending, StableSort;
    var inMonth := MonthRows(rows, month);
    ChargeOrder();
    SortSorted(RecurringPending(schedule, RowsOfKind(inMonth, Recurring))
               + Filter(schedule.charges, StillDue(SourceSet(RowsOfKind(inMonth, OneTime)))), ChargeBefore);
  }

  lemma ChargeOrder()
    ensures WeakOrder(ChargeBefore)
  {
    forall x, y ensures !(ChargeBefore(x, y) && ChargeBefore(y, x)) {
      BeforeTotal(x.key, y.key);
    }
    forall x, y, z | !ChargeBefore(y, x) && !ChargeBefore(z, y) ensures !ChargeBefore(z, x) {
      if x.day == y.day == z.day {
        NamesChain(x.key, y.key, z.key);
      }
    }
  }
}
