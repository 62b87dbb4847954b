/**
 The month's forecast. Landed rows are matched against the schedule of known
 charges, so a charge moves from "scheduled" to "landed" without moving the sum.
 */
module Forecast {
  import opened Calendar
  import opened Sums
  import opened Wrappers
  import opened Budget
  import opened CostSources
  import opened Sorting

  datatype ScheduledCharge = ScheduledCharge(
    key: string, providerId: string, serviceId: string, name: Option<string>, kind: CostKind,
    cadence: Option<BillingCadence>, day: Option<Date>, amountMicros: int, currency: string)

  datatype Commitment = Commitment(
    key: string, providerId: string, serviceId: string, name: Option<string>, cadence: BillingCadence,
    periodAmountMicros: int, currency: string)

  datatype MonthSchedule = MonthSchedule(charges: seq<ScheduledCharge>, commitments: seq<Commitment>)

  /** A map key of the forecast: a scheduled source, or a row's (source, provider, service). */
  datatype ChargeKey = BySource(source: string) | ByRow(source: string, providerId: string, serviceId: string)

  /** A JavaScript `Map`: values by key, and the keys in insertion order. */
  datatype Ordered<V> = Ordered(keys: seq<ChargeKey>, vals: map<ChargeKey, V>) {
    ghost predicate Valid() { NoDup(keys) && forall k :: k in keys <==> k in vals }
    function Has(k: ChargeKey): bool { k in vals }
    function Get(k: ChargeKey, default: V): V { if k in vals then vals[k] else default }
    function Set(k: ChargeKey, v: V): Ordered<V> {
      Ordered(if k in vals then keys else keys + [k], vals[k := v])
    }
  }

  function Empty<V>(): Ordered<V> { Ordered([], map[]) }

  // Recurring money

  predicate ScheduledSource(schedule: MonthSchedule, source: string) {
    exists c :: c in schedule.charges && c.kind.Recurring? && c.key == source
  }

  function KeyFor(schedule: MonthSchedule, r: CostRow): ChargeKey {
    if ScheduledSource(schedule, r.source) then BySource(r.source) else ByRow(r.source, r.providerId, r.serviceId)
  }

  function LandedOf(schedule: MonthSchedule, rs: seq<CostRow>): Ordered<int> {
    if rs == [] then Empty()
    else
      var before := LandedOf(schedule, rs[..|rs| - 1]);
      var r := rs[|rs| - 1];
      before.Set(KeyFor(schedule, r), before.Get(KeyFor(schedule, r), 0) + r.amountMicros)
  }

  /** The latest row of each key; a manual row outside the schedule declares nothing. */
  function LatestOf(schedule: MonthSchedule, rs: seq<CostRow>): Ordered<CostRow> {
    if rs == [] then Empty()
    else
      var before := LatestOf(schedule, rs[..|rs| - 1]);
      var r := rs[|rs| - 1];
      var k := KeyFor(schedule, r);
      if !ScheduledSource(schedule, r.source) && IsManualCostSource(r.source) then before
      else if !before.Has(k) || Lt(before.vals[k].day, r.day) then before.Set(k, r)
      else before
  }

  lemma LandedSnoc(schedule: MonthSchedule, rs: seq<CostRow>, i: nat)
    requires i < |rs|
    ensures var before, k := LandedOf(schedule, rs[..i]), KeyFor(schedule, rs[i]);
            LandedOf(schedule, rs[..i + 1]) == before.Set(k, before.Get(k, 0) + rs[i].amountMicros)
  {
    hide KeyFor;
    assert rs[..i + 1][..i] == rs[..i];
  }

  lemma LatestSnoc(schedule: MonthSchedule, rs: seq<CostRow>, i: nat)
    requires i < |rs|
    ensures var before, k, r := LatestOf(schedule, rs[..i]), KeyFor(schedule, rs[i]), rs[i];
            LatestOf(schedule, rs[..i + 1]) ==
            if !ScheduledSource(schedule, r.source) && IsManualCostSource(r.source) then before
            else if !before.Has(k) || Lt(before.vals[k].day, r.day) then before.Set(k, r)
            else before
  {
    hide KeyFor, ScheduledSource, IsManualCostSource;
    assert rs[..i + 1][..i] == rs[..i];
  }

  method LandRecurring(
      schedule: MonthSchedule, rs: seq<CostRow>) returns (landed: Ordered<int>, latest: Ordered<CostRow>)
    ensures landed == LandedOf(schedule, rs) && latest == LatestOf(schedule, rs)
  {
    landed, latest := Empty(), Empty();
    assert landed == LandedOf(schedule, rs[..0]) && latest == LatestOf(schedule, rs[..0]);
    hide LandedOf, LatestOf, IsManualCostSource;
    for i := 0 to |rs|
      invariant landed == LandedOf(schedule, rs[..i]) && latest == LatestOf(schedule, rs[..i])
    {
      var r := rs[i];
      LandedSnoc(schedule, rs, i);
      LatestSnoc(schedule, rs, i);
      var scheduled := ScheduledSource(schedule, r.source);
      var k := if scheduled then BySource(r.source) else ByRow(r.source, r.providerId, r.serviceId);
      landed := landed.Set(k, landed.Get(k, 0) + r.amountMicros);
      if !scheduled && IsManualCostSource(r.source) {
        continue;
      }
      if !latest.Has(k) || Lt(latest.vals[k].day, r.day) {
        latest := latest.Set(k, r);
      }
    }
    assert rs[..|rs|] == rs;
  }

  function ChargesOf(charges: seq<ScheduledCharge>): Ordered<ScheduledCharge> {
    if charges == [] then Empty()
    else
      var before := ChargesOf(charges[..|charges| - 1]);
      var c := charges[|charges| - 1];
      if c.kind.Recurring? then before.Set(BySource(c.key), c) else before
  }

  /** The key as the forecast reports it. */
  function KeyName(k: ChargeKey): string {
    match k
    case BySource(source) => source
    case ByRow(source, providerId, serviceId) => source + "|" + providerId + "|" + serviceId
  }

  function DeclaredBy(k: ChargeKey, row: CostRow): ScheduledCharge {
    ScheduledCharge(KeyName(k), row.providerId, row.serviceId, None, Recurring,
                    Some(row.billingCadence.GetOr(MonthlyCadence)), None,
                    row.periodAmountMicros.GetOr(row.amountMicros), row.currency)
  }

  /** A recurring source with no schedule entry declares its own period amount. */
  function WithDeclared(
      charges: Ordered<ScheduledCharge>, latest: Ordered<CostRow>, keys: seq<ChargeKey>): Ordered<ScheduledCharge>
    requires forall k :: k in keys ==> k in latest.vals
  {
    if keys == [] then charges
    else
      var before := WithDeclared(charges, latest, keys[..|keys| - 1]);
      var k := keys[|keys| - 1];
      assert k in keys;
      if before.Has(k) then before else before.Set(k, DeclaredBy(k, latest.vals[k]))
  }

  method RecurringCharges(schedule: MonthSchedule, latest: Ordered<CostRow>) returns (out: Ordered<ScheduledCharge>)
    requires latest.Valid()
    ensures out == WithDeclared(ChargesOf(schedule.charges), latest, latest.keys)
  {
    out := Empty();
    var cs := schedule.charges;
    for i := 0 to |cs|
      invariant out == ChargesOf(cs[..i])
    {
      assert cs[..i + 1][..i] == cs[..i];
      if cs[i].kind.Recurring? { out := out.Set(BySource(cs[i].key), cs[i]); }
    }
    assert cs[..|cs|] == cs;
    ghost var charges := out;
    var ks := latest.keys;
    for i := 0 to |ks|
      invariant out == WithDeclared(charges, latest, ks[..i])
    {
      assert ks[..i + 1][..i] == ks[..i];
      if !out.Has(ks[i]) { out := out.Set(ks[i], DeclaredBy(ks[i], latest.vals[ks[i]])); }
    }
    assert ks[..|ks|] == ks;
  }

  function LandedAt(landed: Ordered<int>): ChargeKey -> int { (k: ChargeKey) => landed.Get(k, 0) }

  function RemainingAt(charges: Ordered<ScheduledCharge>, landed: Ordered<int>): ChargeKey -> int {
    (k: ChargeKey) => if charges.Has(k) then Max0(charges.vals[k].amountMicros - landed.Get(k, 0)) else 0
  }

  function LandedOutside(charges: Ordered<ScheduledCharge>, landed: Ordered<int>): ChargeKey -> int {
    (k: ChargeKey) => if charges.Has(k) then 0 else landed.Get(k, 0)
  }

  datatype RecurringTotals = RecurringTotals(landedMicros: int, scheduledMicros: int)

  function RecurringOf(schedule: MonthSchedule, rs: seq<CostRow>): RecurringTotals {
    var landed, latest := LandedOf(schedule, rs), LatestOf(schedule, rs);
    MapsValid(schedule, rs);
    var charges := WithDeclared(ChargesOf(schedule.charges), latest, latest.keys);
    RecurringTotals(SumBy(charges.keys, LandedAt(landed)) + SumBy(landed.keys, LandedOutside(charges, landed)),
                    SumBy(charges.keys, RemainingAt(charges, landed)))
  }

  lemma {:induction false} MapsValid(schedule: MonthSchedule, rs: seq<CostRow>)
    ensures LandedOf(schedule, rs).Valid() && LatestOf(schedule, rs).Valid()
  {
    if rs != [] {
      MapsValid(schedule, rs[..|rs| - 1]);
    }
  }

  lemma {:induction false} ChargesValid(charges: seq<ScheduledCharge>)
    ensures ChargesOf(charges).Valid()
  {
    if charges != [] {
      ChargesValid(charges[..|charges| - 1]);
    }
  }

  lemma {:induction false} DeclaredValid(
      charges: Ordered<ScheduledCharge>, latest: Ordered<CostRow>, keys: seq<ChargeKey>)
    requires charges.Valid() && forall k :: k in keys ==> k in latest.vals
    ensures WithDeclared(charges, latest, keys).Valid()
  {
    if keys != [] {
      DeclaredValid(charges, latest, keys[..|keys| - 1]);
    }
  }

  /** What the walk over the charges leaves to come, in the map's order. */
  function PendingAt(
      charges: Ordered<ScheduledCharge>, landed: Ordered<int>, keys: seq<ChargeKey>): seq<ScheduledCharge>
    requires forall k :: k in keys ==> charges.Has(k)
  {
    if keys == [] then []
    else
      var before, k := PendingAt(charges, landed, keys[..|keys| - 1]), keys[|keys| - 1];
      assert k in keys;
      var remaining := RemainingAt(charges, landed)(k);
      before + if remaining > 0 then [charges.vals[k].(amountMicros := remaining)] else []
  }

  function RecurringPending(schedule: MonthSchedule, rs: seq<CostRow>): seq<ScheduledCharge> {
    var landed, latest := LandedOf(schedule, rs), LatestOf(schedule, rs);
    MapsValid(schedule, rs);
    ChargesValid(schedule.charges);
    DeclaredValid(ChargesOf(schedule.charges), latest, latest.keys);
    var charges := WithDeclared(ChargesOf(schedule.charges), latest, latest.keys);
    PendingAt(charges, landed, charges.keys)
  }

  lemma PendingStep(charges: Ordered<ScheduledCharge>, landed: Ordered<int>, ks: seq<ChargeKey>, i: nat)
    requires i < |ks| && forall k :: k in ks ==> charges.Has(k)
    ensures var left := RemainingAt(charges, landed)(ks[i]);
      PendingAt(charges, landed, ks[..i + 1]) ==
        PendingAt(charges, landed, ks[..i]) + if left > 0 then [charges.vals[ks[i]].(amountMicros := left)] else []
  {
    assert ks[..i + 1][..i] == ks[..i];
  }

  /** What has landed against each charge, what is still to come of it, and the charges that are. */
  method WalkCharges(charges: Ordered<ScheduledCharge>, landed: Ordered<int>)
    returns (total: int, scheduled: int, pending: seq<ScheduledCharge>)
    requires charges.Valid()
    ensures total == SumBy(charges.keys, LandedAt(landed))
    ensures scheduled == SumBy(charges.keys, RemainingAt(charges, landed))
    ensures pending == PendingAt(charges, landed, charges.keys)
  {
    hide PendingAt, SumBy;
    total, scheduled, pending := 0, 0, [];
    var ks := charges.keys;
    NothingWalked(charges, landed, ks[..0]);
    for i := 0 to |ks|
      invariant total == SumBy(ks[..i], LandedAt(landed))
      invariant scheduled == SumBy(ks[..i], RemainingAt(charges, landed))
      invariant pending == PendingAt(charges, landed, ks[..i])
    {
      SumSnoc(ks, i, LandedAt(landed));
      SumSnoc(ks, i, RemainingAt(charges, landed));
      PendingStep(charges, landed, ks, i);
      var charge, here := charges.vals[ks[i]], landed.Get(ks[i], 0);
      var remaining := Max0(charge.amountMicros - here);
      total := total + here;
      scheduled := scheduled + remaining;
      if remaining > 0 {
        pending := pending + [charge.(amountMicros := remaining)];
      }
    }
    assert ks[..|ks|] == ks;
  }

  lemma NothingWalked(charges: Ordered<ScheduledCharge>, landed: Ordered<int>, ks: seq<ChargeKey>)
    requires ks == []
    ensures SumBy(ks, LandedAt(landed)) == 0 && SumBy(ks, RemainingAt(charges, landed)) == 0
    ensures PendingAt(charges, landed, ks) == []
  {
  }

  method SettleRecurring(
      schedule: MonthSchedule, landed: Ordered<int>, latest: Ordered<CostRow>, ghost rs: seq<CostRow>)
    returns (t: RecurringTotals, pending: seq<ScheduledCharge>)
    requires landed == LandedOf(schedule, rs) && latest == LatestOf(schedule, rs)
    ensures t == RecurringOf(schedule, rs) && pending == RecurringPending(schedule, rs)
  {
    hide LandedOf, LatestOf, ChargesOf, WithDeclared, PendingAt;
    MapsValid(schedule, rs);
    var charges := RecurringCharges(schedule, latest);
    ChargesValid(schedule.charges);
    DeclaredValid(ChargesOf(schedule.charges), latest, latest.keys);
    var total, scheduled;
    total, scheduled, pending := WalkCharges(charges, landed);
    ghost var first := total;
    var ks := landed.keys;
    for i := 0 to |ks|
      invariant total == first + SumBy(ks[..i], LandedOutside(charges, landed))
    {
      SumSnoc(ks, i, LandedOutside(charges, landed));
      assert ks[i] in landed.keys;
      if !charges.Has(ks[i]) { total := total + landed.vals[ks[i]]; }
    }
    assert ks[..|ks|] == ks;
    t := RecurringTotals(total, scheduled);
  }

  // One-time money

  function SourceSet(rs: seq<CostRow>): set<string> { set r | r in rs :: r.source }
  function ChargeAmount(): ScheduledCharge -> int { (c: ScheduledCharge) => c.amountMicros }
  function StillDue(landed: set<string>): ScheduledCharge -> bool {
    (c: ScheduledCharge) => c.kind.OneTime? && c.key !in landed
  }

  method OneTimeTotals(
      schedule: MonthSchedule, rs: seq<CostRow>)
    returns (landed: int, scheduled: int, pending: seq<ScheduledCharge>)
    ensures landed == TotalOf(rs)
    ensures pending == Filter(schedule.charges, StillDue(SourceSet(rs)))
    ensures scheduled == SumBy(pending, ChargeAmount())
  {
    landed := TotalMicros(rs);
    var sources := set r | r in rs :: r.source;
    var cs := schedule.charges;
    scheduled, pending := 0, [];
    for i := 0 to |cs|
      invariant pending == Filter(cs[..i], StillDue(sources)) && scheduled == SumBy(pending, ChargeAmount())
    {
      FilterSnoc(cs, i, StillDue(sources));
      SumAppend(pending, [cs[i]], ChargeAmount());
      if !cs[i].kind.OneTime? || cs[i].key in sources {
        continue;
      }
      scheduled := scheduled + cs[i].amountMicros;
      pending := pending + [cs[i]];
    }
    assert cs[..|cs|] == cs;
  }

  /** By day, then by key; a charge without a day comes last. */
  predicate ChargeBefore(a: ScheduledCharge, b: ScheduledCharge) {
    if a.day == b.day then Before(a.key, b.key)
    else a.day.Some? && (b.day.None? || Lt(a.day.value, b.day.value))
  }

  function SortCharges(cs: seq<ScheduledCharge>): seq<ScheduledCharge> { StableSort(cs, ChargeBefore) }

  // Run-rate: active fees, whether or not they are billed this month

  function CommitmentsOf(cs: seq<Commitment>): Ordered<Commitment> {
    if cs == [] then Empty()
    else
      var c := cs[|cs| - 1];
      CommitmentsOf(cs[..|cs| - 1]).Set(BySource(c.key), c)
  }

  function CommittedBy(k: ChargeKey, row: CostRow): Commitment {
    Commitment(KeyName(k), row.providerId, row.serviceId, None, row.billingCadence.GetOr(MonthlyCadence),
               row.periodAmountMicros.GetOr(row.amountMicros), row.currency)
  }

  predicate ScheduledKey(schedule: MonthSchedule, k: ChargeKey) {
    k.BySource? && exists c :: c in schedule.charges && c.key == k.source
  }

  /** A recurring row outside the schedule commits its own period amount. */
  function WithCommitted(schedule: MonthSchedule, latest: Ordered<CostRow>, keys: seq<ChargeKey>): Ordered<Commitment>
    requires forall k :: k in keys ==> k in latest.vals
  {
    if keys == [] then CommitmentsOf(schedule.commitments)
    else
      var before, k := WithCommitted(schedule, latest, keys[..|keys| - 1]), keys[|keys| - 1];
      assert k in keys;
      if before.Has(k) || ScheduledKey(schedule, k) then before else before.Set(k, CommittedBy(k, latest.vals[k]))
  }

  function MonthlyAt(m: Ordered<Commitment>): ChargeKey -> int {
    (k: ChargeKey) => if m.Has(k) && m.vals[k].cadence.MonthlyCadence? then m.vals[k].periodAmountMicros else 0
  }

  function AnnualShareAt(m: Ordered<Commitment>): ChargeKey -> int {
    (k: ChargeKey) =>
      if m.Has(k) && m.vals[k].cadence.AnnualCadence? then RoundDiv(m.vals[k].periodAmountMicros, 12) else 0
  }

  datatype RunRate = RunRate(recurringMonthlyMicros: int, annualEquivalentMicros: int)

  function RunRateOf(schedule: MonthSchedule, rs: seq<CostRow>): RunRate {
    var latest := LatestOf(schedule, rs);
    MapsValid(schedule, rs);
    var m := WithCommitted(schedule, latest, latest.keys);
    RunRate(SumBy(m.keys, MonthlyAt(m)), SumBy(m.keys, AnnualShareAt(m)))
  }

  lemma {:induction false} CommitmentsValid(schedule: MonthSchedule, latest: Ordered<CostRow>, keys: seq<ChargeKey>)
    requires forall k :: k in keys ==> k in latest.vals
    ensures WithCommitted(schedule, latest, keys).Valid()
  {
    if keys == [] {
      CommitmentListValid(schedule.commitments);
    } else {
      CommitmentsValid(schedule, latest, keys[..|keys| - 1]);
    }
  }

  lemma {:induction false} CommitmentListValid(cs: seq<Commitment>)
    ensures CommitmentsOf(cs).Valid()
  {
    if cs != [] {
      CommitmentListValid(cs[..|cs| - 1]);
    }
  }

  method Commitments(schedule: MonthSchedule, latest: Ordered<CostRow>) returns (out: Ordered<Commitment>)
    requires latest.Valid()
    ensures out == WithCommitted(schedule, latest, latest.keys)
  {
    out := Empty();
    var cs, ks := schedule.commitments, latest.keys;
    for i := 0 to |cs|
      invariant out == CommitmentsOf(cs[..i])
    {
      assert cs[..i + 1][..i] == cs[..i];
      out := out.Set(BySource(cs[i].key), cs[i]);
    }
    assert cs[..|cs|] == cs;
    for i := 0 to |ks|
      invariant out == WithCommitted(schedule, latest, ks[..i])
    {
      assert ks[..i + 1][..i] == ks[..i];
      if !out.Has(ks[i]) && !ScheduledKey(schedule, ks[i]) {
        out := out.Set(ks[i], CommittedBy(ks[i], latest.vals[ks[i]]));
      }
    }
    assert ks[..|ks|] == ks;
  }

  method NormaliseRunRate(
      schedule: MonthSchedule, latest: Ordered<CostRow>, ghost rs: seq<CostRow>) returns (r: RunRate)
    requires latest == LatestOf(schedule, rs)
    ensures r == RunRateOf(schedule, rs)
  {
    MapsValid(schedule, rs);
    var m := Commitments(schedule, latest);
    CommitmentsValid(schedule, latest, latest.keys);
    var monthly, annual := 0, 0;
    var ks := m.keys;
    for i := 0 to |ks|
      invariant monthly == SumBy(ks[..i], MonthlyAt(m)) && annual == SumBy(ks[..i], AnnualShareAt(m))
    {
      SumSnoc(ks, i, MonthlyAt(m));
      SumSnoc(ks, i, AnnualShareAt(m));
      assert ks[i] in m.keys;
      var c := m.vals[ks[i]];
      if c.cadence.MonthlyCadence? {
        monthly := monthly + c.periodAmountMicros;
      } else {
        annual := annual + RoundDiv(c.periodAmountMicros, 12);
      }
    }
    assert ks[..|ks|] == ks;
    r := RunRate(monthly, annual);
  }

  // The month

  const FORECAST_MIN_ELAPSED_DAYS := 3

  /** Days of `month` behind `today`, counting today; the whole month once it is past. */
  function ElapsedDays(month: CalendarMonth, today: Date): int {
    if today.InMonth() == month then today.d
    else if today.InMonth().Index() > month.Index() then DaysInMonth(month) else 0
  }

  function UsageProjection(mtd: int, month: CalendarMonth, today: Date, hasRows: bool): Option<int> {
    var elapsed := ElapsedDays(month, today);
    if !hasRows || elapsed < FORECAST_MIN_ELAPSED_DAYS then None
    else Some(CeilDiv(mtd * DaysInMonth(month), elapsed))
  }

  /**
   A projection of `mtd` for the month, said of its days: none before its third day; inside it the month's days
   at the average so far, rounded up to a micro; once it is past, `mtd` itself.
   */
  ghost predicate Projects(projected: Option<int>, mtd: int, month: CalendarMonth, today: Date) {
    && (projected.None? <==> Lt(today, Day(month.y, month.m, 3)))
    && (projected.Some? && Le(today, LastOf(month)) ==>
          mtd * DaysInMonth(month) <= projected.value * today.d < mtd * DaysInMonth(month) + today.d)
    && (Lt(LastOf(month), today) ==> projected == Some(mtd))
    && (projected.Some? && mtd >= 0 ==> mtd <= projected.value)
  }

  lemma ProjectionExact(mtd: int, month: CalendarMonth, today: Date)
    ensures Projects(UsageProjection(mtd, month, today, true), mtd, month, today)
    ensures UsageProjection(mtd, month, today, false) == None
  {
    var days, p := DaysInMonth(month), UsageProjection(mtd, month, today, true);
    if p.Some? && today.InMonth() == month {
      CeilNearest(mtd * days, today.d);
      if mtd >= 0 {
        AtLeast(mtd, days, today.d, p.value);
      }
    } else if p.Some? {
      CeilWhole(mtd, days);
    }
  }

  lemma AtLeast(mtd: nat, days: nat, elapsed: nat, p: int)
    requires 0 < elapsed <= days && mtd * days <= p * elapsed
    ensures mtd <= p
  {
    assert mtd * (days - elapsed) >= 0;
    assert elapsed * (mtd - p - 1) == mtd * elapsed - p * elapsed - elapsed;
    FactorNegative(elapsed, mtd - p - 1);
  }

  function InMonthOf(month: CalendarMonth): CostRow -> bool { (r: CostRow) => r.day.InMonth() == month }
  function MonthRows(rows: seq<CostRow>, month: CalendarMonth): seq<CostRow> { Filter(rows, InMonthOf(month)) }
  function RowsOfKind(rows: seq<CostRow>, k: CostKind): seq<CostRow> { Filter(Winning(rows), HasKind(k)) }

  function AllCurrencies(rows: seq<CostRow>, schedule: MonthSchedule): set<string> {
    Currencies(rows) + (set c | c in schedule.charges :: c.currency) + (set c | c in schedule.commitments :: c.currency)
  }

  datatype UsageReason = InsufficientHistory | NoUsageRows | NotApplicable

  datatype MonthForecast = MonthForecast(
    actual: SpendBreakdown,
    usageMtdMicros: int, usageProjectedMicros: Option<int>, usageReason: Option<UsageReason>,
    recurring: RecurringTotals, oneTimeLandedMicros: int, oneTimeScheduledMicros: int, pending: seq<ScheduledCharge>,
    floorMicros: int, cashMicros: Option<int>, runRate: RunRate, runRateMicros: Option<int>,
    currency: Option<string>, mixedCurrency: bool)

  /** The known part of the month: recurring landed and to come, one-offs landed and to come. */
  function FloorOf(month: CalendarMonth, rows: seq<CostRow>, schedule: MonthSchedule): int {
    var inMonth := MonthRows(rows, month);
    var recurring := RecurringOf(schedule, RowsOfKind(inMonth, Recurring));
    var oneTime := RowsOfKind(inMonth, OneTime);
    recurring.landedMicros + recurring.scheduledMicros + TotalOf(oneTime)
    + SumBy(Filter(schedule.charges, StillDue(SourceSet(oneTime))), ChargeAmount())
  }

  /** What has not landed, soonest first. */
  function PendingOf(month: CalendarMonth, rows: seq<CostRow>, schedule: MonthSchedule): seq<ScheduledCharge> {
    var inMonth := MonthRows(rows, month);
    SortCharges(RecurringPending(schedule, RowsOfKind(inMonth, Recurring))
                + Filter(schedule.charges, StillDue(SourceSet(RowsOfKind(inMonth, OneTime)))))
  }

  /** A total that is reported only when the usage half is known and there is one currency. */
  function Reported(mixed: bool, usage: Option<int>, known: int): Option<int> {
    if mixed || usage.None? then None else Some(usage.value + known)
  }

  method ProjectUsage(month: CalendarMonth, today: Date, usageRows: seq<CostRow>, usageExpected: bool)
    returns (mtd: int, projected: Option<int>, reason: Option<UsageReason>)
    ensures mtd == TotalOf(Winning(usageRows))
    ensures usageRows == [] ==> projected == if usageExpected then None else Some(0)
    ensures usageRows != [] ==> Projects(projected, mtd, month, today)
    ensures reason.Some? <==> projected.None? || (usageRows == [] && !usageExpected)
    ensures reason == Some(NotApplicable) <==> usageRows == [] && !usageExpected
    ensures reason == Some(NoUsageRows) <==> usageRows == [] && usageExpected
  {
    hide Filter, SumBy, Winning, Projects;
    var usage := Spend(usageRows);
    ProjectionExact(usage.micros, month, today);
    mtd, reason := usage.micros, None;
    projected := UsageProjection(mtd, month, today, usageRows != []);
    if projected.None? {
      if usageRows == [] && !usageExpected {
        projected, reason := Some(0), Some(NotApplicable);
      } else if usageRows == [] {
        reason := Some(NoUsageRows);
      } else {
        reason := Some(InsufficientHistory);
      }
    }
  }

  method OnlyOf(cs: set<string>) returns (c: Option<string>)
    ensures c == OnlyCurrency(cs)
  {
    c := None;
    if |cs| == 1 {
      var x :| x in cs;
      c := Some(x);
      OnlyElement(cs, x);
    }
  }

  method ForecastMonth(
      month: CalendarMonth, today: Date, rows: seq<CostRow>, schedule: MonthSchedule, usageExpected: bool)
    returns (f: MonthForecast)
    ensures IsSpend(MonthRows(rows, month), f.actual)
    ensures f.usageMtdMicros == TotalOf(Winning(Filter(MonthRows(rows, month), HasKind(Usage))))
    ensures var usageRows := Filter(MonthRows(rows, month), HasKind(Usage));
            && (usageRows == [] ==> f.usageProjectedMicros == if usageExpected then None else Some(0))
            && (usageRows != [] ==> Projects(f.usageProjectedMicros, f.usageMtdMicros, month, today))
    ensures f.recurring == RecurringOf(schedule, RowsOfKind(MonthRows(rows, month), Recurring))
    ensures f.oneTimeLandedMicros == TotalOf(RowsOfKind(MonthRows(rows, month), OneTime))
    ensures f.floorMicros == FloorOf(month, rows, schedule)
    ensures f.floorMicros == f.recurring.landedMicros + f.recurring.scheduledMicros + f.oneTimeLandedMicros
        + f.oneTimeScheduledMicros
    ensures f.pending == PendingOf(month, rows, schedule)
    ensures f.cashMicros.None? <==> f.mixedCurrency || f.usageProjectedMicros.None?
    ensures f.cashMicros.Some? ==> f.cashMicros.value == f.usageProjectedMicros.value + f.floorMicros
    ensures f.runRate == RunRateOf(schedule, RowsOfKind(MonthRows(rows, month), Recurring))
    ensures f.runRateMicros.None? <==> f.mixedCurrency || f.usageProjectedMicros.None?
    ensures f.runRateMicros.Some? ==>
              f.runRateMicros.value ==
                f.usageProjectedMicros.value + f.runRate.recurringMonthlyMicros + f.runRate.annualEquivalentMicros
    ensures f.currency == OnlyCurrency(AllCurrencies(MonthRows(rows, month), schedule))
    ensures f.mixedCurrency == (|AllCurrencies(MonthRows(rows, month), schedule)| > 1)
  {
    hide Filter, SumBy, Winning, RecurringOf, RunRateOf, RecurringPending, TotalOf, Projects, SortCharges,
      IsSpend, OnlyCurrency, AllCurrencies;
    var inMonth := Filter(rows, InMonthOf(month));
    var actual := Spend(inMonth);
    var mtd, projected, reason := ProjectUsage(month, today, Filter(inMonth, HasKind(Usage)), usageExpected);
    var winning := WinningRows(inMonth);
    var recurringRows, oneTimeRows := Filter(winning, HasKind(Recurring)), Filter(winning, HasKind(OneTime));
    var landed, latest := LandRecurring(schedule, recurringRows);
    var recurring, pending := SettleRecurring(schedule, landed, latest, recurringRows);
    var oneTimeLanded, oneTimeScheduled, oneTimePending := OneTimeTotals(schedule, oneTimeRows);
    var runRate := NormaliseRunRate(schedule, latest, recurringRows);
    var currencies := AllCurrencies(inMonth, schedule);
    var currency := OnlyOf(currencies);
    var mixed := |currencies| > 1;
    var floor := recurring.landedMicros + recurring.scheduledMicros + oneTimeLanded + oneTimeScheduled;
    f := MonthForecast(actual, mtd, projected, reason, recurring, oneTimeLanded, oneTimeScheduled,
                       SortCharges(pending + oneTimePending), floor, Reported(mixed, projected, floor),
                       runRate,
                       Reported(mixed, projected, runRate.recurringMonthlyMicros + runRate.annualEquivalentMicros),
                       currency, mixed);
  }
}
