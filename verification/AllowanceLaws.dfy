/**
 What the chronological walk does to a free allowance: it is given once, to the
 first units of the period, however the units are split into rows.
 */
module AllowanceLaws {
  import opened Calendar
  import opened Wrappers
  import opened Budget
  import opened Pricing
  import opened Estimator
  import opened ManualCost
  import opened Sorting
  import opened Sums

  /** The allowance a usage row draws on, if it is priced and its rule has one. */
  function DrawsOn(row: UsageRow, rules: seq<PricingRule>): Option<AllowanceKey> {
    var found := RuleInForce(rules, row.billingSkuId, row.day);
    if row.quantity <= 0 || found.None? then None else AllowanceKeyOf(row, found.value)
  }

  /** The units the allowance covers on the row's day. */
  function AllowedUnits(row: UsageRow, rules: seq<PricingRule>): nat
    requires DrawsOn(row, rules).Some?
  {
    var rule := RuleInForce(rules, row.billingSkuId, row.day).value;
    rule.freeAllowance.value.quantity * ShareOf(rule, Some(row.day))
  }

  /** The units of the row the allowance no longer covers, after `used` of it. */
  function BillableOf(row: UsageRow, rules: seq<PricingRule>, used: nat): nat
    requires DrawsOn(row, rules).Some?
  {
    Billable(RuleInForce(rules, row.billingSkuId, row.day).value, row.quantity, used, Some(row.day))
  }

  function UsedBefore(
      rows: seq<UsageRow>, range: DayRange, rules: seq<PricingRule>, version: string, k: AllowanceKey): nat {
    ConsumedAt(Walk(NOTHING, rows, range, rules, version).consumed, Some(k))
  }

  /** The billable units of the rows drawing on `k`, in walk order. */
  function BillablesFor(
      rows: seq<UsageRow>, range: DayRange, rules: seq<PricingRule>, version: string, k: AllowanceKey): seq<nat> {
    if rows == [] then []
    else
      var n := |rows| - 1;
      var row := rows[n];
      BillablesFor(rows[..n], range, rules, version, k)
      + (if DrawsOn(row, rules) == Some(k)
         then [BillableOf(row, rules, UsedBefore(rows[..n], range, rules, version, k))]
         else [])
  }

  function TotalFor(rows: seq<UsageRow>, rules: seq<PricingRule>, k: AllowanceKey): nat {
    if rows == [] then 0
    else
      var n := |rows| - 1;
      TotalFor(rows[..n], rules, k) + (if DrawsOn(rows[n], rules) == Some(k) then rows[n].quantity else 0)
  }

  lemma StepUse(p: Plan, row: UsageRow, range: DayRange, rules: seq<PricingRule>, version: string, k: AllowanceKey)
    ensures ConsumedAt(PlanRow(p, row, range, rules, version).consumed, Some(k)) ==
            ConsumedAt(p.consumed, Some(k)) + (if DrawsOn(row, rules) == Some(k) then row.quantity else 0)
  {
  }

  /** What the walk has recorded against an allowance is exactly the units that drew on it. */
  lemma {:induction false} UsedIsTotal(
      rows: seq<UsageRow>, range: DayRange, rules: seq<PricingRule>, version: string, k: AllowanceKey)
    ensures UsedBefore(rows, range, rules, version, k) == TotalFor(rows, rules, k)
  {
    if rows != [] {
      var n := |rows| - 1;
      UsedIsTotal(rows[..n], range, rules, version, k);
      StepUse(Walk(NOTHING, rows[..n], range, rules, version), rows[n], range, rules, version, k);
      hide PlanRow;
    }
  }

  lemma {:induction false} TotalUnitsSnoc(s: seq<nat>, q: nat)
    ensures TotalUnits(s + [q]) == TotalUnits(s) + q
  {
    if s == [] {
      assert s + [q] == [q];
    } else {
      assert (s + [q])[1..] == s[1..] + [q];
      TotalUnitsSnoc(s[1..], q);
    }
  }

  ghost predicate OneAllowance(rows: seq<UsageRow>, rules: seq<PricingRule>, k: AllowanceKey, allowed: nat) {
    forall r :: r in rows && DrawsOn(r, rules) == Some(k) ==> AllowedUnits(r, rules) == allowed
  }

  /** Rows sharing one allowance of `allowed` units bill exactly the units past it. */
  lemma {:induction false} AllowanceConserved(
      rows: seq<UsageRow>, range: DayRange, rules: seq<PricingRule>, version: string,
      k: AllowanceKey, allowed: nat)
    requires OneAllowance(rows, rules, k, allowed)
    ensures TotalUnits(BillablesFor(rows, range, rules, version, k)) == Max0(TotalFor(rows, rules, k) - allowed)
  {
    if rows != [] {
      hide Walk;
      var n := |rows| - 1;
      var row := rows[n];
      assert row in rows;
      AllowanceConserved(rows[..n], range, rules, version, k, allowed);
      if DrawsOn(row, rules) == Some(k) {
        UsedIsTotal(rows[..n], range, rules, version, k);
        TotalUnitsSnoc(BillablesFor(rows[..n], range, rules, version, k),
                       BillableOf(row, rules, UsedBefore(rows[..n], range, rules, version, k)));
      } else {
        assert BillablesFor(rows, range, rules, version, k) == BillablesFor(rows[..n], range, rules, version, k);
      }
    }
  }

  // The part of them that falls in the range

  /** The billable units of the rows of the range drawing on `k`, in walk order, after whatever history came before. */
  function RangeBillables(rows: seq<UsageRow>, range: DayRange, rules: seq<PricingRule>, version: string,
                          k: AllowanceKey): seq<nat> {
    if rows == [] then []
    else
      var n := |rows| - 1;
      var row := rows[n];
      RangeBillables(rows[..n], range, rules, version, k)
      + (if DrawsOn(row, rules) == Some(k) && InRange(range, row.day)
         then [BillableOf(row, rules, UsedBefore(rows[..n], range, rules, version, k))]
         else [])
  }

  /** The units drawing on `k` on days before `day`, and on days up to it. */
  function UnitsBefore(rules: seq<PricingRule>, k: AllowanceKey, day: Date): UsageRow -> int {
    (r: UsageRow) => if DrawsOn(r, rules) == Some(k) && Lt(r.day, day) then r.quantity else 0
  }

  function UnitsThrough(rules: seq<PricingRule>, k: AllowanceKey, day: Date): UsageRow -> int {
    (r: UsageRow) => if DrawsOn(r, rules) == Some(k) && Le(r.day, day) then r.quantity else 0
  }

  /**
   What the range bills of an allowance of `allowed` units: what is past it at the range's end, less what was
   past it before.
   */
  function UnitsPast(
      rows: seq<UsageRow>, range: DayRange, rules: seq<PricingRule>, k: AllowanceKey, allowed: nat): int {
    if Lt(range.upTo, range.from) then 0
    else Max0(SumBy(rows, UnitsThrough(rules, k, range.upTo)) - allowed)
         - Max0(SumBy(rows, UnitsBefore(rules, k, range.from)) - allowed)
  }

  /** Rows in the order of their days. */
  ghost predicate ByDay(rows: seq<UsageRow>) {
    forall i, j :: 0 <= i < j < |rows| ==> Le(rows[i].day, rows[j].day)
  }

  lemma SortedByDay(rows: seq<UsageRow>)
    requires SortedBy(rows, UsageBefore)
    ensures ByDay(rows)
  {
    forall i, j | 0 <= i < j < |rows| ensures Le(rows[i].day, rows[j].day) {
      assert !UsageBefore(rows[j], rows[i]);
    }
  }

  lemma {:induction false} AllThrough(rows: seq<UsageRow>, rules: seq<PricingRule>, k: AllowanceKey, day: Date)
    requires forall r :: r in rows ==> Le(r.day, day)
    ensures SumBy(rows, UnitsThrough(rules, k, day)) == TotalFor(rows, rules, k)
  {
    if rows != [] {
      var n := |rows| - 1;
      assert rows[..n + 1] == rows && rows[n] in rows;
      SumSnoc(rows, n, UnitsThrough(rules, k, day));
      AllThrough(rows[..n], rules, k, day);
    }
  }

  /** Before the range has begun, everything used so far was used before it. */
  lemma {:induction false} AllBefore(
      rows: seq<UsageRow>, rules: seq<PricingRule>, k: AllowanceKey, from: Date, upTo: Date)
    requires Le(from, upTo) && forall r :: r in rows ==> Lt(r.day, from)
    ensures SumBy(rows, UnitsBefore(rules, k, from)) == SumBy(rows, UnitsThrough(rules, k, upTo))
  {
    SumCong(rows, UnitsBefore(rules, k, from), UnitsThrough(rules, k, upTo));
  }

  lemma PastSnoc(rows: seq<UsageRow>, n: nat, rules: seq<PricingRule>, k: AllowanceKey, from: Date, upTo: Date)
    requires n < |rows|
    ensures SumBy(rows[..n + 1], UnitsBefore(rules, k, from)) == SumBy(rows[..n], UnitsBefore(rules, k, from))
            + (if DrawsOn(rows[n], rules) == Some(k) && Lt(rows[n].day, from) then rows[n].quantity else 0)
    ensures SumBy(rows[..n + 1], UnitsThrough(rules, k, upTo)) == SumBy(rows[..n], UnitsThrough(rules, k, upTo))
            + (if DrawsOn(rows[n], rules) == Some(k) && Le(rows[n].day, upTo) then rows[n].quantity else 0)
  {
    SumSnoc(rows, n, UnitsBefore(rules, k, from));
    SumSnoc(rows, n, UnitsThrough(rules, k, upTo));
  }

  /** One more row of the range bills what it moves the total past the allowance. */
  lemma BillableStep(row: UsageRow, rules: seq<PricingRule>, k: AllowanceKey, used: nat, allowed: nat)
    requires DrawsOn(row, rules) == Some(k) && AllowedUnits(row, rules) == allowed
    ensures BillableOf(row, rules, used)
            == Max0(used + row.quantity - allowed) - Max0(used - allowed)
  {
  }

  /**
   Whatever history the walk read, the rows of the range bill exactly the units they move the total past the
   allowance.
   */
  lemma {:induction false} RangeConserved(
      rows: seq<UsageRow>, range: DayRange, rules: seq<PricingRule>, version: string,
      k: AllowanceKey, allowed: nat)
    requires ByDay(rows) && OneAllowance(rows, rules, k, allowed)
    ensures TotalUnits(RangeBillables(rows, range, rules, version, k)) == UnitsPast(rows, range, rules, k, allowed)
  {
    hide Walk, SumBy, DrawsOn, BillableOf, AllowedUnits;
    if rows == [] {
      NothingPast(rows, range, rules, k);
    } else {
      var n := |rows| - 1;
      var row, rest := rows[n], rows[..n];
      assert row in rows && rows[..n + 1] == rows;
      RangeConserved(rest, range, rules, version, k, allowed);
      PastSnoc(rows, n, rules, k, range.from, range.upTo);
      if DrawsOn(row, rules) == Some(k) {
        if InRange(range, row.day) {
          UsedIsTotal(rest, range, rules, version, k);
          AllThrough(rest, rules, k, range.upTo);
          BillableStep(row, rules, k, TotalFor(rest, rules, k), allowed);
          TotalUnitsSnoc(RangeBillables(rest, range, rules, version, k),
                         BillableOf(row, rules, UsedBefore(rest, range, rules, version, k)));
        } else if Lt(row.day, range.from) && Le(range.from, range.upTo) {
          AllBefore(rest, rules, k, range.from, range.upTo);
        }
      }
      if !(DrawsOn(row, rules) == Some(k) && InRange(range, row.day)) {
        assert RangeBillables(rows, range, rules, version, k) == RangeBillables(rest, range, rules, version, k);
      }
    }
  }

  lemma NothingPast(rows: seq<UsageRow>, range: DayRange, rules: seq<PricingRule>, k: AllowanceKey)
    requires rows == []
    ensures SumBy(rows, UnitsThrough(rules, k, range.upTo)) == 0 && SumBy(rows, UnitsBefore(rules, k, range.from)) == 0
  {
  }

  // What those units are charged

  function PaidFrom(rules: seq<PricingRule>, k: AllowanceKey): EstimatedRow -> bool {
    (e: EstimatedRow) => DrawsOn(e.usage, rules) == Some(k)
  }

  function EstimatedAmount(): EstimatedRow -> int { (e: EstimatedRow) => e.amountMicros }

  /** Every row of the range drawing on `k` prices a number of units as `price` does. */
  ghost predicate PricedBy(
      rows: seq<UsageRow>, range: DayRange, rules: seq<PricingRule>, k: AllowanceKey, price: nat -> nat) {
    forall r, x: nat :: r in rows && InRange(range, r.day) && DrawsOn(r, rules) == Some(k) && x <= r.quantity ==>
      PricesAs(r, rules, x, price)
  }

  predicate PricesAs(r: UsageRow, rules: seq<PricingRule>, x: nat, price: nat -> nat)
    requires DrawsOn(r, rules).Some?
  {
    var rule := RuleInForce(rules, r.billingSkuId, r.day).value;
    PriceAtList(rule, x, ShareOf(rule, Some(r.day))) == Some(price(x))
  }

  function AsIntFunction(price: nat -> nat): nat -> int { (x: nat) => price(x) }

  /** What the emitted rows under `k` charge. */
  function ChargedTo(rows: seq<EstimatedRow>, rules: seq<PricingRule>, k: AllowanceKey): int {
    SumBy(Filter(rows, PaidFrom(rules, k)), EstimatedAmount())
  }

  /** A row of the range drawing on `k` emits the price of its billable units; no other row emits anything under `k`. */
  lemma EmitsBillable(
      p: Plan, row: UsageRow, range: DayRange, rules: seq<PricingRule>, version: string, k: AllowanceKey,
      price: nat -> nat)
    requires PricedBy([row], range, rules, k, price)
    ensures var after := PlanRow(p, row, range, rules, version);
            if DrawsOn(row, rules) == Some(k) && InRange(range, row.day)
            then after.rows != [] && after.rows[..|after.rows| - 1] == p.rows
                 && PaidFrom(rules, k)(after.rows[|after.rows| - 1])
                 && after.rows[|after.rows| - 1].amountMicros ==
                    price(BillableOf(row, rules, ConsumedAt(p.consumed, Some(k))))
            else after.rows == p.rows || (after.rows != [] && after.rows[..|after.rows| - 1] == p.rows
                                          && !PaidFrom(rules, k)(after.rows[|after.rows| - 1]))
  {
    assert row in [row];
    if DrawsOn(row, rules) == Some(k) && InRange(range, row.day) {
      var rule := RuleInForce(rules, row.billingSkuId, row.day).value;
      var b := Billable(rule, row.quantity, ConsumedAt(p.consumed, Some(k)), Some(row.day));
      assert PricesAs(row, rules, row.quantity, price);
      assert PricesAs(row, rules, b, price);
    }
  }

  lemma ChargedSnoc(rows: seq<EstimatedRow>, e: EstimatedRow, rules: seq<PricingRule>, k: AllowanceKey)
    ensures ChargedTo(rows + [e], rules, k) == ChargedTo(rows, rules, k)
        + (if PaidFrom(rules, k)(e) then e.amountMicros else 0)
  {
    assert (rows + [e])[..|rows| + 1] == rows + [e];
    assert (rows + [e])[..|rows|] == rows;
    FilterSnoc(rows + [e], |rows|, PaidFrom(rules, k));
    SumAppend(Filter(rows, PaidFrom(rules, k)), if PaidFrom(rules, k)(e) then [e] else [], EstimatedAmount());
  }

  /**
   Whatever rows the walk takes, those it emits under `k` charge the price of exactly the range's billable
   units, row by row.
   */
  lemma {:induction false} WalkCharges(rows: seq<UsageRow>, range: DayRange, rules: seq<PricingRule>, version: string,
                                       k: AllowanceKey, price: nat -> nat)
    requires PricedBy(rows, range, rules, k, price)
    ensures ChargedTo(Walk(NOTHING, rows, range, rules, version).rows, rules, k) ==
            SumBy(RangeBillables(rows, range, rules, version, k), AsIntFunction(price))
  {
    hide PlanRow, PaidFrom, DrawsOn, BillableOf, PricesAs, Filter;
    if rows == [] {
      NothingCharged(rules, k, [], price);
    } else {
      var n := |rows| - 1;
      var row := rows[n];
      assert row in rows;
      var before := Walk(NOTHING, rows[..n], range, rules, version);
      WalkCharges(rows[..n], range, rules, version, k, price);
      assert PricedBy([row], range, rules, k, price);
      EmitsBillable(before, row, range, rules, version, k, price);
      ChargeStep(before.rows, Walk(NOTHING, rows, range, rules, version).rows, rules, k);
      var billed := RangeBillables(rows[..n], range, rules, version, k);
      if DrawsOn(row, rules) == Some(k) && InRange(range, row.day) {
        var b := BillableOf(row, rules, UsedBefore(rows[..n], range, rules, version, k));
        SumAppend(billed, [b], AsIntFunction(price));
        assert [b][1..] == [];
      } else {
        assert RangeBillables(rows, range, rules, version, k) == billed;
      }
    }
  }

  lemma NothingCharged(rules: seq<PricingRule>, k: AllowanceKey, none: seq<nat>, price: nat -> nat)
    requires none == []
    ensures ChargedTo([], rules, k) == 0 && SumBy(none, AsIntFunction(price)) == 0
  {
  }

  lemma ChargeStep(before: seq<EstimatedRow>, after: seq<EstimatedRow>, rules: seq<PricingRule>, k: AllowanceKey)
    requires after == before || (after != [] && after[..|after| - 1] == before)
    ensures ChargedTo(after, rules, k) ==
            ChargedTo(before, rules, k)
            + (if after != before && PaidFrom(rules, k)(after[|after| - 1]) then after[|after| - 1].amountMicros else 0)
  {
    if after != before {
      ChargedSnoc(before, after[|after| - 1], rules, k);
      assert after == before + [after[|after| - 1]];
    }
  }

  /** The range's billable units in the order `planEstimates` walks its rows. */
  function PlannedBillables(rows: seq<UsageRow>, range: DayRange, rules: seq<PricingRule>, version: string,
                            k: AllowanceKey): seq<nat> {
    RangeBillables(StableSort(rows, UsageBefore), range, rules, version, k)
  }

  /** What the planned rows charge under `k`. */
  function PlannedCharge(
      rows: seq<UsageRow>, range: DayRange, rules: seq<PricingRule>, version: string, k: AllowanceKey): int {
    ChargedTo(PlanOf(rows, range, rules, version).rows, rules, k)
  }

  /**
   Planning `rows` for a range charges, row by row, the price of exactly the units the range's rows move past
   the allowance.
   */
  lemma ChargesAreBillables(rows: seq<UsageRow>, range: DayRange, rules: seq<PricingRule>, version: string,
                            k: AllowanceKey, allowed: nat, price: nat -> nat)
    requires OneAllowance(rows, rules, k, allowed) && PricedBy(rows, range, rules, k, price)
    ensures var billed := PlannedBillables(rows, range, rules, version, k);
      && PlannedCharge(rows, range, rules, version, k) == SumBy(billed, AsIntFunction(price))
      && TotalUnits(billed) == UnitsPast(rows, range, rules, k, allowed)
  {
    hide Walk, SumBy, DrawsOn, StableSort, UsageBefore, AllowedUnits, PricesAs, SortedBy;
    var sorted := StableSort(rows, UsageBefore);
    UsageOrder();
    SortExact(rows, UsageBefore);
    SortedByDay(sorted);
    SortSum(rows, UsageBefore, UnitsThrough(rules, k, range.upTo));
    SortSum(rows, UsageBefore, UnitsBefore(rules, k, range.from));
    RangeConserved(sorted, range, rules, version, k, allowed);
    WalkCharges(sorted, range, rules, version, k, price);
  }

  // Linear prices: each row rounds up by less than one micro

  function Per1K(unitPrice: nat): nat -> nat { (x: nat) => CeilNat(x * unitPrice, 1000) }

  lemma {:induction false} RoundedSum(bs: seq<nat>, unitPrice: nat)
    ensures TotalUnits(bs) * unitPrice <= 1000 * SumBy(bs, AsIntFunction(Per1K(unitPrice)))
    ensures 1000 * SumBy(bs, AsIntFunction(Per1K(unitPrice))) <= TotalUnits(bs) * unitPrice + 999 * |bs|
  {
    if bs != [] {
      RoundedSum(bs[1..], unitPrice);
      assert CeilNat(bs[0] * unitPrice, 1000) * 1000 < bs[0] * unitPrice + 1000;
      assert TotalUnits(bs) * unitPrice == bs[0] * unitPrice + TotalUnits(bs[1..]) * unitPrice;
    }
  }

  /**
   With a price per 1,000, the rows planned under one allowance charge at least the exact price of the units
   the range moves past it, and less than one micro more per row.
   */
  lemma LinearChargesAreTight(rows: seq<UsageRow>, range: DayRange, rules: seq<PricingRule>, version: string,
                              k: AllowanceKey, allowed: nat, unitPrice: nat)
    requires OneAllowance(rows, rules, k, allowed) && PricedBy(rows, range, rules, k, Per1K(unitPrice))
    ensures var exact := UnitsPast(rows, range, rules, k, allowed) * unitPrice;
      exact <= 1000 * PlannedCharge(rows, range, rules, version, k)
            <= exact + 999 * |PlannedBillables(rows, range, rules, version, k)|
  {
    hide PlannedBillables, PlannedCharge, OneAllowance, PricedBy, UnitsPast;
    ChargesAreBillables(rows, range, rules, version, k, allowed, Per1K(unitPrice));
    RoundedSum(PlannedBillables(rows, range, rules, version, k), unitPrice);
  }

  // Tiered prices: the day-by-day estimate is a ceiling

  function TierPrice(tiers: seq<Tier>): nat -> nat { (x: nat) => TieredPrice(tiers, x).GetOr(0) }

  /** Every billable quantity is part of a row of the range. */
  lemma {:induction false} BillablesWithin(
      rows: seq<UsageRow>, range: DayRange, rules: seq<PricingRule>, version: string,
      k: AllowanceKey, b: nat)
    requires b in RangeBillables(rows, range, rules, version, k)
    ensures exists r :: r in rows && InRange(range, r.day) && DrawsOn(r, rules) == Some(k) && b <= r.quantity
  {
    var n := |rows| - 1;
    hide Walk, DrawsOn;
    if b in RangeBillables(rows[..n], range, rules, version, k) {
      BillablesWithin(rows[..n], range, rules, version, k, b);
      var r :| r in rows[..n] && InRange(range, r.day) && DrawsOn(r, rules) == Some(k) && b <= r.quantity;
      assert r in rows;
    } else {
      assert rows[n] in rows;
    }
  }

  /** The units' price in tiers is known wherever the rows' is. */
  ghost predicate TierPriced(
      rows: seq<UsageRow>, range: DayRange, rules: seq<PricingRule>, k: AllowanceKey, tiers: seq<Tier>) {
    && PricedBy(rows, range, rules, k, TierPrice(tiers))
    && forall r, x: nat :: r in rows && InRange(range, r.day) && DrawsOn(r, rules) == Some(k) && x <= r.quantity ==>
         TieredPrice(tiers, x).Some?
  }

  /**
   Day-by-day tier pricing under one allowance charges at most the first-band price of the units the range moves
   past it, and, wherever their price in one go is known, at least that price.
   */
  lemma TieredChargesAreCeiling(rows: seq<UsageRow>, range: DayRange, rules: seq<PricingRule>, version: string,
                                k: AllowanceKey, allowed: nat, tiers: seq<Tier>)
    requires OneAllowance(rows, rules, k, allowed) && TierPriced(rows, range, rules, k, tiers)
    requires tiers != [] && WellFormed(tiers, 0) && NonIncreasing(tiers)
    ensures var charged := PlannedCharge(rows, range, rules, version, k);
      var units := UnitsPast(rows, range, rules, k, allowed);
      && 0 <= units && charged <= units * tiers[0].unitPriceMicros
      && (TieredPrice(tiers, units).Some? ==> TieredPrice(tiers, units).value <= charged)
  {
    hide StableSort, UsageBefore, DrawsOn, Walk, OneAllowance, UnitsPast, PlannedCharge, TieredPrice, WellFormed,
        NonIncreasing;
    var bs := PlannedBillables(rows, range, rules, version, k);
    ChargesAreBillables(rows, range, rules, version, k, allowed, TierPrice(tiers));
    SortExact(rows, UsageBefore);
    forall b | b in bs ensures TieredPrice(tiers, b).Some? {
      BillablesWithin(StableSort(rows, UsageBefore), range, rules, version, k, b);
    }
    SumCong(bs, AsIntFunction(TierPrice(tiers)), PriceOrZero(tiers));
    FirstBandSum(tiers, bs);
    if TieredPrice(tiers, TotalUnits(bs)).Some? {
      DailyPriceIsCeiling(tiers, bs);
    }
  }

  lemma {:induction false} FirstBandSum(tiers: seq<Tier>, bs: seq<nat>)
    requires tiers != [] && WellFormed(tiers, 0) && NonIncreasing(tiers)
    requires forall b :: b in bs ==> TieredPrice(tiers, b).Some?
    ensures SumBy(bs, PriceOrZero(tiers)) <= TotalUnits(bs) * tiers[0].unitPriceMicros
  {
    hide TieredPrice, UnitByUnit, WellFormed, NonIncreasing, Covers;
    if bs != [] {
      assert bs[0] in bs;
      FirstBandSum(tiers, bs[1..]);
      TieredIsUnitByUnit(tiers, bs[0]);
      AtMostFirstBand(tiers, bs[0]);
      Distributes(bs[0], TotalUnits(bs[1..]), tiers[0].unitPriceMicros);
    }
  }
}
