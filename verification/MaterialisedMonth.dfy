/**
 From the rebuilt table to the forecast: the rows a month's query reads back after
 one run are the rows the forecast's floor is proved about.
 */
module MaterialisedMonth {
  import opened Calendar
  import opened Wrappers
  import opened Sums
  import opened Budget
  import opened CostSources
  import opened ManualCost
  import opened ManualPlan
  import opened Forecast
  import opened ManualMaterialise
  import opened ForecastFloor

  function Nullable(column: string): Option<string> { if column == "" then None else Some(column) }

  /** A table row as the cost engine reads it. */
  function ReadBack(key: RowKey, val: RowVal): CostRow {
    var b := val.billing;
    CostRow(key.day, key.providerId, key.serviceId,
            Nullable(key.operationId), Nullable(key.usageMetricId), Nullable(key.billingSkuId),
            b.amountMicros, b.currency, key.basis, val.confidence, key.source,
            b.costKind, b.billingCadence, b.periodAmountMicros)
  }

  /** The query of one environment's month answers each of its rows once, in any order. */
  ghost predicate Answers(t: Table, env: string, month: CalendarMonth, keys: seq<RowKey>, rows: seq<CostRow>) {
    && NoDup(keys)
    && (forall key :: key in keys <==> key in t && key.environment == env && key.day.InMonth() == month)
    && |rows| == |keys|
    && forall i :: 0 <= i < |keys| ==> rows[i] == ReadBack(keys[i], t[keys[i]])
  }

  /**
   Before the run: no intruder, planned rows kept at the confidence they are written with, and nothing else but
   usage.
   */
  ghost predicate Rebuildable(t: Table, env: string, items: seq<Item>, today: Date) {
    forall key :: key in t ==>
      && !Intruder(env, items, today, key)
      && (PlannedKey(env, items, today, key) ==> t[key].confidence == High)
      && (key.environment == env && !ManualKey(env, key) ==> t[key].billing.costKind.Usage?)
  }

  lemma SameReading(a: RowKey, b: RowKey, v: RowVal, w: RowVal)
    requires a.environment == b.environment && SameRowKey(ReadBack(a, v), ReadBack(b, w))
    ensures a == b
  {
  }

  lemma AnswersUnique(t: Table, env: string, month: CalendarMonth, keys: seq<RowKey>, rows: seq<CostRow>)
    requires Answers(t, env, month, keys, rows)
    ensures UniqueKey(rows)
  {
    forall i, j | 0 <= i < j < |rows| ensures !SameRowKey(rows[i], rows[j]) {
      assert keys[i] in keys && keys[j] in keys;
      if SameRowKey(rows[i], rows[j]) {
        SameReading(keys[i], keys[j], t[keys[i]], t[keys[j]]);
      }
    }
  }

  lemma PlannedReadBack(t: Table, env: string, items: seq<Item>, p: RowPlan)
    requires PlanKey(env, p) in t ==> t[PlanKey(env, p)].confidence == High
    ensures ReadBack(PlanKey(env, p), PlanVal(t, env, items, p)) == CostOf(p)
  {
  }

  /** What one run leaves is what the floor asks of the month's rows. */
  lemma MaterialisedRowsAsOf(
      t: Table, env: string, items: seq<Item>, today: Date, month: CalendarMonth, keys: seq<RowKey>, rows: seq<CostRow>)
    requires UniqueIds(items) && Rebuildable(t, env, items, today)
    requires Answers(Rebuilt(t, env, items, today), env, month, keys, rows)
    ensures RowsAsOf(items, month, today, rows)
  {
    hide Rebuilt, ReadBack, PlanVal, CostOf, PlanKey, Intruder, DueBy;
    var r := Rebuilt(t, env, items, today);
    MaterialiseExact(t, env, items, today);
    AnswersUnique(r, env, month, keys, rows);
    forall row | row in rows && !row.costKind.Usage? ensures LandedRow(items, today, row) {
      var i :| 0 <= i < |rows| && rows[i] == row;
      ReadIsLanded(t, env, items, today, keys[i]);
    }
    forall item, day: Date | item in items && DueBy(item, today, day) && day.InMonth() == month
      ensures CostOf(PlanRow(item, day)) in rows
    {
      DueIsRead(t, env, items, today, month, keys, rows, item, day);
    }
  }

  lemma ReadIsLanded(t: Table, env: string, items: seq<Item>, today: Date, key: RowKey)
    requires UniqueIds(items) && Rebuildable(t, env, items, today)
    requires key in Rebuilt(t, env, items, today) && key.environment == env
    requires !ReadBack(key, Rebuilt(t, env, items, today)[key]).costKind.Usage?
    ensures LandedRow(items, today, ReadBack(key, Rebuilt(t, env, items, today)[key]))
  {
    hide Rebuilt, PlanVal, CostOf, PlanKey, Intruder, DueBy;
    MaterialiseExact(t, env, items, today);
    assert ManualKey(env, key);
    var p :| Planned(items, today, p) && PlanKey(env, p) == key;
    PlannedReadBack(t, env, items, p);
  }

  lemma DueIsRead(
      t: Table, env: string, items: seq<Item>, today: Date, month: CalendarMonth, keys: seq<RowKey>, rows: seq<CostRow>,
      item: Item, day: Date)
    requires UniqueIds(items) && Rebuildable(t, env, items, today)
    requires Answers(Rebuilt(t, env, items, today), env, month, keys, rows)
    requires item in items && DueBy(item, today, day) && day.InMonth() == month
    ensures CostOf(PlanRow(item, day)) in rows
  {
    hide Rebuilt, PlanVal, CostOf, Intruder, DueBy;
    MaterialiseExact(t, env, items, today);
    var p := PlanRow(item, day);
    assert Planned(items, today, p);
    var key := PlanKey(env, p);
    assert PlannedKey(env, items, today, key);
    PlannedReadBack(t, env, items, p);
    assert key in keys;
    var i :| 0 <= i < |keys| && keys[i] == key;
    assert rows[i] in rows;
  }

  /** So one run of the materialiser is enough for the month's floor to be its manual charges. */
  lemma FloorAfterMaterialise(
      t: Table, env: string, items: seq<Item>, today: Date, month: CalendarMonth, keys: seq<RowKey>, rows: seq<CostRow>)
    requires UniqueIds(items) && Rebuildable(t, env, items, today)
    requires Answers(Rebuilt(t, env, items, today), env, month, keys, rows)
    ensures FloorOf(month, rows, ScheduleFor(items, month)) == MonthManualMicros(items, month)
  {
    MaterialisedRowsAsOf(t, env, items, today, month, keys, rows);
    FloorIsMonthManual(items, month, today, rows);
  }
}
