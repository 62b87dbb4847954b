/**
 Rebuilding an environment's MANUAL rows in `provider_cost_daily` from its items:
 upsert the plan, delete what a live item no longer bills, delete orphans.
 */
module ManualMaterialise {
  import opened Calendar
  import opened Wrappers
  import opened Budget
  import opened CostSources
  import opened ManualCost
  import opened ManualPlan

  const INSERT_CHUNK := 500

  /** The table's unique key; its nullable columns coalesced to "". */
  datatype RowKey = RowKey(
    day: Date, environment: string, providerId: string, serviceId: string,
    operationId: string, usageMetricId: string, billingSkuId: string, source: string, basis: CostBasis)

  datatype Metadata =
    | ItemMetadata(itemId: string, name: Option<string>, period: Period, costKind: CostKind,
                   billingCadence: Option<BillingCadence>,
                   chargeDay: Date, amountMicros: int, effectiveFrom: Date, effectiveTo: Option<Date>)
    | OtherMetadata(json: string)

  /** What an upsert compares and overwrites. */
  datatype Billing = Billing(
    amountMicros: int, currency: string, costKind: CostKind, billingCadence: Option<BillingCadence>,
    periodAmountMicros: Option<int>, metadata: Metadata)

  datatype RowVal = RowVal(billing: Billing, confidence: Confidence)

  type Table = map<RowKey, RowVal>

  function PlanKey(env: string, p: RowPlan): RowKey {
    RowKey(p.day, env, p.providerId, p.serviceId, "", "", "", p.source, Manual)
  }

  function ItemById(items: seq<Item>, id: string): Option<Item> {
    if items == [] then None
    else if items[|items| - 1].id == id then Some(items[|items| - 1])
    else ItemById(items[..|items| - 1], id)
  }

  function MetadataFor(items: seq<Item>, p: RowPlan): Metadata {
    match ItemById(items, p.itemId)
    case Some(item) => ItemMetadata(item.id, item.name, item.period, p.costKind, p.billingCadence, p.day,
                                    item.amountMicros, item.effectiveFrom, item.effectiveTo)
    case None => OtherMetadata("")
  }

  function PlanBilling(items: seq<Item>, p: RowPlan): Billing {
    Billing(p.amountMicros, p.currency, p.costKind, p.billingCadence, p.periodAmountMicros, MetadataFor(items, p))
  }

  /** A planned row's value: the plan's billing, and the confidence of the row it updates. */
  function PlanVal(t: Table, env: string, items: seq<Item>, p: RowPlan): RowVal {
    RowVal(PlanBilling(items, p), if PlanKey(env, p) in t then t[PlanKey(env, p)].confidence else High)
  }

  /** What a planned row stores: the row's money, and the item it bills. */
  lemma PlanBillingSays(items: seq<Item>, today: Date, p: RowPlan, item: Item)
    requires UniqueIds(items) && item in items && RowSays(p, item)
    ensures PlanBilling(items, p) ==
            Billing(item.amountMicros, item.currency, p.costKind, p.billingCadence, p.periodAmountMicros,
                    ItemMetadata(item.id, item.name, item.period, p.costKind, p.billingCadence, p.day,
                                 item.amountMicros, item.effectiveFrom, item.effectiveTo))
  {
    ItemByIdExact(items, item);
  }

  lemma {:induction false} ItemByIdExact(items: seq<Item>, item: Item)
    requires UniqueIds(items) && item in items
    ensures ItemById(items, item.id) == Some(item)
  {
    var n := |items| - 1;
    if items[n] != item {
      assert items == items[..n] + [items[n]];
      var i :| 0 <= i < n && items[i] == item;
      assert items[i].id != items[n].id;
      ItemByIdExact(items[..n], item);
    }
  }

  // The three statements

  /**
   `insert ... on conflict do update ... where is distinct from`, for one row: the new table, and whether it
   wrote.
   */
  function Upsert(t: Table, k: RowKey, b: Billing): (Table, nat) {
    if k !in t then (t[k := RowVal(b, High)], 1)
    else if t[k].billing == b then (t, 0)
    else (t[k := RowVal(b, t[k].confidence)], 1)
  }

  function UpsertAll(t: Table, env: string, items: seq<Item>, plan: seq<RowPlan>): (Table, nat) {
    if plan == [] then (t, 0)
    else
      var n := |plan| - 1;
      var (before, wrote) := UpsertAll(t, env, items, plan[..n]);
      var (after, one) := Upsert(before, PlanKey(env, plan[n]), PlanBilling(items, plan[n]));
      (after, wrote + one)
  }

  predicate Stale(env: string, k: Keep, key: RowKey) {
    && key.environment == env && key.source == k.source
    && !(key.providerId == k.providerId && key.serviceId == k.serviceId && key.day in k.days)
  }

  function DeleteStale(t: Table, env: string, k: Keep): Table {
    map key | key in t && !Stale(env, k, key) :: t[key]
  }

  function DeleteAllStale(t: Table, env: string, keep: seq<Keep>): Table {
    if keep == [] then t else DeleteStale(DeleteAllStale(t, env, keep[..|keep| - 1]), env, keep[|keep| - 1])
  }

  predicate Orphan(env: string, live: seq<string>, key: RowKey) {
    key.environment == env && IsManualCostSource(key.source) && key.source !in live
  }

  function DeleteOrphans(t: Table, env: string, live: seq<string>): Table {
    map key | key in t && !Orphan(env, live, key) :: t[key]
  }

  function KeepsOf(items: seq<Item>, today: Date): seq<Keep> {
    seq(|items|, i requires 0 <= i < |items| => KeepOf(items[i], today))
  }

  function LiveSources(items: seq<Item>): seq<string> {
    seq(|items|, i requires 0 <= i < |items| => ManualCostSource(items[i].id))
  }

  function Rebuilt(t: Table, env: string, items: seq<Item>, today: Date): Table {
    var upserted := UpsertAll(t, env, items, PlanRows(items, today)).0;
    DeleteOrphans(DeleteAllStale(upserted, env, KeepsOf(items, today)), env, LiveSources(items))
  }

  // The service

  class CostTable {
    var rows: Table

    constructor (rows: Table)
      ensures this.rows == rows
    {
      this.rows := rows;
    }

    /** One chunk of planned rows is one statement. */
    method UpsertChunk(env: string, items: seq<Item>, chunk: seq<RowPlan>) returns (wrote: nat)
      modifies this
      ensures (rows, wrote) == UpsertAll(old(rows), env, items, chunk)
    {
      hide Upsert, UpsertAll;
      wrote := 0;
      UpsertNone(rows, env, items, chunk[..0]);
      for i := 0 to |chunk|
        invariant (rows, wrote) == UpsertAll(old(rows), env, items, chunk[..i])
      {
        UpsertAllSnoc(old(rows), env, items, chunk[..i], chunk[i]);
        assert chunk[..i + 1] == chunk[..i] + [chunk[i]];
        var (after, one) := Upsert(rows, PlanKey(env, chunk[i]), PlanBilling(items, chunk[i]));
        rows, wrote := after, wrote + one;
      }
      assert chunk[..|chunk|] == chunk;
    }

    method DeleteStaleOf(env: string, k: Keep) returns (deleted: nat)
      modifies this
      ensures rows == DeleteStale(old(rows), env, k)
      ensures deleted == |old(rows)| - |rows|
    {
      var kept := DeleteStale(rows, env, k);
      SubmapSize(kept, rows);
      deleted := |rows| - |kept|;
      rows := kept;
    }

    method DeleteOrphansOf(env: string, live: seq<string>) returns (deleted: nat)
      modifies this
      ensures rows == DeleteOrphans(old(rows), env, live)
      ensures deleted == |old(rows)| - |rows|
    {
      var kept := DeleteOrphans(rows, env, live);
      SubmapSize(kept, rows);
      deleted := |rows| - |kept|;
      rows := kept;
    }

    method UpsertPlan(env: string, items: seq<Item>, plan: seq<RowPlan>) returns (wrote: nat)
      modifies this
      ensures (rows, wrote) == UpsertAll(old(rows), env, items, plan)
    {
      hide Upsert, UpsertAll;
      wrote := 0;
      var at := 0;
      UpsertNone(rows, env, items, plan[..0]);
      while at < |plan|
        invariant 0 <= at <= |plan|
        invariant (rows, wrote) == UpsertAll(old(rows), env, items, plan[..at])
      {
        var next := if at + INSERT_CHUNK < |plan| then at + INSERT_CHUNK else |plan|;
        UpsertAllAppend(old(rows), env, items, plan[..at], plan[at..next]);
        assert plan[..at] + plan[at..next] == plan[..next];
        var more := UpsertChunk(env, items, plan[at..next]);
        wrote := wrote + more;
        at := next;
      }
      assert plan[..at] == plan;
    }

    method DeleteUnbilled(env: string, keep: seq<Keep>) returns (deleted: nat)
      modifies this
      ensures rows == DeleteAllStale(old(rows), env, keep)
      ensures deleted == |old(rows)| - |rows|
    {
      deleted := 0;
      hide DeleteStale;
      for i := 0 to |keep|
        invariant rows == DeleteAllStale(old(rows), env, keep[..i])
        invariant deleted == |old(rows)| - |rows|
      {
        assert keep[..i + 1][..i] == keep[..i];
        var n := DeleteStaleOf(env, keep[i]);
        deleted := deleted + n;
      }
      assert keep[..|keep|] == keep;
    }

    /** Counts every row written and every row deleted, and leaves the rebuilt table. */
    method Materialise(env: string, items: seq<Item>, today: Date) returns (rowsWritten: nat, rowsDeleted: nat)
      modifies this
      ensures rows == Rebuilt(old(rows), env, items, today)
      ensures rowsWritten == UpsertAll(old(rows), env, items, PlanRows(items, today)).1
      ensures UniqueIds(items) ==> rowsWritten == |Differing(old(rows), env, items, PlanRows(items, today))|
      ensures rowsDeleted == |UpsertAll(old(rows), env, items, PlanRows(items, today)).0| - |rows|
    {
      hide UpsertAll, PlanRows, DeleteAllStale, DeleteOrphans, KeepOf;
      var plan, keep := PlanManualCosts(items, today);
      assert keep == KeepsOf(items, today);
      if UniqueIds(items) {
        WrittenExactly(rows, env, items, today);
      }
      rowsWritten := UpsertPlan(env, items, plan);
      rowsDeleted := DeleteUnbilled(env, keep);
      SourceOfKeep(items, today);
      var live := seq(|keep|, i requires 0 <= i < |keep| => keep[i].source);
      assert live == LiveSources(items);
      var orphans := DeleteOrphansOf(env, live);
      rowsDeleted := rowsDeleted + orphans;
    }
  }

  lemma SourceOfKeep(items: seq<Item>, today: Date)
    ensures forall i :: 0 <= i < |items| ==> KeepOf(items[i], today).source == ManualCostSource(items[i].id)
  {
  }

  lemma SubmapSize(a: Table, b: Table)
    requires a.Keys <= b.Keys
    ensures |a| <= |b|
    ensures |a| == |b| ==> a.Keys == b.Keys
  {
    assert |b.Keys - a.Keys| + |a.Keys| == |b.Keys| by {
      assert a.Keys + (b.Keys - a.Keys) == b.Keys;
    }
    if |a| == |b| {
      assert b.Keys - a.Keys == {};
    }
  }

  lemma UpsertAllSnoc(t: Table, env: string, items: seq<Item>, plan: seq<RowPlan>, p: RowPlan)
    ensures var before := UpsertAll(t, env, items, plan);
            var after := Upsert(before.0, PlanKey(env, p), PlanBilling(items, p));
            UpsertAll(t, env, items, plan + [p]) == (after.0, before.1 + after.1)
  {
    assert (plan + [p])[..|plan|] == plan;
    hide Upsert, PlanKey, PlanBilling;
  }

  lemma UpsertNone(t: Table, env: string, items: seq<Item>, plan: seq<RowPlan>)
    requires plan == []
    ensures UpsertAll(t, env, items, plan) == (t, 0)
  {
  }

  lemma {:induction false} UpsertAllAppend(t: Table, env: string, items: seq<Item>, a: seq<RowPlan>, b: seq<RowPlan>)
    ensures var first := UpsertAll(t, env, items, a);
            var second := UpsertAll(first.0, env, items, b);
            UpsertAll(t, env, items, a + b) == (second.0, first.1 + second.1)
  {
    hide *;
    var mid := UpsertAll(t, env, items, a).0;
    if b == [] {
      assert a + b == a;
      UpsertNone(mid, env, items, b);
    } else {
      var n := |b| - 1;
      UpsertAllAppend(t, env, items, a, b[..n]);
      assert a + b == (a + b[..n]) + [b[n]];
      assert b == b[..n] + [b[n]];
      UpsertAllSnoc(t, env, items, a + b[..n], b[n]);
      UpsertAllSnoc(mid, env, items, b[..n], b[n]);
    }
  }

  // What one run leaves

  lemma {:induction false} UpsertAllElsewhere(t: Table, env: string, items: seq<Item>, plan: seq<RowPlan>, key: RowKey)
    requires forall p :: p in plan ==> PlanKey(env, p) != key
    ensures var u := UpsertAll(t, env, items, plan).0;
            (key in u <==> key in t) && (key in t ==> u[key] == t[key])
  {
    if plan != [] {
      var n := |plan| - 1;
      assert plan[n] in plan;
      UpsertAllElsewhere(t, env, items, plan[..n], key);
    }
  }

  lemma {:induction false} UpsertAllConfidence(t: Table, env: string, items: seq<Item>, plan: seq<RowPlan>, key: RowKey)
    ensures var u := UpsertAll(t, env, items, plan).0;
            && (key in t ==> key in u)
            && (key in u ==> u[key].confidence == if key in t then t[key].confidence else High)
  {
    if plan != [] {
      UpsertAllConfidence(t, env, items, plan[..|plan| - 1], key);
    }
  }

  /** A planned row is there, with the planned value, if no other planned row shares its key. */
  lemma {:induction false} UpsertAllAt(t: Table, env: string, items: seq<Item>, plan: seq<RowPlan>, p: RowPlan)
    requires p in plan
    requires forall q :: q in plan && PlanKey(env, q) == PlanKey(env, p) ==> q == p
    ensures var u := UpsertAll(t, env, items, plan).0;
            PlanKey(env, p) in u && u[PlanKey(env, p)] == PlanVal(t, env, items, p)
  {
    hide PlanBilling;
    var n := |plan| - 1;
    assert plan == plan[..n] + [plan[n]];
    UpsertAllConfidence(t, env, items, plan, PlanKey(env, p));
    if plan[n] != p {
      assert plan[n] in plan;
      UpsertAllAt(t, env, items, plan[..n], p);
    }
  }

  /** Rows already as planned are not written again. */
  lemma {:induction false} UpsertAllIdle(t: Table, env: string, items: seq<Item>, plan: seq<RowPlan>)
    requires forall p :: p in plan ==> PlanKey(env, p) in t && t[PlanKey(env, p)].billing == PlanBilling(items, p)
    ensures UpsertAll(t, env, items, plan) == (t, 0)
  {
    if plan != [] {
      var n := |plan| - 1;
      assert plan[n] in plan;
      UpsertAllIdle(t, env, items, plan[..n]);
    }
  }

  /** The row is missing, or differs in what the upsert compares. */
  predicate Differs(t: Table, env: string, items: seq<Item>, p: RowPlan) {
    PlanKey(env, p) !in t || t[PlanKey(env, p)].billing != PlanBilling(items, p)
  }

  ghost function Differing(t: Table, env: string, items: seq<Item>, plan: seq<RowPlan>): set<RowKey> {
    set p | p in plan && Differs(t, env, items, p) :: PlanKey(env, p)
  }

  ghost predicate OneRowAKey(env: string, plan: seq<RowPlan>) {
    forall i, j :: 0 <= i < j < |plan| ==> PlanKey(env, plan[i]) != PlanKey(env, plan[j])
  }

  lemma DifferingSnoc(t: Table, env: string, items: seq<Item>, rest: seq<RowPlan>, p: RowPlan)
    requires OneRowAKey(env, rest + [p])
    ensures PlanKey(env, p) !in Differing(t, env, items, rest)
    ensures forall q :: q in rest ==> PlanKey(env, q) != PlanKey(env, p)
    ensures Differing(t, env, items, rest + [p]) ==
            Differing(t, env, items, rest) + if Differs(t, env, items, p) then {PlanKey(env, p)} else {}
  {
    hide PlanKey, Differs;
    var plan := rest + [p];
    forall q | q in rest ensures PlanKey(env, q) != PlanKey(env, p) {
      var i :| 0 <= i < |rest| && rest[i] == q;
      assert plan[i] == q && plan[|rest|] == p;
    }
  }

  /** With one row to a key, the upsert counts exactly the planned rows that were missing or differed. */
  lemma {:induction false} UpsertCounts(t: Table, env: string, items: seq<Item>, plan: seq<RowPlan>)
    requires OneRowAKey(env, plan)
    ensures UpsertAll(t, env, items, plan).1 == |Differing(t, env, items, plan)|
  {
    if plan != [] {
      hide PlanKey, PlanBilling, Differing, UpsertAll;
      var n := |plan| - 1;
      var p, rest := plan[n], plan[..n];
      assert plan == rest + [p];
      UpsertCounts(t, env, items, rest);
      DifferingSnoc(t, env, items, rest, p);
      UpsertAllElsewhere(t, env, items, rest, PlanKey(env, p));
      UpsertAllSnoc(t, env, items, rest, p);
    } else {
      assert Differing(t, env, items, plan) == {};
    }
  }

  /** The plan has one row to a key, so a run's `rowsWritten` is the number of planned rows that were not as planned. */
  lemma WrittenExactly(t: Table, env: string, items: seq<Item>, today: Date)
    requires UniqueIds(items)
    ensures UpsertAll(t, env, items, PlanRows(items, today)).1 == |Differing(t, env, items, PlanRows(items, today))|
  {
    hide PlanRows, UpsertAll, Differing;
    PlanKeysDistinct(env, items, today);
    UpsertCounts(t, env, items, PlanRows(items, today));
  }

  lemma {:induction false} PlanKeysDistinct(env: string, items: seq<Item>, today: Date)
    requires UniqueIds(items)
    ensures OneRowAKey(env, PlanRows(items, today))
  {
    if items != [] {
      var n := |items| - 1;
      var rest, mine := PlanRows(items[..n], today), MaterialiseItem(items[n], today);
      PlanKeysDistinct(env, items[..n], today);
      OwnKeysDistinct(env, items[n], today);
      forall p, q | p in rest && q in mine ensures PlanKey(env, p) != PlanKey(env, q) {
        OtherItemsSource(items, today, p);
        MaterialiseItemExact(items[n], today, q);
      }
      hide PlanKey, PlanRows, MaterialiseItem;
      DistinctAppend(env, rest, mine);
    }
  }

  lemma OwnKeysDistinct(env: string, item: Item, today: Date)
    ensures OneRowAKey(env, MaterialiseItem(item, today))
  {
    hide PlannedDays;
    var days, rows := PlannedDays(item, today), MaterialiseItem(item, today);
    PlannedDaysExact(item, today);
    forall i, j | 0 <= i < j < |rows| ensures PlanKey(env, rows[i]) != PlanKey(env, rows[j]) {
      assert Lt(days[i], days[j]);
    }
  }

  lemma DistinctAppend(env: string, a: seq<RowPlan>, b: seq<RowPlan>)
    requires OneRowAKey(env, a) && OneRowAKey(env, b)
    requires forall p, q :: p in a && q in b ==> PlanKey(env, p) != PlanKey(env, q)
    ensures OneRowAKey(env, a + b)
  {
    hide PlanKey;
  }

  lemma OtherItemsSource(items: seq<Item>, today: Date, p: RowPlan)
    requires UniqueIds(items) && items != [] && p in PlanRows(items[..|items| - 1], today)
    ensures p.source != ManualCostSource(items[|items| - 1].id)
  {
    var n := |items| - 1;
    PlanRowsExact(items[..n], today, p);
    var item, day: Date :| item in items[..n] && DueBy(item, today, day) && p == PlanRow(item, day);
    LastNotBefore(items);
    if ManualCostSource(item.id) == ManualCostSource(items[n].id) {
      UniqueSource(items, item, items[n]);
    }
  }

  lemma {:induction false} DeleteAllStaleAt(t: Table, env: string, keep: seq<Keep>, key: RowKey)
    ensures var d := DeleteAllStale(t, env, keep);
            (key in d <==> key in t && forall k :: k in keep ==> !Stale(env, k, key)) && (key in d ==> d[key] == t[key])
  {
    if keep != [] {
      var n := |keep| - 1;
      assert keep == keep[..n] + [keep[n]];
      DeleteAllStaleAt(t, env, keep[..n], key);
    }
  }

  lemma PlanKeysUnique(env: string, items: seq<Item>, today: Date, p: RowPlan, q: RowPlan)
    requires UniqueIds(items) && Planned(items, today, p) && Planned(items, today, q)
    requires PlanKey(env, p) == PlanKey(env, q)
    ensures p == q
  {
    var i, x: Date :| i in items && DueBy(i, today, x) && p == PlanRow(i, x);
    var j, y: Date :| j in items && DueBy(j, today, y) && q == PlanRow(j, y);
    UniqueSource(items, i, j);
  }

  /** A key this environment's items plan. */
  ghost predicate PlannedKey(env: string, items: seq<Item>, today: Date, key: RowKey) {
    exists p :: Planned(items, today, p) && PlanKey(env, p) == key
  }

  predicate ManualKey(env: string, key: RowKey) { key.environment == env && IsManualCostSource(key.source) }

  /** A row under a live item's source, service and charge day that no manual item can have written. */
  ghost predicate Intruder(env: string, items: seq<Item>, today: Date, key: RowKey) {
    && !PlannedKey(env, items, today, key)
    && exists item :: item in items && key.environment == env && key.source == ManualCostSource(item.id)
         && key.providerId == item.providerId && key.serviceId == item.serviceId && DueBy(item, today, key.day)
  }

  lemma IntruderIsForeign(env: string, items: seq<Item>, today: Date, key: RowKey)
    requires Intruder(env, items, today, key)
    ensures key.operationId != "" || key.usageMetricId != "" || key.billingSkuId != "" || key.basis != Manual
  {
    var item :| item in items && key.source == ManualCostSource(item.id)
                && key.providerId == item.providerId && key.serviceId == item.serviceId && DueBy(item, today, key.day);
    var p := PlanRow(item, key.day);
    assert Planned(items, today, p);
    assert PlanKey(env, p) != key;
  }

  lemma ManualSourcePrefix(id: string)
    ensures IsManualCostSource(ManualCostSource(id))
  {
    assert ManualCostSource(id)[..|MANUAL_COST_SOURCE_PREFIX|] == MANUAL_COST_SOURCE_PREFIX;
  }

  /** Which keys survive the deletes: foreign ones, and those a live item still bills. */
  lemma SurvivesExact(env: string, items: seq<Item>, today: Date, key: RowKey)
    requires UniqueIds(items)
    ensures ((forall k :: k in KeepsOf(items, today) ==> !Stale(env, k, key)) && !Orphan(env, LiveSources(items), key))
            <==> !ManualKey(env, key) || PlannedKey(env, items, today, key) || Intruder(env, items, today, key)
  {
    var keep, live := KeepsOf(items, today), LiveSources(items);
    if key.source in live && key.environment == env {
      var i :| 0 <= i < |live| && live[i] == key.source;
      var item := items[i];
      assert item in items && keep[i] in keep;
      PlannedDaysExact(item, today);
      ManualSourcePrefix(item.id);
      KeptByOwnItem(env, items, today, key, item);
      forall k | k in keep && k.source == key.source ensures k == keep[i] {
        var j :| 0 <= j < |keep| && keep[j] == k;
        UniqueSource(items, items[j], item);
      }
    } else {
      NotLive(env, items, today, key);
    }
  }

  lemma KeptByOwnItem(env: string, items: seq<Item>, today: Date, key: RowKey, item: Item)
    requires UniqueIds(items) && item in items && key.environment == env && key.source == ManualCostSource(item.id)
    ensures !Stale(env, KeepOf(item, today), key) <==>
            PlannedKey(env, items, today, key) || Intruder(env, items, today, key)
  {
    PlannedDaysExact(item, today);
    if PlannedKey(env, items, today, key) {
      var p :| Planned(items, today, p) && PlanKey(env, p) == key;
      var j, y: Date :| j in items && DueBy(j, today, y) && p == PlanRow(j, y);
      UniqueSource(items, item, j);
    } else if Intruder(env, items, today, key) {
      var j :| j in items && key.source == ManualCostSource(j.id)
               && key.providerId == j.providerId && key.serviceId == j.serviceId && DueBy(j, today, key.day);
      UniqueSource(items, item, j);
    }
  }

  lemma NotLive(env: string, items: seq<Item>, today: Date, key: RowKey)
    requires !(key.source in LiveSources(items) && key.environment == env)
    ensures forall k :: k in KeepsOf(items, today) ==> !Stale(env, k, key)
    ensures !PlannedKey(env, items, today, key) && !Intruder(env, items, today, key)
  {
    var keep, live := KeepsOf(items, today), LiveSources(items);
    forall k | k in keep ensures !Stale(env, k, key) {
      var i :| 0 <= i < |keep| && keep[i] == k;
      assert live[i] == k.source;
    }
    forall item | item in items ensures ManualCostSource(item.id) in live {
      var i :| 0 <= i < |items| && items[i] == item;
      assert live[i] == ManualCostSource(item.id);
    }
  }

  /** What one run leaves at a key, whatever the table held. */
  lemma RebuiltAt(t: Table, env: string, items: seq<Item>, today: Date, key: RowKey)
    requires UniqueIds(items)
    ensures var r := Rebuilt(t, env, items, today);
            && (!ManualKey(env, key) ==> (key in r <==> key in t) && (key in t ==> r[key] == t[key]))
            && (ManualKey(env, key) ==> (key in r <==>
                  PlannedKey(env, items, today, key) || (key in t && Intruder(env, items, today, key))))
            && (key in t && Intruder(env, items, today, key) ==> key in r && r[key] == t[key])
  {
    var plan := PlanRows(items, today);
    var u := UpsertAll(t, env, items, plan).0;
    SurvivesExact(env, items, today, key);
    DeleteAllStaleAt(u, env, KeepsOf(items, today), key);
    if PlannedKey(env, items, today, key) {
      var p :| Planned(items, today, p) && PlanKey(env, p) == key;
      PlannedIsManual(env, items, today, p);
      PlannedIn(t, env, items, today, p);
    } else {
      forall p | p in plan ensures PlanKey(env, p) != key {
        PlanRowsExact(items, today, p);
      }
      UpsertAllElsewhere(t, env, items, plan, key);
    }
  }

  lemma PlannedIsManual(env: string, items: seq<Item>, today: Date, p: RowPlan)
    requires Planned(items, today, p)
    ensures ManualKey(env, PlanKey(env, p))
  {
    var item, day: Date :| item in items && DueBy(item, today, day) && p == PlanRow(item, day);
    ManualSourcePrefix(item.id);
  }

  lemma PlannedIn(t: Table, env: string, items: seq<Item>, today: Date, p: RowPlan)
    requires UniqueIds(items) && Planned(items, today, p)
    ensures var u := UpsertAll(t, env, items, PlanRows(items, today)).0;
            PlanKey(env, p) in u && u[PlanKey(env, p)] == PlanVal(t, env, items, p)
  {
    var plan := PlanRows(items, today);
    PlanRowsExact(items, today, p);
    forall q | q in plan && PlanKey(env, q) == PlanKey(env, p) ensures q == p {
      PlanRowsExact(items, today, q);
      PlanKeysUnique(env, items, today, p, q);
    }
    UpsertAllAt(t, env, items, plan, p);
  }

  /** Every planned row is left with exactly the planned value. */
  lemma PlannedRowsStand(t: Table, env: string, items: seq<Item>, today: Date, p: RowPlan)
    requires UniqueIds(items) && Planned(items, today, p)
    ensures var r := Rebuilt(t, env, items, today);
            PlanKey(env, p) in r && r[PlanKey(env, p)] == PlanVal(t, env, items, p)
  {
    var u := UpsertAll(t, env, items, PlanRows(items, today)).0;
    PlannedIn(t, env, items, today, p);
    PlannedIsManual(env, items, today, p);
    SurvivesExact(env, items, today, PlanKey(env, p));
    DeleteAllStaleAt(u, env, KeepsOf(items, today), PlanKey(env, p));
  }

  /** Exactly the planned rows stand under manual sources, with the planned values, and every other row is as it was. */
  ghost predicate Materialised(t: Table, r: Table, env: string, items: seq<Item>, today: Date) {
    && (forall key :: key in r && ManualKey(env, key) ==> PlannedKey(env, items, today, key))
    && (forall p :: Planned(items, today, p) ==>
          PlanKey(env, p) in r && r[PlanKey(env, p)] == PlanVal(t, env, items, p))
    && (forall key :: !ManualKey(env, key) ==> (key in r <==> key in t) && (key in t ==> r[key] == t[key]))
  }

  /** One run does that if and only if the prior table held no intruder. */
  lemma MaterialiseExact(t: Table, env: string, items: seq<Item>, today: Date)
    requires UniqueIds(items)
    ensures Materialised(t, Rebuilt(t, env, items, today), env, items, today)
            <==> (forall key :: key in t ==> !Intruder(env, items, today, key))
  {
    hide Rebuilt, PlannedKey, Intruder, ManualKey, Planned, PlanVal, PlanKey;
    var r := Rebuilt(t, env, items, today);
    forall p | Planned(items, today, p)
      ensures PlanKey(env, p) in r && r[PlanKey(env, p)] == PlanVal(t, env, items, p)
    {
      PlannedRowsStand(t, env, items, today, p);
    }
    forall key ensures !ManualKey(env, key) ==> (key in r <==> key in t) && (key in t ==> r[key] == t[key]) {
      RebuiltAt(t, env, items, today, key);
    }
    if key :| key in t && Intruder(env, items, today, key) {
      IntrudersStand(t, env, items, today, key);
    } else {
      forall key | key in r && ManualKey(env, key) ensures PlannedKey(env, items, today, key) {
        IntrudersStand(t, env, items, today, key);
      }
    }
  }

  /** A manual row that was not planned is an intruder that was there before. */
  ghost predicate IntruderOrPlanned(t: Table, r: Table, env: string, items: seq<Item>, today: Date, key: RowKey) {
    (key in r && ManualKey(env, key) && !PlannedKey(env, items, today, key)) <==>
        (key in t && Intruder(env, items, today, key))
  }

  lemma IntrudersStand(t: Table, env: string, items: seq<Item>, today: Date, key: RowKey)
    requires UniqueIds(items)
    ensures IntruderOrPlanned(t, Rebuilt(t, env, items, today), env, items, today, key)
  {
    RebuiltAt(t, env, items, today, key);
    if Intruder(env, items, today, key) {
      var item :| item in items && key.environment == env && key.source == ManualCostSource(item.id);
      ManualSourcePrefix(item.id);
    }
  }

  function OneOff(): Item { Item("i", "p", "s", None, 1, "USD", OneTimeFee, Day(2026, 1, 15), None) }

  /** For one: a row of a one-off item's day with an operation id stays, beside the planned row. */
  lemma IntruderStays(env: string, val: RowVal)
    ensures var day: Date, items := Day(2026, 1, 15), [OneOff()];
      var intruder := PlanKey(env, PlanRow(OneOff(), day)).(operationId := "op");
      var t, r := map[intruder := val], Rebuilt(map[intruder := val], env, items, day);
      && intruder in r && r[intruder] == val
      && !Materialised(t, r, env, items, day)
  {
    hide Rebuilt, Materialised;
    var day: Date, items := Day(2026, 1, 15), [OneOff()];
    var intruder := PlanKey(env, PlanRow(OneOff(), day)).(operationId := "op");
    assert OneOff() in items && DueBy(OneOff(), day, day);
    assert forall p :: PlanKey(env, p).operationId == "";
    assert Intruder(env, items, day, intruder);
    RebuiltAt(map[intruder := val], env, items, day, intruder);
    MaterialiseExact(map[intruder := val], env, items, day);
  }

  /** A second run with the same items and day changes nothing and counts nothing. */
  lemma MaterialiseIdempotent(t: Table, env: string, items: seq<Item>, today: Date)
    requires UniqueIds(items)
    ensures var r := Rebuilt(t, env, items, today);
            && Rebuilt(r, env, items, today) == r
            && UpsertAll(r, env, items, PlanRows(items, today)) == (r, 0)
  {
    var r, plan := Rebuilt(t, env, items, today), PlanRows(items, today);
    forall p | p in plan ensures PlanKey(env, p) in r && r[PlanKey(env, p)].billing == PlanBilling(items, p) {
      PlanRowsExact(items, today, p);
      PlannedRowsStand(t, env, items, today, p);
    }
    UpsertAllIdle(r, env, items, plan);
    NothingLeftToDelete(t, env, items, today);
  }

  lemma NothingLeftToDelete(t: Table, env: string, items: seq<Item>, today: Date)
    requires UniqueIds(items)
    ensures var r := Rebuilt(t, env, items, today);
            DeleteOrphans(DeleteAllStale(r, env, KeepsOf(items, today)), env, LiveSources(items)) == r
  {
    var r := Rebuilt(t, env, items, today);
    var d := DeleteAllStale(r, env, KeepsOf(items, today));
    var again := DeleteOrphans(d, env, LiveSources(items));
    forall key ensures (key in again <==> key in r) && (key in r ==> again[key] == r[key]) {
      RebuiltAt(t, env, items, today, key);
      SurvivesExact(env, items, today, key);
      DeleteAllStaleAt(r, env, KeepsOf(items, today), key);
    }
    assert again == r;
  }
}
