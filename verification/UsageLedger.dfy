/**
 The buffered usage ledger: counts arrive while a flush is in flight, a failed
 flush puts its counts back, and one transaction posts to two tables.
 */
module UsageLedger {
  import opened Wrappers

  /** A UTC calendar day, numbered from the epoch. */
  type UtcDay = int

  const REQUESTS_TOTAL := "places_provider_requests_total"
  const COST_UNITS := "places_provider_cost_units"
  const DRAIN_PASSES := 5

  /** The labels are None where the label is absent or not a string. */
  datatype Labels = Labels(methodLabel: Option<string>, status: string, sku: Option<string>)

  datatype Slot = Slot(day: UtcDay, operation: string)

  datatype Tally = Tally(attempted: nat, succeeded: nat, units: nat)

  function Zero(): Tally { Tally(0, 0, 0) }

  type Tallies = map<Slot, Tally>

  datatype Service = Service(id: string, providerId: string)

  datatype Meter = Meter(metric: string, unit: string, billingSkuId: Option<string>)

  /** The registry's lookups, as the ledger uses them. */
  datatype Registry = Registry(
    operationForSku: string -> string,
    serviceFor: string -> Option<Service>,
    callsMeter: string -> Option<Meter>,
    billableMeter: string -> Option<Meter>)

  /**
   `provider_usage_meter_daily`'s unique key within one environment and the source `ledger`; a null SKU is
   coalesced to "".
   */
  datatype MeterKey = MeterKey(day: UtcDay, providerId: string, serviceId: string, operationId: string,
      metric: string, sku: string)

  datatype MeterRow = MeterRow(key: MeterKey, quantity: nat, unit: string)

  type Meters = map<MeterKey, nat>

  function Coalesce(v: Option<string>): string {
    match v
    case Some(x) => x
    case None => ""
  }

  /** The registry's constructor refuses a billable meter that names no billing SKU; SKU ids are not empty. */
  ghost predicate WellFormed(reg: Registry) {
    forall op :: reg.billableMeter(op).Some? ==>
      reg.billableMeter(op).value.billingSkuId.Some? && reg.billableMeter(op).value.billingSkuId.value != ""
  }

  function StringLabel(v: Option<string>): Option<string> {
    if v == Some("") then None else v
  }

  predicate Is2xx(status: string) { status != "" && status[0] == '2' }

  function Plus(a: Tally, b: Tally): Tally {
    Tally(a.attempted + b.attempted, a.succeeded + b.succeeded, a.units + b.units)
  }

  function At(m: Tallies, k: Slot): Tally { if k in m then m[k] else Zero() }

  function MeterAt(m: Meters, k: MeterKey): nat { if k in m then m[k] else 0 }

  /** What one `increment` is worth: nothing, or an amount in one slot. */
  function Counted(reg: Registry, day: UtcDay, name: string, labels: Labels, amount: int): Option<(Slot, Tally)> {
    if amount <= 0 then None
    else if name == REQUESTS_TOTAL then
      match StringLabel(labels.methodLabel)
      case None => None
      case Some(op) => Some((Slot(day, op), Tally(amount, if Is2xx(labels.status) then amount else 0, 0)))
    else if name == COST_UNITS then
      match StringLabel(labels.sku)
      case None => None
      case Some(sku) => Some((Slot(day, reg.operationForSku(sku)), Tally(0, 0, amount)))
    else None
  }

  /** The canonical rows one slot becomes. */
  function MeterRowsFor(reg: Registry, slot: Slot, t: Tally): seq<MeterRow> {
    match reg.serviceFor(slot.operation)
    case None => []
    case Some(service) =>
      (if t.attempted > 0 then [MeterRow(CallsKey(reg, slot), t.attempted, CallsUnit(reg, slot.operation))] else [])
      + (match reg.billableMeter(slot.operation)
         case Some(m) => if t.units > 0 then [MeterRow(BillableKey(reg, slot), t.units, m.unit)] else []
         case None => [])
  }

  function CallsUnit(reg: Registry, op: string): string {
    match reg.callsMeter(op)
    case Some(m) => m.unit
    case None => "request"
  }

  function CallsKey(reg: Registry, slot: Slot): MeterKey
    requires reg.serviceFor(slot.operation).Some?
  {
    var service := reg.serviceFor(slot.operation).value;
    var metric := match reg.callsMeter(slot.operation) case Some(m) => m.metric case None => "calls";
    MeterKey(slot.day, service.providerId, service.id, slot.operation, metric, "")
  }

  function BillableKey(reg: Registry, slot: Slot): MeterKey
    requires reg.serviceFor(slot.operation).Some? && reg.billableMeter(slot.operation).Some?
  {
    var service, m := reg.serviceFor(slot.operation).value, reg.billableMeter(slot.operation).value;
    MeterKey(slot.day, service.providerId, service.id, slot.operation, m.metric, Coalesce(m.billingSkuId))
  }

  /** The meter row of one metric of the slot's operation, under the operation's own service. */
  predicate MeterRowSays(
      row: MeterRow, service: Service, slot: Slot, metric: string, sku: string, unit: string, n: nat) {
    && row.key.day == slot.day && row.key.operationId == slot.operation
    && row.key.providerId == service.providerId && row.key.serviceId == service.id
    && row.key.metric == metric && row.key.sku == sku && row.unit == unit && row.quantity == n && n > 0
  }

  /**
   The canonical rows of a slot: its attempts under the calls meter, "calls" in requests if it has none, and its
   units under the billable meter, if it has one; none for nothing, nor for an operation of no service.
   */
  lemma MeterRowsExact(reg: Registry, slot: Slot, t: Tally, row: MeterRow)
    ensures row in MeterRowsFor(reg, slot, t) <==>
      var service, calls, billable :=
        reg.serviceFor(slot.operation), reg.callsMeter(slot.operation), reg.billableMeter(slot.operation);
      service.Some? &&
      ((calls.None? && MeterRowSays(row, service.value, slot, "calls", "", "request", t.attempted)) ||
       (calls.Some? && MeterRowSays(row, service.value, slot, calls.value.metric, "", calls.value.unit, t.attempted)) ||
       (billable.Some? && MeterRowSays(row, service.value, slot, billable.value.metric,
                                       billable.value.billingSkuId.GetOr(""), billable.value.unit, t.units)))
  {
    var found := reg.serviceFor(slot.operation);
    if found.Some? {
      var calls := MeterRow(CallsKey(reg, slot), t.attempted, CallsUnit(reg, slot.operation));
      assert t.attempted > 0 ==> calls in MeterRowsFor(reg, slot, t);
    }
  }

  // The two upserts, pointwise

  function Merge(m: Tallies, d: Tallies): Tallies {
    map k | k in m.Keys + d.Keys :: Plus(At(m, k), At(d, k))
  }

  function QuantityOf(rows: seq<MeterRow>, key: MeterKey): nat {
    if rows == [] then 0 else (if rows[0].key == key then rows[0].quantity else 0) + QuantityOf(rows[1..], key)
  }

  function RowKeys(reg: Registry, d: Tallies): set<MeterKey> {
    set slot, row | slot in d && row in MeterRowsFor(reg, slot, d[slot]) :: row.key
  }

  /** A meter key names its own slot, so only that slot's rows can reach it. */
  function Post(reg: Registry, m: Meters, d: Tallies): Meters {
    map key | key in m.Keys + RowKeys(reg, d) ::
      MeterAt(m, key) + QuantityOf(MeterRowsFor(reg, SlotOf(key), At(d, SlotOf(key))), key)
  }

  /** One row's `do update`, and a statement's worth of them. */
  function PostRows(m: Meters, rows: seq<MeterRow>): Meters
    decreases rows
  {
    if rows == [] then m
    else PostRows(m[rows[0].key := MeterAt(m, rows[0].key) + rows[0].quantity], rows[1..])
  }

  function SlotOf(key: MeterKey): Slot { Slot(key.day, key.operationId) }

  // The state machine

  /** `inFlight` is Some of nothing while a flush that found an empty buffer has yet to settle. */
  datatype State = State(usage: Tallies, meters: Meters, inFlight: Option<Tallies>, buffer: Tallies)

  datatype Event =
    | Increment(day: UtcDay, name: string, labels: Labels, amount: int)
    | Flush
    | WriteCommits
    | WriteFails

  function Add(buffer: Tallies, slot: Slot, t: Tally): Tallies { buffer[slot := Plus(At(buffer, slot), t)] }

  function Next(reg: Registry, s: State, e: Event): State {
    match e
    case Increment(day, name, labels, amount) =>
      (match Counted(reg, day, name, labels, amount)
       case None => s
       case Some(c) => s.(buffer := Add(s.buffer, c.0, c.1)))
    case Flush =>
      if s.inFlight.Some? then s else s.(inFlight := Some(s.buffer), buffer := map[])
    case WriteCommits =>
      (match s.inFlight
       case None => s
       case Some(d) => s.(usage := Merge(s.usage, d), meters := Post(reg, s.meters, d), inFlight := None))
    case WriteFails =>
      (match s.inFlight
       case None => s
       case Some(d) => s.(buffer := Merge(s.buffer, d), inFlight := None))
  }

  /** A flush, joined or begun, together with how its write ends. */
  function Flushed(reg: Registry, s: State, refused: bool): State {
    Next(reg, Next(reg, s, Flush), if refused then WriteFails else WriteCommits)
  }

  /** `drain`'s flushes, with no increment between them. */
  function Passes(reg: Registry, s: State, n: nat, refuses: int -> bool): State {
    if n == 0 then s else Flushed(reg, Passes(reg, s, n - 1, refuses), refuses(n - 1))
  }

  function Run(reg: Registry, s: State, run: seq<Event>): State {
    if run == [] then s else Next(reg, Run(reg, s, run[..|run| - 1]), run[|run| - 1])
  }

  function Empty(): State { State(map[], map[], None, map[]) }

  function InFlightAt(s: State, k: Slot): Tally {
    match s.inFlight
    case None => Zero()
    case Some(d) => At(d, k)
  }

  /** Persisted, in flight and buffered together. */
  function Total(s: State, k: Slot): Tally {
    Plus(Plus(At(s.usage, k), InFlightAt(s, k)), At(s.buffer, k))
  }

  /** What the increments of a run add up to for one slot. */
  function Recorded(reg: Registry, run: seq<Event>, k: Slot): Tally {
    if run == [] then Zero() else Plus(Recorded(reg, run[..|run| - 1], k), Worth(reg, run[|run| - 1], k))
  }

  /** An attempt recorded for the slot: a positive request count under its operation's label. */
  predicate RequestOf(e: Event, k: Slot) {
    e.Increment? && e.name == REQUESTS_TOTAL && e.amount > 0 && e.day == k.day
    && e.labels.methodLabel == Some(k.operation) && k.operation != ""
  }

  /** Billable units recorded for the slot: a positive amount under a SKU that folds onto its operation. */
  predicate UnitsOf(reg: Registry, e: Event, k: Slot) {
    e.Increment? && e.name == COST_UNITS && e.amount > 0 && e.day == k.day
    && e.labels.sku.Some? && e.labels.sku.value != "" && reg.operationForSku(e.labels.sku.value) == k.operation
  }

  function Worth(reg: Registry, e: Event, k: Slot): Tally {
    Tally(if RequestOf(e, k) then e.amount else 0,
          if RequestOf(e, k) && e.labels.status != "" && e.labels.status[0] == '2' then e.amount else 0,
          if UnitsOf(reg, e, k) then e.amount else 0)
  }

  lemma StepConserves(reg: Registry, s: State, e: Event, k: Slot)
    ensures Total(Next(reg, s, e), k) == Plus(Total(s, k), Worth(reg, e, k))
  {
    hide *;
    match e
    case Increment(_, _, _, _) => IncrementConserves(reg, s, e, k);
    case Flush => FlushConserves(reg, s, k);
    case WriteCommits => SettleConserves(reg, s, e, k);
    case WriteFails => SettleConserves(reg, s, e, k);
  }

  lemma FlushConserves(reg: Registry, s: State, k: Slot)
    ensures Total(Next(reg, s, Flush), k) == Plus(Total(s, k), Worth(reg, Flush, k))
  {
    hide Post, Counted, Merge, Add, At, Plus, Zero, Worth;
    WorthNothing(reg, Flush, k);
    PlusZero(Total(s, k));
    if s.inFlight.None? {
      NothingAt(map[], k);
      PlusZero(At(s.usage, k));
      PlusZero(Plus(At(s.usage, k), At(s.buffer, k)));
    }
  }

  /** What the branches of `increment` add to a slot is what the event is worth to it. */
  lemma CountedIsWorth(reg: Registry, e: Event, k: Slot)
    requires e.Increment?
    ensures var c := Counted(reg, e.day, e.name, e.labels, e.amount);
      Worth(reg, e, k) == if c.Some? && c.value.0 == k then c.value.1 else Zero()
  {
  }

  lemma WorthNothing(reg: Registry, e: Event, k: Slot)
    requires !e.Increment?
    ensures Worth(reg, e, k) == Zero()
  {
  }

  lemma PlusAssociates(a: Tally, b: Tally, c: Tally)
    ensures Plus(Plus(a, b), c) == Plus(a, Plus(b, c))
  {
  }

  lemma IncrementConserves(reg: Registry, s: State, e: Event, k: Slot)
    requires e.Increment?
    ensures Total(Next(reg, s, e), k) == Plus(Total(s, k), Worth(reg, e, k))
  {
    hide Post, Counted, Merge, Add, At, Worth, Plus, Zero;
    var c := Counted(reg, e.day, e.name, e.labels, e.amount);
    CountedIsWorth(reg, e, k);
    if c.Some? {
      AddAt(s.buffer, c.value.0, c.value.1, k);
      PlusAssociates(Plus(At(s.usage, k), InFlightAt(s, k)), At(s.buffer, k), Worth(reg, e, k));
    } else {
      PlusZero(Total(s, k));
    }
  }

  lemma SettleConserves(reg: Registry, s: State, e: Event, k: Slot)
    requires e.WriteCommits? || e.WriteFails?
    ensures Total(Next(reg, s, e), k) == Plus(Total(s, k), Worth(reg, e, k))
  {
    hide Post, Counted, Merge, Add, At, Worth;
    WorthNothing(reg, e, k);
    if s.inFlight.Some? {
      MergeAt(s.usage, s.inFlight.value, k);
      MergeAt(s.buffer, s.inFlight.value, k);
    }
  }

  lemma MergeAt(m: Tallies, d: Tallies, k: Slot)
    ensures At(Merge(m, d), k) == Plus(At(m, k), At(d, k))
  {
  }

  lemma MergeNothing(m: Tallies)
    ensures Merge(m, map[]) == m
  {
  }

  lemma MergeOneMore(m: Tallies, d: Tallies, slot: Slot, t: Tally)
    requires slot !in d
    ensures Add(Merge(m, d), slot, t) == Merge(m, d[slot := t])
  {
  }

  lemma PostNothing(reg: Registry, m: Meters)
    ensures Post(reg, m, map[]) == m
  {
    hide MeterRowsFor;
    forall key | key in m ensures Post(reg, m, map[])[key] == m[key] {
      NoRowsForNothing(reg, SlotOf(key));
    }
  }

  lemma Returned(reg: Registry, s: State, buffer: Tallies)
    requires s.inFlight.Some? && buffer == Merge(s.buffer, s.inFlight.value)
    ensures Next(reg, s, WriteFails) == State(s.usage, s.meters, None, buffer)
  {
  }

  lemma Landed(reg: Registry, s: State)
    requires s.inFlight.Some?
    ensures Next(reg, s, WriteCommits) == State(Merge(s.usage, s.inFlight.value),
        Post(reg, s.meters, s.inFlight.value), None, s.buffer)
  {
  }

  lemma NothingInFlight(reg: Registry, s: State)
    requires s.inFlight == Some(map[])
    ensures Next(reg, s, WriteCommits) == Next(reg, s, WriteFails) == s.(inFlight := None)
  {
    hide Merge, Post;
    PostNothing(reg, s.meters);
    MergeNothing(s.usage);
    MergeNothing(s.buffer);
  }

  lemma AddAt(m: Tallies, slot: Slot, t: Tally, k: Slot)
    ensures At(Add(m, slot, t), k) == Plus(At(m, k), if slot == k then t else Zero())
  {
  }

  lemma PlusZero(a: Tally)
    ensures Plus(a, Zero()) == a
  {
  }

  lemma NothingAt(m: Tallies, k: Slot)
    requires m == map[]
    ensures At(m, k) == Zero()
  {
  }

  /** No count is ever lost or doubled, whatever the writes do and whenever increments arrive. */
  lemma {:induction false} LedgerConserves(reg: Registry, run: seq<Event>, k: Slot)
    ensures Total(Run(reg, Empty(), run), k) == Recorded(reg, run, k)
  {
    if run == [] {
      NothingAt(map[], k);
    } else {
      hide Next, Worth, At, Total;
      LedgerConserves(reg, run[..|run| - 1], k);
      StepConserves(reg, Run(reg, Empty(), run[..|run| - 1]), run[|run| - 1], k);
    }
  }

  /** The attempts, successes and billable units that a run records for a slot. */
  function AttemptsIn(run: seq<Event>, k: Slot): nat {
    if run == [] then 0
    else AttemptsIn(run[..|run| - 1], k) + if RequestOf(run[|run| - 1], k) then run[|run| - 1].amount else 0
  }

  function SuccessesIn(run: seq<Event>, k: Slot): nat {
    if run == [] then 0
    else
      var e := run[|run| - 1];
      var succeeded := RequestOf(e, k) && e.labels.status != "" && e.labels.status[0] == '2';
      SuccessesIn(run[..|run| - 1], k) + if succeeded then e.amount else 0
  }

  function UnitsIn(reg: Registry, run: seq<Event>, k: Slot): nat {
    if run == [] then 0
    else UnitsIn(reg, run[..|run| - 1], k) + if UnitsOf(reg, run[|run| - 1], k) then run[|run| - 1].amount else 0
  }

  lemma {:induction false} RecordedCounts(reg: Registry, run: seq<Event>, k: Slot)
    ensures Recorded(reg, run, k) == Tally(AttemptsIn(run, k), SuccessesIn(run, k), UnitsIn(reg, run, k))
  {
    if run != [] {
      hide RequestOf, UnitsOf;
      RecordedCounts(reg, run[..|run| - 1], k);
    }
  }

  /** Each of the three counts on its own: what is persisted, in flight and buffered is what was recorded. */
  lemma CountsConserved(reg: Registry, run: seq<Event>, k: Slot)
    ensures var s := Run(reg, Empty(), run);
      var posted, flying, waiting := At(s.usage, k), InFlightAt(s, k), At(s.buffer, k);
      && posted.attempted + flying.attempted + waiting.attempted == AttemptsIn(run, k)
      && posted.succeeded + flying.succeeded + waiting.succeeded == SuccessesIn(run, k)
      && posted.units + flying.units + waiting.units == UnitsIn(reg, run, k)
  {
    hide Run, At, InFlightAt, Recorded;
    LedgerConserves(reg, run, k);
    RecordedCounts(reg, run, k);
  }

  lemma FlushedConserves(reg: Registry, s: State, refused: bool, k: Slot)
    ensures Total(Flushed(reg, s, refused), k) == Total(s, k)
  {
    hide Next, Total, Worth, Plus, Zero;
    var settles := if refused then WriteFails else WriteCommits;
    StepConserves(reg, s, Flush, k);
    StepConserves(reg, Next(reg, s, Flush), settles, k);
    WorthNothing(reg, Flush, k);
    WorthNothing(reg, settles, k);
    PlusZero(Total(s, k));
  }

  lemma PassesUnfold(reg: Registry, s: State, n: nat, refuses: int -> bool)
    ensures Passes(reg, s, n, refuses) ==
            if n == 0 then s else Flushed(reg, Passes(reg, s, n - 1, refuses), refuses(n - 1))
  {
    hide Flushed;
  }

  lemma {:induction false} PassesConserve(reg: Registry, s: State, n: nat, refuses: int -> bool, k: Slot)
    ensures Total(Passes(reg, s, n, refuses), k) == Total(s, k)
  {
    hide *;
    PassesUnfold(reg, s, n, refuses);
    if n > 0 {
      PassesConserve(reg, s, n - 1, refuses, k);
      FlushedConserves(reg, Passes(reg, s, n - 1, refuses), refuses(n - 1), k);
    }
  }

  /** One pass may only join a flush that began before the last counts arrived; the second one takes those. */
  lemma TwoPassesEmpty(reg: Registry, s: State, refuses: int -> bool)
    requires !refuses(0) && !refuses(1)
    ensures Passes(reg, s, 2, refuses).buffer == map[] && Passes(reg, s, 2, refuses).inFlight.None?
    ensures Passes(reg, s, 1, refuses).buffer == map[] <==> s.inFlight.None? || s.buffer == map[]
  {
    hide Merge, Post;
    assert Passes(reg, s, 1, refuses) == Flushed(reg, Passes(reg, s, 0, refuses), false);
  }

  predicate Billed(t: Tally) { t.succeeded <= t.attempted }

  ghost predicate AllBilled(m: Tallies) { forall k :: Billed(At(m, k)) }

  ghost predicate SuccessWithin(s: State) {
    AllBilled(s.usage) && AllBilled(s.buffer) && (s.inFlight.Some? ==> AllBilled(s.inFlight.value))
  }

  lemma MergeBilled(m: Tallies, d: Tallies)
    requires AllBilled(m) && AllBilled(d)
    ensures AllBilled(Merge(m, d))
  {
    forall k ensures Billed(At(Merge(m, d), k)) {
      assert Billed(At(m, k)) && Billed(At(d, k));
    }
  }

  lemma AddBilled(m: Tallies, k: Slot, t: Tally)
    requires AllBilled(m) && Billed(t)
    ensures AllBilled(Add(m, k, t))
  {
    forall j ensures Billed(At(Add(m, k, t), j)) {
      assert Billed(At(m, j));
    }
  }

  /** In the table, in flight and in the buffer alike, successes never exceed attempts. */
  lemma {:induction false} SucceededWithinAttempted(reg: Registry, run: seq<Event>)
    ensures SuccessWithin(Run(reg, Empty(), run))
  {
    if run != [] {
      hide Merge, Post, AllBilled, Add;
      var s, e := Run(reg, Empty(), run[..|run| - 1]), run[|run| - 1];
      SucceededWithinAttempted(reg, run[..|run| - 1]);
      NothingBilled();
      match e
      case Increment(day, name, labels, amount) =>
        var c := Counted(reg, day, name, labels, amount);
        if c.Some? { AddBilled(s.buffer, c.value.0, c.value.1); }
      case Flush =>
      case WriteCommits => if s.inFlight.Some? { MergeBilled(s.usage, s.inFlight.value); }
      case WriteFails => if s.inFlight.Some? { MergeBilled(s.buffer, s.inFlight.value); }
    } else {
      NothingBilled();
    }
  }

  lemma NothingBilled()
    ensures AllBilled(map[])
  {
  }

  // The two tables

  ghost predicate Agree(reg: Registry, s: State) {
    && (forall slot: Slot :: MetersMatch(reg, s, slot))
    && (forall key :: key in s.meters ==> reg.serviceFor(key.operationId).Some?)
  }

  ghost predicate MetersMatch(reg: Registry, s: State, slot: Slot) {
    reg.serviceFor(slot.operation).Some? ==>
      && MeterAt(s.meters, CallsKey(reg, slot)) == At(s.usage, slot).attempted
      && (reg.billableMeter(slot.operation).Some? ==>
            MeterAt(s.meters, BillableKey(reg, slot)) == At(s.usage, slot).units)
  }

  lemma RowsQuantities(reg: Registry, slot: Slot, t: Tally)
    requires WellFormed(reg) && reg.serviceFor(slot.operation).Some?
    ensures QuantityOf(MeterRowsFor(reg, slot, t), CallsKey(reg, slot)) == t.attempted
    ensures reg.billableMeter(slot.operation).Some? ==>
        QuantityOf(MeterRowsFor(reg, slot, t), BillableKey(reg, slot)) == t.units
  {
    var row := MeterRow(CallsKey(reg, slot), t.attempted, CallsUnit(reg, slot.operation));
    var calls := if t.attempted > 0 then [row] else [];
    match reg.billableMeter(slot.operation)
    case None =>
      assert MeterRowsFor(reg, slot, t) == calls;
    case Some(m) =>
      var billed := if t.units > 0 then [MeterRow(BillableKey(reg, slot), t.units, m.unit)] else [];
      assert MeterRowsFor(reg, slot, t) == calls + billed;
      QuantityAppend(calls, billed, CallsKey(reg, slot));
      QuantityAppend(calls, billed, BillableKey(reg, slot));
  }

  lemma {:induction false} QuantityAppend(a: seq<MeterRow>, b: seq<MeterRow>, key: MeterKey)
    ensures QuantityOf(a + b, key) == QuantityOf(a, key) + QuantityOf(b, key)
  {
    if a == [] {
      assert a + b == b;
    } else {
      assert (a + b)[1..] == a[1..] + b;
      QuantityAppend(a[1..], b, key);
    }
  }

  lemma PostedQuantity(reg: Registry, m: Meters, d: Tallies, key: MeterKey)
    ensures MeterAt(Post(reg, m, d), key) == MeterAt(m, key)
        + QuantityOf(MeterRowsFor(reg, SlotOf(key), At(d, SlotOf(key))), key)
  {
    hide MeterRowsFor;
    var rows := MeterRowsFor(reg, SlotOf(key), At(d, SlotOf(key)));
    if key !in m.Keys + RowKeys(reg, d) {
      if SlotOf(key) in d {
        forall row | row in rows ensures row.key != key {}
      } else {
        NoRowsForNothing(reg, SlotOf(key));
      }
      NoQuantity(rows, key);
    }
  }

  lemma NoRowsForNothing(reg: Registry, slot: Slot)
    ensures MeterRowsFor(reg, slot, Zero()) == []
  {
  }

  lemma {:induction false} NoQuantity(rows: seq<MeterRow>, key: MeterKey)
    requires forall row :: row in rows ==> row.key != key
    ensures QuantityOf(rows, key) == 0
  {
    if rows != [] {
      NoQuantity(rows[1..], key);
    }
  }

  lemma CommitAgrees(reg: Registry, s: State, d: Tallies)
    requires WellFormed(reg) && Agree(reg, s) && s.inFlight == Some(d)
    ensures Agree(reg, Next(reg, s, WriteCommits))
  {
    hide MeterRowsFor, QuantityOf, Post, RowKeys;
    var after := Next(reg, s, WriteCommits);
    forall slot ensures MetersMatch(reg, after, slot) {
      assert MetersMatch(reg, s, slot);
      if reg.serviceFor(slot.operation).Some? {
        RowsQuantities(reg, slot, At(d, slot));
        PostedQuantity(reg, s.meters, d, CallsKey(reg, slot));
        if reg.billableMeter(slot.operation).Some? {
          PostedQuantity(reg, s.meters, d, BillableKey(reg, slot));
        }
      }
    }
    PostedServices(reg, s.meters, d);
  }

  lemma PostedServices(reg: Registry, m: Meters, d: Tallies)
    requires forall key :: key in m ==> reg.serviceFor(key.operationId).Some?
    ensures forall key :: key in Post(reg, m, d) ==> reg.serviceFor(key.operationId).Some?
  {
  }

  /** After any run the meter table says what the usage table says, for every registered operation and for no other. */
  lemma {:induction false} TablesAgree(reg: Registry, run: seq<Event>)
    requires WellFormed(reg)
    ensures Agree(reg, Run(reg, Empty(), run))
  {
    if run != [] {
      hide Agree, Counted, Merge, Post, WellFormed;
      var s, e := Run(reg, Empty(), run[..|run| - 1]), run[|run| - 1];
      TablesAgree(reg, run[..|run| - 1]);
      if e.WriteCommits? && s.inFlight.Some? {
        CommitAgrees(reg, s, s.inFlight.value);
      } else {
        AgreeReadsTables(reg, s, Next(reg, s, e));
      }
    }
  }

  lemma AgreeReadsTables(reg: Registry, s: State, t: State)
    requires Agree(reg, s) && s.usage == t.usage && s.meters == t.meters
    ensures Agree(reg, t)
  {
    forall slot ensures MetersMatch(reg, t, slot) {
      assert MetersMatch(reg, s, slot);
    }
  }

  /** `rows` is a flush's worth of meter rows, in whatever order its slots were visited. */
  ghost predicate Collected(reg: Registry, rows: seq<MeterRow>, d: Tallies) {
    && (forall key :: QuantityOf(rows, key) == QuantityOf(MeterRowsFor(reg, SlotOf(key), At(d, SlotOf(key))), key))
    && (forall row :: row in rows ==> row.key in RowKeys(reg, d))
    && (forall key :: key in RowKeys(reg, d) ==> HasKey(rows, key))
  }

  ghost predicate HasKey(rows: seq<MeterRow>, key: MeterKey) { exists row :: row in rows && row.key == key }

  lemma RowsNameTheirSlot(reg: Registry, slot: Slot, t: Tally)
    ensures forall row :: row in MeterRowsFor(reg, slot, t) ==> SlotOf(row.key) == slot
  {
  }

  lemma CollectedNothing(reg: Registry)
    ensures Collected(reg, [], map[])
  {
    forall key ensures MeterRowsFor(reg, SlotOf(key), At(map[], SlotOf(key))) == [] {
      NothingAt(map[], SlotOf(key));
      NoRowsForNothing(reg, SlotOf(key));
    }
  }

  lemma CollectedSlot(reg: Registry, rows: seq<MeterRow>, d: Tallies, slot: Slot, t: Tally)
    requires Collected(reg, rows, d) && slot !in d
    ensures Collected(reg, rows + MeterRowsFor(reg, slot, t), d[slot := t])
  {
    hide MeterRowsFor, QuantityOf;
    var more, all := MeterRowsFor(reg, slot, t), d[slot := t];
    RowsNameTheirSlot(reg, slot, t);
    forall key
      ensures QuantityOf(rows + more, key) == QuantityOf(MeterRowsFor(reg, SlotOf(key), At(all, SlotOf(key))), key)
    {
      QuantityAppend(rows, more, key);
      if SlotOf(key) == slot {
        NoRowsForNothing(reg, slot);
        NoQuantity([], key);
      } else {
        NoQuantity(more, key);
      }
    }
    CollectedKeys(reg, rows, d, slot, t);
  }

  lemma CollectedKeys(reg: Registry, rows: seq<MeterRow>, d: Tallies, slot: Slot, t: Tally)
    requires Collected(reg, rows, d) && slot !in d
    ensures forall row :: row in rows + MeterRowsFor(reg, slot, t) ==> row.key in RowKeys(reg, d[slot := t])
    ensures forall key :: key in RowKeys(reg, d[slot := t]) ==> HasKey(rows + MeterRowsFor(reg, slot, t), key)
  {
    hide MeterRowsFor, QuantityOf;
    var more, all := MeterRowsFor(reg, slot, t), d[slot := t];
    forall row | row in rows + more ensures row.key in RowKeys(reg, all) {
      if row in rows {
        var s, r :| s in d && r in MeterRowsFor(reg, s, d[s]) && r.key == row.key;
        assert s in all && all[s] == d[s];
      } else {
        assert slot in all && all[slot] == t;
      }
    }
    forall key | key in RowKeys(reg, all) ensures HasKey(rows + more, key) {
      var s, r :| s in all && r in MeterRowsFor(reg, s, all[s]) && r.key == key;
      if s == slot {
        assert r in rows + more;
      } else {
        assert key in RowKeys(reg, d);
        var earlier :| earlier in rows && earlier.key == key;
        assert earlier in rows + more;
      }
    }
  }

  lemma {:induction false} PostRowsExact(m: Meters, rows: seq<MeterRow>)
    ensures forall key :: key in PostRows(m, rows) <==> key in m || HasKey(rows, key)
    ensures forall key :: MeterAt(PostRows(m, rows), key) == MeterAt(m, key) + QuantityOf(rows, key)
    decreases rows
  {
    if rows != [] {
      PostRowsExact(m[rows[0].key := MeterAt(m, rows[0].key) + rows[0].quantity], rows[1..]);
      forall key ensures HasKey(rows, key) <==> rows[0].key == key || HasKey(rows[1..], key) {
        assert rows == [rows[0]] + rows[1..];
      }
    }
  }

  /** Row by row or slot by slot, the meter upsert leaves the same table. */
  lemma PostRowsIsPost(reg: Registry, m: Meters, rows: seq<MeterRow>, d: Tallies)
    requires Collected(reg, rows, d)
    ensures PostRows(m, rows) == Post(reg, m, d)
  {
    hide MeterRowsFor, QuantityOf, PostRows, RowKeys;
    PostRowsExact(m, rows);
    forall key | key in PostRows(m, rows)
      ensures key in Post(reg, m, d) && PostRows(m, rows)[key] == Post(reg, m, d)[key]
    {
      assert MeterAt(PostRows(m, rows), key) == MeterAt(m, key) + QuantityOf(rows, key);
    }
  }

  /** One flush never proposes two rows under one key, which the conflict clause could not accept. */
  lemma FlushRowsDistinct(reg: Registry, d: Tallies, a: Slot, i: nat, b: Slot, j: nat)
    requires WellFormed(reg) && a in d && b in d
    requires i < |MeterRowsFor(reg, a, d[a])| && j < |MeterRowsFor(reg, b, d[b])|
    requires MeterRowsFor(reg, a, d[a])[i].key == MeterRowsFor(reg, b, d[b])[j].key
    ensures a == b && i == j
  {
    assert SlotOf(MeterRowsFor(reg, a, d[a])[i].key) == a;
    assert SlotOf(MeterRowsFor(reg, b, d[b])[j].key) == b;
  }
}
