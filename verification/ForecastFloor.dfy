/**
 The known part of the month does not move when a charge lands: whatever day of
 the month it is, the floor is the month's manual charges at their full amounts.
 */
module ForecastFloor {
  import opened Calendar
  import opened Sums
  import opened Wrappers
  import opened Budget
  import opened SpendPrecedence
  import opened CostSources
  import opened ManualCost
  import opened Forecast
  import opened ManualPlan

  // The month's rows as the materialiser leaves them

  /** A planned row as the cost engine reads it back. */
  function CostOf(p: RowPlan): CostRow {
    CostRow(p.day, p.providerId, p.serviceId, None, None, None, p.amountMicros, p.currency, Manual, High, p.source,
            p.costKind, p.billingCadence, p.periodAmountMicros)
  }

  ghost predicate LandedRow(items: seq<Item>, today: Date, r: CostRow) {
    exists item, day: Date :: item in items && DueBy(item, today, day) && r == CostOf(PlanRow(item, day))
  }

  /** The month's rows are usage rows of any kind and exactly the charges due so far. */
  ghost predicate RowsAsOf(items: seq<Item>, month: CalendarMonth, today: Date, rows: seq<CostRow>) {
    && UniqueKey(rows)
    && (forall r :: r in rows && !r.costKind.Usage? ==> LandedRow(items, today, r))
    && (forall item, day: Date :: item in items && DueBy(item, today, day) && day.InMonth() == month
          ==> CostOf(PlanRow(item, day)) in rows)
  }

  /** The landed rows of one kind in the month, each once. */
  ghost predicate LandedOfKind(items: seq<Item>, month: CalendarMonth, today: Date, k: CostKind, rs: seq<CostRow>) {
    && NoDup(rs)
    && forall r :: r in rs <==> r.costKind == k && r.day.InMonth() == month && LandedRow(items, today, r)
  }

  lemma RowsOfKindLanded(items: seq<Item>, month: CalendarMonth, today: Date, rows: seq<CostRow>, k: CostKind)
    requires RowsAsOf(items, month, today, rows) && !k.Usage?
    ensures LandedOfKind(items, month, today, k, RowsOfKind(MonthRows(rows, month), k))
  {
    var inMonth := MonthRows(rows, month);
    var rs := RowsOfKind(inMonth, k);
    UniqueKeyFilter(rows, InMonthOf(month));
    FilterMember(rows, InMonthOf(month));
    WinningExact(inMonth);
    FilterMember(Winning(inMonth), HasKind(k));
    FilterNoDup(Winning(inMonth), HasKind(k));
    forall r ensures r in rs <==> r.costKind == k && r.day.InMonth() == month && LandedRow(items, today, r) {
      if LandedRow(items, today, r) && r.day.InMonth() == month && r.costKind == k {
        var item, day: Date :| item in items && DueBy(item, today, day) && r == CostOf(PlanRow(item, day));
        assert r in rows;
        assert Wins(inMonth, r);
      }
    }
  }

  /** A landed row and the scheduled charge it is: same source, same amount, same kind. */
  lemma LandedIsScheduled(items: seq<Item>, month: CalendarMonth, today: Date, r: CostRow) returns (c: ScheduledCharge)
    requires UniqueIds(items) && LandedRow(items, today, r) && r.day.InMonth() == month
    ensures c in ScheduleFor(items, month).charges
    ensures c.key == r.source && c.amountMicros == r.amountMicros && c.kind == r.costKind
  {
    var item, day: Date :| item in items && DueBy(item, today, day) && r == CostOf(PlanRow(item, day));
    c := ChargeOn(item, day);
    ScheduleExact(items, month);
    assert ChargeOf(items, month, c);
  }

  /** One item charges a month once, so a source has at most one landed row in it. */
  lemma LandedSourceUnique(items: seq<Item>, month: CalendarMonth, today: Date, a: CostRow, b: CostRow)
    requires UniqueIds(items) && LandedRow(items, today, a) && LandedRow(items, today, b)
    requires a.day.InMonth() == month && b.day.InMonth() == month && a.source == b.source
    ensures a == b
  {
    var i, x: Date :| i in items && DueBy(i, today, x) && a == CostOf(PlanRow(i, x));
    var j, y: Date :| j in items && DueBy(j, today, y) && b == CostOf(PlanRow(j, y));
    UniqueSource(items, i, j);
    OneChargeAMonth(i, x, y);
  }

  // Recurring: landed plus remaining is the charge

  function IsRecurring(): ScheduledCharge -> bool { (c: ScheduledCharge) => c.kind.Recurring? }
  function IsOneTime(): ScheduledCharge -> bool { (c: ScheduledCharge) => c.kind.OneTime? }

  ghost predicate KeysTellApart(cs: seq<ScheduledCharge>) {
    forall a, b :: a in cs && b in cs && a.key == b.key ==> a == b
  }

  /** With keys that tell charges apart, the charge map lists each recurring charge once, in order. */
  lemma ChargesOfSnoc(rest: seq<ScheduledCharge>, c: ScheduledCharge)
    ensures ChargesOf(rest + [c]) == if c.kind.Recurring? then ChargesOf(rest).Set(BySource(c.key), c)
        else ChargesOf(rest)
    ensures Filter(rest + [c], IsRecurring()) == Filter(rest, IsRecurring()) + (if c.kind.Recurring? then [c] else [])
  {
    assert (rest + [c])[..|rest|] == rest && (rest + [c])[..|rest| + 1] == rest + [c];
    FilterSnoc(rest + [c], |rest|, IsRecurring());
  }

  ghost predicate ListsEach(m: Ordered<ScheduledCharge>, rec: seq<ScheduledCharge>) {
    && |m.keys| == |rec|
    && (forall i :: 0 <= i < |rec| ==>
          m.keys[i] == BySource(rec[i].key) && m.Has(m.keys[i]) && m.vals[m.keys[i]] == rec[i])
    && (forall k :: m.Has(k) ==> exists c :: c in rec && k == BySource(c.key))
  }

  lemma ListsOneMore(m: Ordered<ScheduledCharge>, rec: seq<ScheduledCharge>, c: ScheduledCharge)
    requires ListsEach(m, rec)
    requires forall x :: x in rec ==> x.key != c.key
    ensures ListsEach(m.Set(BySource(c.key), c), rec + [c])
  {
    var k := BySource(c.key);
    assert !m.Has(k);
    var r := m.Set(k, c);
    assert forall i :: 0 <= i < |rec| ==> rec[i] in rec;
    forall x | r.Has(x) ensures exists d :: d in rec + [c] && x == BySource(d.key) {
      if x == k {
        assert c in rec + [c];
      } else {
        assert m.Has(x);
        var d :| d in rec && x == BySource(d.key);
        assert d in rec + [c];
      }
    }
  }

  lemma {:induction false} ChargesOfExact(cs: seq<ScheduledCharge>)
    requires NoDup(cs) && KeysTellApart(cs)
    ensures ListsEach(ChargesOf(cs), Filter(cs, IsRecurring()))
    ensures forall c :: c in cs && c.kind.Recurring? ==> ChargesOf(cs).Has(BySource(c.key))
  {
    if cs != [] {
      hide ChargesOf, Filter;
      var n := |cs| - 1;
      var rest, c := cs[..n], cs[n];
      assert cs == rest + [c];
      ChargesOfExact(rest);
      ChargesOfSnoc(rest, c);
      FilterMember(rest, IsRecurring());
      assert c !in rest;
      if c.kind.Recurring? {
        ListsOneMore(ChargesOf(rest), Filter(rest, IsRecurring()), c);
      }
    }
  }

  ghost predicate AllScheduled(schedule: MonthSchedule, rs: seq<CostRow>) {
    forall r :: r in rs ==> ScheduledSource(schedule, r.source)
  }

  ghost predicate SourcesTellApart(rs: seq<CostRow>) {
    NoDup(rs) && forall a, b :: a in rs && b in rs && a.source == b.source ==> a == b
  }

  /** Each scheduled source has landed exactly its one row's amount. */
  lemma {:induction false} LandedExact(schedule: MonthSchedule, rs: seq<CostRow>)
    requires AllScheduled(schedule, rs) && SourcesTellApart(rs)
    ensures forall k :: LandedOf(schedule, rs).Has(k) <==> exists r :: r in rs && k == BySource(r.source)
    ensures forall r :: r in rs ==> LandedOf(schedule, rs).Get(BySource(r.source), 0) == r.amountMicros
  {
    if rs != [] {
      var n := |rs| - 1;
      var rest, r := rs[..n], rs[n];
      assert rs == rest + [r];
      LandedExact(schedule, rest);
      assert r !in rest;
      var before, k := LandedOf(schedule, rest), BySource(r.source);
      assert r in rs;
      assert !before.Has(k);
      forall x ensures LandedOf(schedule, rs).Has(x) <==> exists q :: q in rs && x == BySource(q.source) {
        if before.Has(x) {
          var q :| q in rest && x == BySource(q.source);
          assert q in rs;
        }
        if x == k {
          assert r in rs;
        }
      }
    }
  }

  lemma {:induction false} LatestScheduled(schedule: MonthSchedule, rs: seq<CostRow>)
    requires AllScheduled(schedule, rs)
    ensures forall k :: k in LatestOf(schedule, rs).keys ==> k.BySource? && ScheduledSource(schedule, k.source)
  {
    if rs != [] {
      var n := |rs| - 1;
      assert rs == rs[..n] + [rs[n]];
      LatestScheduled(schedule, rs[..n]);
    }
  }

  lemma {:induction false} NothingDeclared(
      charges: Ordered<ScheduledCharge>, latest: Ordered<CostRow>, keys: seq<ChargeKey>)
    requires forall k :: k in keys ==> k in latest.vals
    requires forall k :: k in keys ==> charges.Has(k)
    ensures WithDeclared(charges, latest, keys) == charges
  {
    if keys != [] {
      var n := |keys| - 1;
      assert keys[n] in keys;
      NothingDeclared(charges, latest, keys[..n]);
    }
  }

  /** No landed row declares a charge the schedule does not already hold. */
  lemma ScheduleIsAll(schedule: MonthSchedule, rs: seq<CostRow>)
    requires NoDup(schedule.charges) && KeysTellApart(schedule.charges)
    requires AllScheduled(schedule, rs)
    ensures LatestOf(schedule, rs).Valid()
    ensures WithDeclared(ChargesOf(schedule.charges), LatestOf(schedule, rs), LatestOf(schedule, rs).keys) ==
        ChargesOf(schedule.charges)
  {
    var latest, charges := LatestOf(schedule, rs), ChargesOf(schedule.charges);
    MapsValid(schedule, rs);
    ChargesOfExact(schedule.charges);
    FilterMember(schedule.charges, IsRecurring());
    LatestScheduled(schedule, rs);
    forall k | k in latest.keys ensures charges.Has(k) {
      var c :| c in schedule.charges && c.kind.Recurring? && c.key == k.source;
    }
    NothingDeclared(charges, latest, latest.keys);
  }

  lemma {:induction false} SumPlus<T>(s: seq<T>, f: T -> int, g: T -> int, h: T -> int)
    requires forall x :: x in s ==> f(x) + g(x) == h(x)
    ensures SumBy(s, f) + SumBy(s, g) == SumBy(s, h)
  {
    if s != [] {
      SumPlus(s[1..], f, g, h);
    }
  }

  function AmountAt(charges: Ordered<ScheduledCharge>): ChargeKey -> int {
    (k: ChargeKey) => if charges.Has(k) then charges.vals[k].amountMicros else 0
  }

  /** What the recurring half needs of the landed rows. */
  ghost predicate LandedMatches(schedule: MonthSchedule, rs: seq<CostRow>) {
    && AllScheduled(schedule, rs) && SourcesTellApart(rs)
    && forall r, c :: r in rs && c in schedule.charges && c.key == r.source ==>
        c.amountMicros == r.amountMicros && c.kind.Recurring?
  }

  /** The charge a key of the charge map stands for. */
  lemma ChargeAt(charges: seq<ScheduledCharge>, k: ChargeKey) returns (c: ScheduledCharge)
    requires NoDup(charges) && KeysTellApart(charges) && ChargesOf(charges).Has(k)
    ensures c in charges && c.kind.Recurring? && k == BySource(c.key) && ChargesOf(charges).vals[k] == c
  {
    hide ChargesOf, Filter;
    var m, rec := ChargesOf(charges), Filter(charges, IsRecurring());
    ChargesOfExact(charges);
    FilterMember(charges, IsRecurring());
    c :| c in rec && k == BySource(c.key);
    var i :| 0 <= i < |rec| && rec[i] == c;
    assert m.keys[i] == k;
  }

  lemma LandedAmount(schedule: MonthSchedule, rs: seq<CostRow>, c: ScheduledCharge)
    requires LandedMatches(schedule, rs) && c in schedule.charges
    ensures LandedOf(schedule, rs).Get(BySource(c.key), 0) in {0, c.amountMicros}
  {
    hide LandedOf;
    LandedExact(schedule, rs);
    var landed := LandedOf(schedule, rs);
    if landed.Has(BySource(c.key)) {
      var r :| r in rs && BySource(c.key) == BySource(r.source);
    }
  }

  lemma CommittedPerKey(schedule: MonthSchedule, rs: seq<CostRow>, k: ChargeKey)
    requires NoDup(schedule.charges) && KeysTellApart(schedule.charges) && LandedMatches(schedule, rs)
    requires forall c :: c in schedule.charges ==> c.amountMicros >= 0
    requires ChargesOf(schedule.charges).Has(k)
    ensures var charges, landed := ChargesOf(schedule.charges), LandedOf(schedule, rs);
            LandedAt(landed)(k) + RemainingAt(charges, landed)(k) == AmountAt(charges)(k)
  {
    hide ChargesOf, LandedOf, LandedMatches, KeysTellApart, NoDup;
    var c := ChargeAt(schedule.charges, k);
    LandedAmount(schedule, rs, c);
  }

  lemma RecurringCommitted(schedule: MonthSchedule, rs: seq<CostRow>)
    requires NoDup(schedule.charges) && KeysTellApart(schedule.charges) && LandedMatches(schedule, rs)
    requires forall c :: c in schedule.charges ==> c.amountMicros >= 0
    ensures var t := RecurringOf(schedule, rs);
            t.landedMicros + t.scheduledMicros == SumBy(Filter(schedule.charges, IsRecurring()), ChargeAmount())
  {
    hide SumBy, Filter, LandedOf, LatestOf, ChargesOf, WithDeclared;
    var charges, landed := ChargesOf(schedule.charges), LandedOf(schedule, rs);
    var rec := Filter(schedule.charges, IsRecurring());
    ScheduleIsAll(schedule, rs);
    ChargesOfExact(schedule.charges);
    forall k | k in charges.keys ensures LandedAt(landed)(k) + RemainingAt(charges, landed)(k) == AmountAt(charges)(k) {
      CommittedPerKey(schedule, rs, k);
    }
    SumPlus(charges.keys, LandedAt(landed), RemainingAt(charges, landed), AmountAt(charges));
    SumMapped(charges.keys, rec, AmountAt(charges), ChargeAmount());
    forall k | k in landed.keys ensures LandedOutside(charges, landed)(k) == 0 {
      LandedIsCharged(schedule, rs, k);
    }
    SumZero(landed.keys, LandedOutside(charges, landed));
  }

  lemma LandedIsCharged(schedule: MonthSchedule, rs: seq<CostRow>, k: ChargeKey)
    requires NoDup(schedule.charges) && KeysTellApart(schedule.charges) && LandedMatches(schedule, rs)
    requires k in LandedOf(schedule, rs).keys
    ensures ChargesOf(schedule.charges).Has(k)
  {
    hide ChargesOf, LandedOf, LatestOf, Filter;
    MapsValid(schedule, rs);
    LandedExact(schedule, rs);
    ChargesOfExact(schedule.charges);
    FilterMember(schedule.charges, IsRecurring());
    assert LandedOf(schedule, rs).Has(k);
    var r :| r in rs && k == BySource(r.source);
    var c :| c in schedule.charges && c.kind.Recurring? && c.key == r.source;
  }

  // One-off: counted once, landed or still due

  function LandedOneTime(landed: set<string>): ScheduledCharge -> bool {
    (c: ScheduledCharge) => c.kind.OneTime? && c.key in landed
  }

  lemma {:induction false} OneTimeSplit(cs: seq<ScheduledCharge>, landed: set<string>)
    ensures SumBy(Filter(cs, IsOneTime()), ChargeAmount()) ==
            SumBy(Filter(cs, LandedOneTime(landed)), ChargeAmount())
                + SumBy(Filter(cs, StillDue(landed)), ChargeAmount())
  {
    if cs != [] {
      var n := |cs| - 1;
      OneTimeSplit(cs[..n], landed);
      assert cs[..n + 1] == cs;
      FilterSum(cs, n, IsOneTime());
      FilterSum(cs, n, LandedOneTime(landed));
      FilterSum(cs, n, StillDue(landed));
    }
  }

  lemma FilterSum(cs: seq<ScheduledCharge>, i: nat, p: ScheduledCharge -> bool)
    requires i < |cs|
    ensures SumBy(Filter(cs[..i + 1], p), ChargeAmount()) ==
            SumBy(Filter(cs[..i], p), ChargeAmount()) + (if p(cs[i]) then cs[i].amountMicros else 0)
  {
    FilterSnoc(cs, i, p);
    SumAppend(Filter(cs[..i], p), if p(cs[i]) then [cs[i]] else [], ChargeAmount());
  }

  function PairOfRow(r: CostRow): (string, int) { (r.source, r.amountMicros) }
  function PairOfCharge(c: ScheduledCharge): (string, int) { (c.key, c.amountMicros) }
  function Second(): ((string, int)) -> int { (p: (string, int)) => p.1 }

  function PairsOfRows(rs: seq<CostRow>): seq<(string, int)> { seq(|rs|, i requires 0 <= i < |rs| => PairOfRow(rs[i])) }
  function PairsOfCharges(cs: seq<ScheduledCharge>): seq<(string, int)> {
    seq(|cs|, i requires 0 <= i < |cs| => PairOfCharge(cs[i]))
  }

  lemma RowPairsExact(rs: seq<CostRow>)
    requires SourcesTellApart(rs)
    ensures NoDup(PairsOfRows(rs))
    ensures forall p :: p in PairsOfRows(rs) <==> exists r :: r in rs && PairOfRow(r) == p
  {
    var a := PairsOfRows(rs);
    forall i, j | 0 <= i < j < |a| ensures a[i] != a[j] {
      assert rs[i] in rs && rs[j] in rs && rs[i] != rs[j];
    }
    forall r | r in rs ensures PairOfRow(r) in a {
      var i :| 0 <= i < |rs| && rs[i] == r;
      assert a[i] == PairOfRow(r);
    }
    forall p | p in a ensures exists r :: r in rs && PairOfRow(r) == p {
      var i :| 0 <= i < |a| && a[i] == p;
      assert rs[i] in rs;
    }
  }

  lemma ChargePairsExact(cs: seq<ScheduledCharge>)
    requires NoDup(cs) && KeysTellApart(cs)
    ensures NoDup(PairsOfCharges(cs))
    ensures forall p :: p in PairsOfCharges(cs) <==> exists c :: c in cs && PairOfCharge(c) == p
  {
    var b := PairsOfCharges(cs);
    forall i, j | 0 <= i < j < |b| ensures b[i] != b[j] {
      assert cs[i] in cs && cs[j] in cs && cs[i] != cs[j];
    }
    forall c | c in cs ensures PairOfCharge(c) in b {
      var j :| 0 <= j < |cs| && cs[j] == c;
      assert b[j] == PairOfCharge(c);
    }
    forall p | p in b ensures exists c :: c in cs && PairOfCharge(c) == p {
      var j :| 0 <= j < |b| && b[j] == p;
      assert cs[j] in cs;
    }
  }

  lemma PairTotals(rs: seq<CostRow>, cs: seq<ScheduledCharge>)
    ensures SumBy(PairsOfRows(rs), Second()) == TotalOf(rs)
    ensures SumBy(PairsOfCharges(cs), Second()) == SumBy(cs, ChargeAmount())
  {
    hide SumBy;
    SumMapped(PairsOfRows(rs), rs, Second(), Amount());
    SumMapped(PairsOfCharges(cs), cs, Second(), ChargeAmount());
  }

  /** Rows and charges with the same sources and amounts have the same total. */
  lemma SameMoney(rs: seq<CostRow>, cs: seq<ScheduledCharge>)
    requires SourcesTellApart(rs) && NoDup(cs) && KeysTellApart(cs)
    requires forall p :: p in PairsOfRows(rs) <==> p in PairsOfCharges(cs)
    ensures TotalOf(rs) == SumBy(cs, ChargeAmount())
  {
    hide PairsOfRows, PairsOfCharges, TotalOf, SumBy;
    RowPairsExact(rs);
    ChargePairsExact(cs);
    SumSameElements(PairsOfRows(rs), PairsOfCharges(cs), Second());
    PairTotals(rs, cs);
  }

  // The theorem

  lemma RecurringHalf(items: seq<Item>, month: CalendarMonth, today: Date, rs: seq<CostRow>)
    requires UniqueIds(items) && LandedOfKind(items, month, today, Recurring, rs)
    ensures var t := RecurringOf(ScheduleFor(items, month), rs);
            t.landedMicros + t.scheduledMicros ==
              SumBy(Filter(ScheduleFor(items, month).charges, IsRecurring()), ChargeAmount())
  {
    hide RecurringOf, SumBy, Filter, ScheduleFor, LandedRow;
    var schedule := ScheduleFor(items, month);
    ScheduleExact(items, month);
    forall r | r in rs
      ensures ScheduledSource(schedule, r.source)
      ensures forall c :: c in schedule.charges && c.key == r.source ==>
          c.amountMicros == r.amountMicros && c.kind.Recurring?
    {
      var c := LandedIsScheduled(items, month, today, r);
      assert c in schedule.charges;
    }
    forall a, b | a in rs && b in rs && a.source == b.source ensures a == b {
      LandedSourceUnique(items, month, today, a, b);
    }
    forall c | c in schedule.charges ensures c.amountMicros >= 0 {
      var item, day: Date :| item in items && Billed(item, day) && day.InMonth() == month && c == ChargeOn(item, day);
    }
    RecurringCommitted(schedule, rs);
  }

  lemma OneTimeHalf(items: seq<Item>, month: CalendarMonth, today: Date, rs: seq<CostRow>)
    requires UniqueIds(items) && LandedOfKind(items, month, today, OneTime, rs)
    ensures var cs := ScheduleFor(items, month).charges;
            TotalOf(rs) + SumBy(Filter(cs, StillDue(SourceSet(rs))), ChargeAmount()) ==
              SumBy(Filter(cs, IsOneTime()), ChargeAmount())
  {
    hide SumBy, Filter, ScheduleFor, LandedRow, TotalOf, PairsOfRows, PairsOfCharges;
    var cs, landed := ScheduleFor(items, month).charges, SourceSet(rs);
    var mine := Filter(cs, LandedOneTime(landed));
    ScheduleExact(items, month);
    FilterNoDup(cs, LandedOneTime(landed));
    FilterMember(cs, LandedOneTime(landed));
    forall a, b | a in rs && b in rs && a.source == b.source ensures a == b {
      LandedSourceUnique(items, month, today, a, b);
    }
    RowPairsExact(rs);
    ChargePairsExact(mine);
    forall p | p in PairsOfRows(rs) ensures p in PairsOfCharges(mine) {
      var r :| r in rs && PairOfRow(r) == p;
      var c := LandedIsScheduled(items, month, today, r);
      assert c in mine && PairOfCharge(c) == p;
    }
    forall p | p in PairsOfCharges(mine) ensures p in PairsOfRows(rs) {
      var c :| c in mine && PairOfCharge(c) == p;
      var r :| r in rs && r.source == c.key;
      var d := LandedIsScheduled(items, month, today, r);
      assert d == c;
      assert PairOfRow(r) == p;
    }
    SameMoney(rs, mine);
    OneTimeSplit(cs, landed);
  }

  lemma {:induction false} KindsCover(cs: seq<ScheduledCharge>)
    requires forall c :: c in cs ==> !c.kind.Usage?
    ensures SumBy(cs, ChargeAmount()) ==
            SumBy(Filter(cs, IsRecurring()), ChargeAmount()) + SumBy(Filter(cs, IsOneTime()), ChargeAmount())
  {
    SumSplit(cs, IsRecurring(), ChargeAmount());
    FilterCong(cs, Not(IsRecurring()), IsOneTime());
  }

  /** The floor is the month's manual money on every day of the month. */
  lemma FloorIsMonthManual(items: seq<Item>, month: CalendarMonth, today: Date, rows: seq<CostRow>)
    requires UniqueIds(items) && RowsAsOf(items, month, today, rows)
    ensures FloorOf(month, rows, ScheduleFor(items, month)) == MonthManualMicros(items, month)
  {
    hide SumBy, Filter, RecurringOf, ScheduleFor, TotalOf, RowsOfKind, MonthRows, RowsAsOf, LandedOfKind,
        MonthManualMicros;
    var cs := ScheduleFor(items, month).charges;
    RowsOfKindLanded(items, month, today, rows, Recurring);
    RowsOfKindLanded(items, month, today, rows, OneTime);
    RecurringHalf(items, month, today, RowsOfKind(MonthRows(rows, month), Recurring));
    OneTimeHalf(items, month, today, RowsOfKind(MonthRows(rows, month), OneTime));
    ScheduleTotal(items, month);
    ScheduleExact(items, month);
    forall c | c in cs ensures !c.kind.Usage? {
      var item, day: Date :| item in items && Billed(item, day) && day.InMonth() == month && c == ChargeOn(item, day);
    }
    KindsCover(cs);
  }
}
