/**
 The Cost Center's reading of the rows: the money facts of a scope, and whether
 a manual scope's rows are fresh, that is, are what its items bill.
 */
module CostCenter {
  import opened Calendar
  import opened Sums
  import opened Wrappers
  import opened Budget
  import opened SpendPrecedence
  import opened Reconciliation
  import opened CostSources
  import opened ManualCost
  import opened ManualPlan

  datatype MoneyBasis = Single(basis: CostBasis) | MixedBasis | UnknownBasis
  datatype CostStatus = Known | MeasuredZero | UnknownCost

  datatype MoneyFacts = MoneyFacts(
    spendMicros: Option<int>, estimatedMicros: Option<int>, actualMicros: Option<int>, fixedMicros: Option<int>,
    manualMicros: Option<int>, shadowedEstimatedMicros: int, basis: MoneyBasis, confidence: Option<Confidence>,
    currency: Option<string>, mixedCurrency: bool, costStatus: CostStatus)

  function UnknownMoney(): MoneyFacts {
    MoneyFacts(None, None, None, None, None, 0, UnknownBasis, None, None, false, UnknownCost)
  }

  /** A measured zero reads as an estimate over measured usage. */
  function MeasuredZeroMoney(): MoneyFacts {
    UnknownMoney().(spendMicros := Some(0), estimatedMicros := Some(0),
                    basis := Single(Estimated), confidence := Some(Medium),
                    costStatus := MeasuredZero)
  }

  predicate AnyOf(rows: seq<CostRow>, b: CostBasis) { exists r :: r in rows && r.basis == b }

  function Lower(a: Confidence, b: Confidence): Confidence { if b.Rank() < a.Rank() then b else a }

  /** Each part is the spend's own, and is absent exactly when no row of that basis exists. */
  ghost predicate IsMoney(rows: seq<CostRow>, m: MoneyFacts) {
    var w := Winning(rows);
    && m.spendMicros == Some(TotalOf(w))
    && m.estimatedMicros ==
         (if AnyOf(rows, Estimated) then Some(BasisTotal(w, Estimated) + TotalOf(Shadowed(rows))) else None)
    && m.actualMicros == (if AnyOf(rows, Actual) then Some(BasisTotal(w, Actual)) else None)
    && m.fixedMicros == (if AnyOf(rows, Fixed) then Some(BasisTotal(w, Fixed)) else None)
    && m.manualMicros == (if AnyOf(rows, Manual) then Some(BasisTotal(w, Manual)) else None)
    && m.shadowedEstimatedMicros == TotalOf(Shadowed(rows))
    && m.currency == OnlyCurrency(Currencies(rows)) && m.mixedCurrency == (|Currencies(rows)| > 1)
    && m.costStatus.Known?
  }

  /** One basis by name when every row that counts has it, mixed otherwise. */
  ghost predicate NamesBasis(w: seq<CostRow>, shown: MoneyBasis) {
    match shown
    case Single(b) => w != [] && forall r :: r in w ==> r.basis == b
    case MixedBasis => w == [] || exists r, s :: r in w && s in w && r.basis != s.basis
    case UnknownBasis => false
  }

  /** The lowest confidence among the rows that count. */
  ghost predicate LowestConfidence(w: seq<CostRow>, c: Confidence) {
    && (forall r :: r in w ==> !Surer(c, r.confidence))
    && (c.High? || exists r :: r in w && r.confidence == c)
  }

  method LowestOf(w: seq<CostRow>) returns (c: Confidence)
    ensures LowestConfidence(w, c)
  {
    c := High;
    for i := 0 to |w|
      invariant forall j :: 0 <= j < i ==> !Surer(c, w[j].confidence)
      invariant c.High? || exists j :: 0 <= j < i && w[j].confidence == c
    {
      c := Lower(c, w[i].confidence);
    }
  }

  method BasisOf(w: seq<CostRow>) returns (shown: MoneyBasis)
    ensures NamesBasis(w, shown)
  {
    var bases: set<CostBasis> := {};
    for i := 0 to |w|
      invariant forall b :: b in bases <==> exists j :: 0 <= j < i && w[j].basis == b
    {
      bases := bases + {w[i].basis};
    }
    if |bases| == 1 {
      var b :| b in bases;
      assert bases - {b} == {} by { assert |bases - {b}| == 0; }
      assert forall r :: r in w ==> r.basis in bases;
      assert forall x :: x in bases ==> x == b || x in bases - {b};
      return Single(b);
    }
    shown := MixedBasis;
    if w != [] {
      var b := w[0].basis;
      assert b in bases;
      assert bases - {b} == {} ==> bases == {b};
      if bases - {b} != {} {
        var c :| c in bases - {b};
        var j :| 0 <= j < |w| && w[j].basis == c;
        assert w[0] in w && w[j] in w;
      }
    }
  }

  method ComputeMoneyFacts(rows: seq<CostRow>, measuredZero: bool) returns (m: MoneyFacts)
    ensures rows == [] ==>
              && m.spendMicros == m.estimatedMicros == (if measuredZero then Some(0) else None)
              && m.actualMicros == m.fixedMicros == m.manualMicros == None && m.shadowedEstimatedMicros == 0
              && m.basis == (if measuredZero then Single(Estimated) else UnknownBasis)
              && m.confidence == (if measuredZero then Some(Medium) else None)
              && m.currency == None && !m.mixedCurrency
              && m.costStatus == (if measuredZero then MeasuredZero else UnknownCost)
    ensures rows != [] ==> IsMoney(rows, m) && m.confidence.Some? && LowestConfidence(Winning(rows), m.confidence.value)
                           && NamesBasis(Winning(rows), m.basis)
  {
    hide Winning, Shadowed, TotalOf, BasisTotal, LowestConfidence, NamesBasis, OnlyCurrency, Currencies;
    if |rows| == 0 {
      return if measuredZero then MeasuredZeroMoney() else UnknownMoney();
    }
    var s := Spend(rows);
    var winners := WinningRows(rows);
    var shown := BasisOf(winners);
    var lowest := LowestOf(winners);
    m := MoneyFacts(
      Some(s.micros),
      if AnyOf(rows, Estimated) then Some(s.byBasis.estimated + s.shadowedEstimatedMicros) else None,
      if AnyOf(rows, Actual) then Some(s.byBasis.actual) else None,
      if AnyOf(rows, Fixed) then Some(s.byBasis.fixed) else None,
      if AnyOf(rows, Manual) then Some(s.byBasis.manual) else None,
      s.shadowedEstimatedMicros, shown, Some(lowest), s.currency, s.mixedCurrency, Known);
  }

  // Money facts and reconciliation lines

  lemma MeteredClass(rows: seq<CostRow>, s: (string, string))
    ensures Class(MeteredRows(rows), ServiceOf(), s) == MeteredRows(Class(rows, ServiceOf(), s))
  {
    FilterSwap(rows, IsMetered(), InClass(ServiceOf(), s));
  }

  lemma {:induction false} FilterSwap(rows: seq<CostRow>, p: CostRow -> bool, q: CostRow -> bool)
    ensures Filter(Filter(rows, p), q) == Filter(Filter(rows, q), p)
  {
    if rows != [] {
      FilterSwap(rows[1..], p, q);
      FilterAppend(if p(rows[0]) then [rows[0]] else [], Filter(rows[1..], p), q);
      FilterAppend(if q(rows[0]) then [rows[0]] else [], Filter(rows[1..], q), p);
    }
  }

  lemma BestAllPresence(rows: seq<CostRow>, b: CostBasis)
    requires UniqueKey(rows) && (b.Actual? || b.Estimated?)
    ensures BestAll(rows, b) != [] <==> AnyOf(rows, b)
  {
    hide BestAll;
    BestAllExact(rows, b);
    var all := BestAll(rows, b);
    assert all != [] ==> all[0] in all;
    if AnyOf(rows, b) {
      var r :| r in rows && r.basis == b;
      var k := KeyOf(r);
      BestPresence(rows, k, b, r);
      var best := Best(rows, k, b)[0];
      BestExact(rows, k, b, best);
      assert best in all;
    }
  }

  lemma BestPresence(rows: seq<CostRow>, k: SpendKey, b: CostBasis, r: CostRow)
    requires b.Actual? || b.Estimated?
    requires r in rows && r.basis == b && KeyOf(r) == k
    ensures |Best(rows, k, b)| == 1
  {
    CandidatesMember(rows, k, b, r);
  }

  /** A service's money facts report the same estimated and actual money as its reconciliation line. */
  lemma MoneyMatchesLine(rows: seq<CostRow>, s: (string, string), m: MoneyFacts, line: Line)
    requires UniqueKey(rows)
    requires IsMoney(Class(rows, ServiceOf(), s), m)
    requires IsLine(line, s, Class(MeteredRows(rows), ServiceOf(), s))
    ensures m.estimatedMicros ==
            if AnyOf(Class(rows, ServiceOf(), s), Estimated) then Some(line.estimatedMicros) else None
    ensures !AnyOf(Class(rows, ServiceOf(), s), Estimated) ==> line.estimatedMicros == 0
    ensures m.actualMicros == line.actualMicros
  {
    hide Winning, Shadowed, TotalOf, BasisTotal, KeysOf, BestAll, Filter, AnyOf;
    var c := Class(rows, ServiceOf(), s);
    var metered := MeteredRows(c);
    UniqueKeyFilter(rows, InClass(ServiceOf(), s));
    MeteredClass(rows, s);
    MeteredSelections(c, Estimated);
    MeteredSelections(c, Actual);
    BestAllTotals(c);
    BestAllPresence(c, Estimated);
    BestAllPresence(c, Actual);
    BestAllPresence(metered, Actual);
    MeteredPresence(c);
    LineFields(line, s, metered);
    NoneIsZero(c);
  }

  lemma MeteredPresence(rows: seq<CostRow>)
    ensures AnyOf(MeteredRows(rows), Actual) == AnyOf(rows, Actual)
  {
    FilterMember(rows, IsMetered());
  }

  lemma NoneIsZero(rows: seq<CostRow>)
    ensures BestAll(rows, Estimated) == [] ==> TotalOf(BestAll(rows, Estimated)) == 0
  {
  }

  lemma LineFields(line: Line, s: (string, string), group: seq<CostRow>)
    requires IsLine(line, s, group)
    ensures line.estimatedMicros == TotalOf(BestAll(group, Estimated))
    ensures line.actualMicros == if BestAll(group, Actual) == [] then None else Some(TotalOf(BestAll(group, Actual)))
  {
  }

  // Freshness of a manual scope

  datatype RowsFreshness = Fresh | StaleRows

  /** The window the rows were read for, up to today. */
  function Window(range: DayRange, today: Date): DayRange {
    DayRange(range.from, if Lt(range.upTo, today) then range.upTo else today)
  }

  function ExpectedCharges(items: seq<Item>, window: DayRange): set<(string, Date)> {
    set item, day | item in items && day in ChargeDays(item, window) :: (ManualCostSource(item.id), day)
  }

  function HeldCharges(costRows: seq<CostRow>): set<(string, Date)> {
    set r | r in costRows && r.basis.Manual? :: (r.source, r.day)
  }

  /** A MANUAL row of this source and day was read. */
  ghost predicate IsHeld(costRows: seq<CostRow>, source: string, day: Date) {
    exists r :: r in costRows && r.basis.Manual? && r.source == source && r.day == day
  }

  /** An item of this source is billed on this day, inside the range and not after today. */
  ghost predicate IsExpected(items: seq<Item>, range: DayRange, today: Date, source: string, day: Date) {
    exists item :: item in items && source == ManualCostSource(item.id) && Billed(item, day)
                   && InRange(range, day) && Le(day, today)
  }

  lemma ExpectedExactly(items: seq<Item>, range: DayRange, today: Date, source: string, day: Date)
    ensures (source, day) in ExpectedCharges(items, Window(range, today)) <==>
            IsExpected(items, range, today, source, day)
  {
    hide ChargeDays, Billed;
    forall item: Item ensures day in ChargeDays(item, Window(range, today)) <==>
                                Billed(item, day) && InRange(range, day) && Le(day, today) {
      ChargeDaysExact(item, Window(range, today));
    }
  }

  /** The MANUAL kind of `costSource`, for a scope that has items. */
  method ManualFreshness(
      items: seq<Item>, costRows: seq<CostRow>, range: DayRange, today: Date) returns (f: RowsFreshness)
    ensures f.Fresh? <==> forall source: string, day: Date ::
              IsHeld(costRows, source, day) <==> IsExpected(items, range, today, source, day)
  {
    var expected := ExpectedCharges(items, Window(range, today));
    var have := HeldCharges(costRows);
    forall source: string, day: Date
      ensures (source, day) in expected <==> IsExpected(items, range, today, source, day)
      ensures (source, day) in have <==> IsHeld(costRows, source, day)
    {
      ExpectedExactly(items, range, today, source, day);
    }
    hide ExpectedCharges, HeldCharges, IsHeld, IsExpected;
    var same := (forall k :: k in expected ==> k in have) && (forall k :: k in have ==> k in expected);
    f := if same then Fresh else StaleRows;
  }

  /** The (source, day) pairs the materialiser plans, restricted to the window. */
  ghost function PlannedCharges(items: seq<Item>, today: Date, range: DayRange): set<(string, Date)> {
    set p | p in PlanRows(items, today) && InRange(range, p.day) :: (p.source, p.day)
  }

  lemma PlannedAreExpected(items: seq<Item>, today: Date, range: DayRange, source: string, day: Date)
    ensures (source, day) in PlannedCharges(items, today, range) <==>
        (source, day) in ExpectedCharges(items, Window(range, today))
  {
    hide PlanRows, ChargeDays, Billed;
    var window := Window(range, today);
    if (source, day) in PlannedCharges(items, today, range) {
      var p :| p in PlanRows(items, today) && InRange(range, p.day) && (p.source, p.day) == (source, day);
      PlanRowsExact(items, today, p);
      var item, d: Date :| item in items && DueBy(item, today, d) && p == PlanRow(item, d);
      ChargeDaysExact(item, window);
      assert day in ChargeDays(item, window);
    }
    if (source, day) in ExpectedCharges(items, window) {
      var item :| item in items && day in ChargeDays(item, window) && source == ManualCostSource(item.id);
      ChargeDaysExact(item, window);
      var p := PlanRow(item, day);
      assert DueBy(item, today, day);
      PlanRowsExact(items, today, p);
      assert (p.source, p.day) in PlannedCharges(items, today, range);
    }
  }

  /** FRESH says that the window holds exactly the charges the materialiser plans: none missing, none extra. */
  lemma FreshIffPlanned(items: seq<Item>, costRows: seq<CostRow>, range: DayRange, today: Date)
    ensures HeldCharges(costRows) == ExpectedCharges(items, Window(range, today)) <==>
            HeldCharges(costRows) == PlannedCharges(items, today, range)
  {
    forall pair: (string, Date)
      ensures pair in PlannedCharges(items, today, range) <==> pair in ExpectedCharges(items, Window(range, today))
    {
      PlannedAreExpected(items, today, range, pair.0, pair.1);
    }
    assert PlannedCharges(items, today, range) == ExpectedCharges(items, Window(range, today));
  }
}
