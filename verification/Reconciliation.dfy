/**
 Reconciliation: per (provider, service), the best estimate of every key against
 the best actual. Its totals and `spend`'s are two groupings of one selection.
 */
module Reconciliation {
  import opened Sums
  import opened Sorting
  import opened Wrappers
  import opened Budget
  import opened SpendPrecedence
  import opened CostSources

  datatype Line = Line(
    providerId: string, serviceId: string, estimatedMicros: int, actualMicros: Option<int>,
    varianceMicros: Option<int>, variancePctTenThousandths: Option<int>, currency: Option<string>, matchedKeys: nat)

  function IsMetered(): CostRow -> bool { (r: CostRow) => r.basis.Estimated? || r.basis.Actual? }
  function ServiceOf(): SpendKey -> (string, string) { (k: SpendKey) => (k.providerId, k.serviceId) }
  function MeteredRows(rows: seq<CostRow>): seq<CostRow> { Filter(rows, IsMetered()) }

  function BestOf(rows: seq<CostRow>, b: CostBasis): SpendKey -> seq<CostRow> { (k: SpendKey) => Best(rows, k, b) }

  /** The best row of each key, of one basis. */
  function BestAll(rows: seq<CostRow>, b: CostBasis): seq<CostRow> { Concat(KeysOf(rows), BestOf(rows, b)) }

  function BothKnown(rows: seq<CostRow>, keys: seq<SpendKey>): nat {
    if keys == [] then 0
    else BothKnown(rows, keys[..|keys| - 1])
         + (var k := keys[|keys| - 1];
            if Candidates(rows, k, Estimated) != [] && Candidates(rows, k, Actual) != [] then 1 else 0)
  }

  function ServicesOf(rows: seq<CostRow>): seq<(string, string)> {
    if rows == [] then []
    else
      var before := ServicesOf(rows[..|rows| - 1]);
      var s := ServiceOf()(KeyOf(rows[|rows| - 1]));
      if s in before then before else before + [s]
  }

  /** What the walk over a service's keys adds up. */
  datatype Walk = Walk(estimated: int, actual: int, hasActual: bool, matched: nat) {
    function Step(est: seq<CostRow>, act: seq<CostRow>): Walk {
      Walk(if est != [] then estimated + Pick(est).amountMicros else estimated,
           if act != [] then actual + Pick(act).amountMicros else actual,
           hasActual || act != [],
           if est != [] && act != [] then matched + 1 else matched)
    }
  }

  function WalkOf(rows: seq<CostRow>, keys: seq<SpendKey>): Walk {
    Walk(TotalOf(Concat(keys, BestOf(rows, Estimated))), TotalOf(Concat(keys, BestOf(rows, Actual))),
         Concat(keys, BestOf(rows, Actual)) != [], BothKnown(rows, keys))
  }

  function LineOf(service: (string, string), w: Walk, currency: Option<string>): Line {
    Line(service.0, service.1, w.estimated,
         if w.hasActual then Some(w.actual) else None,
         if w.hasActual then Some(w.actual - w.estimated) else None,
         if !w.hasActual || w.actual == 0 then None else Some(RoundDiv(10000 * (w.actual - w.estimated), w.actual)),
         currency, w.matched)
  }

  /** One service's line, said of the selection over its rows. */
  ghost predicate IsLine(line: Line, service: (string, string), group: seq<CostRow>) {
    line == LineOf(service, WalkOf(group, KeysOf(group)), OnlyCurrency(Currencies(group)))
  }

  /** The rows' keys that have both an ESTIMATED and an ACTUAL row. */
  ghost function MatchedKeys(rows: seq<CostRow>): set<SpendKey> {
    set r, q | r in rows && q in rows && r.basis.Estimated? && q.basis.Actual? && KeyOf(r) == KeyOf(q) :: KeyOf(r)
  }

  ghost function MatchedIn(rows: seq<CostRow>, keys: seq<SpendKey>): set<SpendKey> {
    set k | k in keys && Candidates(rows, k, Estimated) != [] && Candidates(rows, k, Actual) != []
  }

  lemma {:induction false} MatchedCounted(rows: seq<CostRow>, keys: seq<SpendKey>)
    requires NoDup(keys)
    ensures BothKnown(rows, keys) == |MatchedIn(rows, keys)|
  {
    if keys != [] {
      hide Candidates;
      var n := |keys| - 1;
      MatchedCounted(rows, keys[..n]);
      MatchedSnoc(rows, keys[..n], keys[n]);
      assert keys == keys[..n] + [keys[n]];
      hide MatchedIn;
    }
  }

  lemma MatchedSnoc(rows: seq<CostRow>, keys: seq<SpendKey>, k: SpendKey)
    requires NoDup(keys + [k])
    ensures |MatchedIn(rows, keys + [k])| == |MatchedIn(rows, keys)|
            + if Candidates(rows, k, Estimated) != [] && Candidates(rows, k, Actual) != [] then 1 else 0
  {
    hide Candidates;
    var before, after := MatchedIn(rows, keys), MatchedIn(rows, keys + [k]);
    assert (keys + [k])[|keys|] == k && forall i :: 0 <= i < |keys| ==> (keys + [k])[i] == keys[i];
    assert k !in before;
    assert after == if k in after then before + {k} else before;
  }

  lemma KeysCovered(rows: seq<CostRow>)
    ensures MatchedIn(rows, KeysOf(rows)) == MatchedKeys(rows)
  {
    KeysOfExact(rows);
    forall k ensures k in MatchedIn(rows, KeysOf(rows)) <==> k in MatchedKeys(rows) {
      CandidatesPresence(rows, k, Estimated);
      CandidatesPresence(rows, k, Actual);
    }
  }

  lemma CandidatesPresence(rows: seq<CostRow>, k: SpendKey, b: CostBasis)
    requires b.Actual? || b.Estimated?
    ensures Candidates(rows, k, b) != [] <==> exists r :: r in rows && r.basis == b && KeyOf(r) == k
  {
    var c := Candidates(rows, k, b);
    forall r ensures r in c <==> r in rows && r.basis == b && KeyOf(r) == k {
      CandidatesMember(rows, k, b, r);
    }
    assert c != [] ==> c[0] in c;
  }

  /** Some key has a best ACTUAL exactly if some row is ACTUAL. */
  lemma ActualPresence(rows: seq<CostRow>)
    ensures BestAll(rows, Actual) != [] <==> exists r :: r in rows && r.basis.Actual?
  {
    var f := BestOf(rows, Actual);
    KeysOfExact(rows);
    ConcatPresence(KeysOf(rows), f);
    if BestAll(rows, Actual) != [] {
      var k :| k in KeysOf(rows) && f(k) != [];
      CandidatesPresence(rows, k, Actual);
    }
    if r :| r in rows && r.basis.Actual? {
      CandidatesPresence(rows, KeyOf(r), Actual);
      assert f(KeyOf(r)) != [];
    }
  }

  lemma {:induction false} ConcatPresence<T>(keys: seq<SpendKey>, f: SpendKey -> seq<T>)
    ensures Concat(keys, f) != [] <==> exists k :: k in keys && f(k) != []
  {
    if keys != [] {
      ConcatPresence(keys[1..], f);
      assert keys == [keys[0]] + keys[1..];
    }
  }

  /**
   What a line says of its service: the actual is there exactly if some row is ACTUAL, the variance is what takes
   the estimate to it, its percentage is of the actual, in hundredths and to the nearest one, and a key matches
   when it has both.
   */
  lemma LineSays(line: Line, service: (string, string), group: seq<CostRow>)
    requires IsLine(line, service, group)
    ensures line.providerId == service.0 && line.serviceId == service.1
    ensures line.estimatedMicros == TotalOf(BestAll(group, Estimated))
    ensures line.actualMicros.Some? <==> exists r :: r in group && r.basis.Actual?
    ensures line.actualMicros.Some? ==> line.actualMicros.value == TotalOf(BestAll(group, Actual))
    ensures line.varianceMicros.Some? <==> line.actualMicros.Some?
    ensures line.actualMicros.Some? ==> line.estimatedMicros + line.varianceMicros.value == line.actualMicros.value
    ensures line.variancePctTenThousandths.Some? <==> line.actualMicros.Some? && line.actualMicros.value != 0
    ensures line.variancePctTenThousandths.Some? ==>
              var share := line.variancePctTenThousandths.value * line.actualMicros.value;
              var off := 2 * share - 20_000 * line.varianceMicros.value;
              if line.actualMicros.value > 0 then -line.actualMicros.value < off <= line.actualMicros.value
              else line.actualMicros.value <= off < -line.actualMicros.value
    ensures line.matchedKeys == |MatchedKeys(group)|
  {
    hide TotalOf, Concat, BestAll, LineOf, WalkOf, KeysOf, MatchedKeys, MatchedIn, BothKnown, OnlyCurrency;
    ActualPresence(group);
    WalkSays(group);
    VarianceSays(line, service, WalkOf(group, KeysOf(group)), OnlyCurrency(Currencies(group)));
  }

  lemma WalkSays(group: seq<CostRow>)
    ensures var w := WalkOf(group, KeysOf(group));
      && w.estimated == TotalOf(BestAll(group, Estimated)) && w.actual == TotalOf(BestAll(group, Actual))
      && (w.hasActual <==> BestAll(group, Actual) != []) && w.matched == |MatchedKeys(group)|
  {
    hide TotalOf, Concat, KeysOf, MatchedIn, MatchedKeys, BestOf;
    KeysOfExact(group);
    MatchedCounted(group, KeysOf(group));
    KeysCovered(group);
  }

  lemma VarianceSays(line: Line, service: (string, string), w: Walk, currency: Option<string>)
    requires line == LineOf(service, w, currency)
    ensures line.providerId == service.0 && line.serviceId == service.1 && line.estimatedMicros == w.estimated
    ensures line.matchedKeys == w.matched
    ensures line.actualMicros == if w.hasActual then Some(w.actual) else None
    ensures line.varianceMicros.Some? <==> w.hasActual
    ensures w.hasActual ==> line.estimatedMicros + line.varianceMicros.value == w.actual
    ensures line.variancePctTenThousandths.Some? <==> w.hasActual && w.actual != 0
    ensures line.variancePctTenThousandths.Some? ==>
              var share := line.variancePctTenThousandths.value * w.actual;
              var off := 2 * share - 20_000 * line.varianceMicros.value;
              if w.actual > 0 then -w.actual < off <= w.actual else w.actual <= off < -w.actual
  {
    hide RoundDiv;
    if line.variancePctTenThousandths.Some? {
      RoundNearest(10000 * line.varianceMicros.value, w.actual);
    }
  }

  lemma BestAllSnoc(rows: seq<CostRow>, keys: seq<SpendKey>, i: nat, b: CostBasis)
    requires i < |keys|
    ensures var f := BestOf(rows, b);
            && Concat(keys[..i + 1], f) == Concat(keys[..i], f) + Best(rows, keys[i], b)
            && TotalOf(Concat(keys[..i + 1], f)) == TotalOf(Concat(keys[..i], f)) + TotalOf(Best(rows, keys[i], b))
  {
    var f := BestOf(rows, b);
    ConcatSnoc(keys, i, f);
    SumAppend(Concat(keys[..i], f), Best(rows, keys[i], b), Amount());
  }

  lemma TotalOfBest(rows: seq<CostRow>, k: SpendKey, b: CostBasis)
    ensures TotalOf(Best(rows, k, b)) ==
            if Candidates(rows, k, b) != [] then Pick(Candidates(rows, k, b)).amountMicros else 0
  {
    if Candidates(rows, k, b) != [] {
      var best := Pick(Candidates(rows, k, b));
      assert SumBy([best][1..], Amount()) == 0;
      assert Best(rows, k, b) == [best];
    }
  }

  lemma WalkNothing(rows: seq<CostRow>, keys: seq<SpendKey>)
    requires keys == []
    ensures WalkOf(rows, keys) == Walk(0, 0, false, 0)
  {
  }

  lemma WalkStep(rows: seq<CostRow>, keys: seq<SpendKey>, i: nat)
    requires i < |keys|
    ensures WalkOf(rows, keys[..i + 1]) ==
            WalkOf(rows, keys[..i]).Step(Candidates(rows, keys[i], Estimated), Candidates(rows, keys[i], Actual))
  {
    hide TotalOf, Concat, Candidates, Pick, BothKnown, BestOf;
    BestAllSnoc(rows, keys, i, Estimated);
    BestAllSnoc(rows, keys, i, Actual);
    TotalOfBest(rows, keys[i], Estimated);
    TotalOfBest(rows, keys[i], Actual);
    BothKnownSnoc(rows, keys, i);
  }

  lemma BothKnownSnoc(rows: seq<CostRow>, keys: seq<SpendKey>, i: nat)
    requires i < |keys|
    ensures BothKnown(rows, keys[..i + 1]) == BothKnown(rows, keys[..i])
            + if Candidates(rows, keys[i], Estimated) != [] && Candidates(rows, keys[i], Actual) != [] then 1 else 0
  {
    hide Candidates;
    assert keys[..i + 1][..i] == keys[..i];
  }

  method ReconcileService(service: (string, string), group: seq<CostRow>) returns (line: Line)
    ensures IsLine(line, service, group)
  {
    hide WalkOf, Filter, KeysOf;
    var _, keys, groups := UsageGroups(group);
    var w := Walk(0, 0, false, 0);
    WalkNothing(group, keys[..0]);
    for i := 0 to |keys|
      invariant w == WalkOf(group, keys[..i])
    {
      WalkStep(group, keys, i);
      assert keys[i] in groups;
      var est := Filter(groups[keys[i]], HasBasis(Estimated));
      var act := Filter(groups[keys[i]], HasBasis(Actual));
      if |est| > 0 { w := w.(estimated := w.estimated + Pick(est).amountMicros); }
      if |act| > 0 { w := w.(hasActual := true, actual := w.actual + Pick(act).amountMicros); }
      if |est| > 0 && |act| > 0 { w := w.(matched := w.matched + 1); }
    }
    assert keys[..|keys|] == keys;
    var currency, _ := CurrencyOf(group);
    line := LineOf(service, w, currency);
  }

  lemma ServicesOfSnoc(rows: seq<CostRow>, r: CostRow)
    ensures var s := ServiceOf()(KeyOf(r));
            ServicesOf(rows + [r]) == if s in ServicesOf(rows) then ServicesOf(rows) else ServicesOf(rows) + [s]
  {
    assert (rows + [r])[..|rows|] == rows;
  }

  ghost predicate Grouped(
      rows: seq<CostRow>, services: seq<(string, string)>, groups: map<(string, string), seq<CostRow>>) {
    && services == ServicesOf(rows)
    && (forall s :: s in services <==> s in groups)
    && (forall s :: s in groups ==> groups[s] == Class(rows, ServiceOf(), s))
    && (forall s :: s !in groups ==> Class(rows, ServiceOf(), s) == [])
  }

  lemma GroupStep(
      rows: seq<CostRow>, r: CostRow, services: seq<(string, string)>,
      groups: map<(string, string), seq<CostRow>>)
    requires Grouped(rows, services, groups)
    ensures var s := ServiceOf()(KeyOf(r));
            if s in groups then Grouped(rows + [r], services, groups[s := groups[s] + [r]])
            else Grouped(rows + [r], services + [s], groups[s := [r]])
  {
    hide Filter, ServicesOf;
    ServicesOfSnoc(rows, r);
    forall t ensures Class(rows + [r], ServiceOf(), t) ==
                     Class(rows, ServiceOf(), t) + (if t == ServiceOf()(KeyOf(r)) then [r] else []) {
      FilterAppend(rows, [r], InClass(ServiceOf(), t));
      FilterOne(r, InClass(ServiceOf(), t));
    }
  }

  lemma FilterOne<T>(x: T, p: T -> bool)
    ensures Filter([x], p) == if p(x) then [x] else []
  {
  }

  method GroupByService(rows: seq<CostRow>)
    returns (services: seq<(string, string)>, groups: map<(string, string), seq<CostRow>>)
    ensures Grouped(MeteredRows(rows), services, groups)
  {
    hide Grouped;
    services, groups := [], map[];
    GroupNothing(MeteredRows(rows[..0]));
    for i := 0 to |rows|
      invariant Grouped(MeteredRows(rows[..i]), services, groups)
    {
      var r := rows[i];
      FilterSnoc(rows, i, IsMetered());
      if r.basis.Estimated? || r.basis.Actual? {
        GroupStep(MeteredRows(rows[..i]), r, services, groups);
        var s := ServiceOf()(KeyOf(r));
        if s in groups {
          groups := groups[s := groups[s] + [r]];
        } else {
          services := services + [s];
          groups := groups[s := [r]];
        }
      } else {
        assert MeteredRows(rows[..i + 1]) == MeteredRows(rows[..i]);
      }
    }
    assert rows[..|rows|] == rows;
  }

  lemma GroupNothing(rows: seq<CostRow>)
    requires rows == []
    ensures Grouped(rows, [], map[])
  {
  }

  function ByServiceId(): (Line, Line) -> bool { (a: Line, b: Line) => Before(a.serviceId, b.serviceId) }

  ghost predicate AreLines(rows: seq<CostRow>, services: seq<(string, string)>, lines: seq<Line>) {
    && |lines| == |services|
    && forall i :: 0 <= i < |lines| ==>
         IsLine(lines[i], services[i], Class(MeteredRows(rows), ServiceOf(), services[i]))
  }

  ghost predicate IsReconciliation(rows: seq<CostRow>, out: seq<Line>) {
    exists lines :: AreLines(rows, ServicesOf(MeteredRows(rows)), lines) && out == StableSort(lines, ByServiceId())
  }

  method Reconcile(rows: seq<CostRow>) returns (out: seq<Line>)
    ensures IsReconciliation(rows, out)
  {
    hide IsLine, Filter;
    var services, groups := GroupByService(rows);
    var lines := [];
    for i := 0 to |services|
      invariant AreLines(rows, services[..i], lines)
    {
      assert services[i] in groups;
      var line := ReconcileService(services[i], groups[services[i]]);
      lines := lines + [line];
    }
    assert services[..|services|] == services;
    out := StableSort(lines, ByServiceId());
  }

  // Agreement with spend

  lemma BestAllExact(rows: seq<CostRow>, b: CostBasis)
    requires UniqueKey(rows) && (b.Actual? || b.Estimated?)
    ensures NoDup(BestAll(rows, b))
    ensures forall r :: r in BestAll(rows, b) <==> r.basis == b && BestOfKey(rows, r)
  {
    var f := BestOf(rows, b);
    KeysOfExact(rows);
    SelectionsPerKey(rows);
    assert PerKey(f);
    ConcatExact(KeysOf(rows), f);
    forall r: CostRow ensures r in Concat(KeysOf(rows), f) <==> r.basis == b && BestOfKey(rows, r) {
      BestExact(rows, KeyOf(r), b, r);
    }
  }

  /** Over any rows: the estimates `reconcile` adds are those `spend` counts plus those it shadows. */
  lemma BestAllTotals(rows: seq<CostRow>)
    requires UniqueKey(rows)
    ensures TotalOf(BestAll(rows, Estimated)) == BasisTotal(Winning(rows), Estimated) + TotalOf(Shadowed(rows))
    ensures TotalOf(BestAll(rows, Actual)) == BasisTotal(Winning(rows), Actual)
  {
    hide Filter, SumBy, Winning, Shadowed, BestAll, NoDup, Better, UniqueKey;
    var w, e, a := Winning(rows), Filter(Winning(rows), HasBasis(Estimated)), Filter(Winning(rows), HasBasis(Actual));
    WinningExact(rows);
    ShadowedExact(rows);
    BestAllExact(rows, Estimated);
    BestAllExact(rows, Actual);
    FilterMember(w, HasBasis(Estimated));
    FilterMember(w, HasBasis(Actual));
    FilterNoDup(w, HasBasis(Estimated));
    FilterNoDup(w, HasBasis(Actual));
    assert forall x, y :: x in e && y in Shadowed(rows) ==> x != y;
    NoDupAppend(e, Shadowed(rows));
    SumAppend(e, Shadowed(rows), Amount());
    SumSameElements(BestAll(rows, Estimated), e + Shadowed(rows), Amount());
    SumSameElements(BestAll(rows, Actual), a, Amount());
  }

  lemma {:induction false} ServicesOfExact(rows: seq<CostRow>)
    ensures NoDup(ServicesOf(rows))
    ensures forall r :: r in rows ==> ServiceOf()(KeyOf(r)) in ServicesOf(rows)
  {
    if rows != [] {
      var n := |rows| - 1;
      ServicesOfExact(rows[..n]);
      assert rows == rows[..n] + [rows[n]];
    }
  }

  lemma MeteredSelections(rows: seq<CostRow>, b: CostBasis)
    requires UniqueKey(rows) && (b.Actual? || b.Estimated?)
    ensures UniqueKey(MeteredRows(rows))
    ensures TotalOf(BestAll(MeteredRows(rows), b)) == TotalOf(BestAll(rows, b))
  {
    var m := MeteredRows(rows);
    UniqueKeyFilter(rows, IsMetered());
    FilterMember(rows, IsMetered());
    BestAllExact(rows, b);
    BestAllExact(m, b);
    forall r: CostRow | r.basis == b ensures BestOfKey(m, r) == BestOfKey(rows, r) {}
    SumSameElements(BestAll(m, b), BestAll(rows, b), Amount());
  }

  lemma ClassBest(rows: seq<CostRow>, s: (string, string), b: CostBasis)
    requires UniqueKey(rows) && (b.Actual? || b.Estimated?)
    ensures TotalOf(BestAll(Class(rows, ServiceOf(), s), b)) == TotalOf(Class(BestAll(rows, b), ServiceOf(), s))
  {
    var p := InClass(ServiceOf(), s);
    var c := Class(rows, ServiceOf(), s);
    UniqueKeyFilter(rows, p);
    FilterMember(rows, p);
    BestAllExact(rows, b);
    BestAllExact(c, b);
    FilterMember(BestAll(rows, b), p);
    FilterNoDup(BestAll(rows, b), p);
    forall r: CostRow ensures BestOfKey(c, r) <==> BestOfKey(rows, r) && p(r) {}
    SumSameElements(BestAll(c, b), Filter(BestAll(rows, b), p), Amount());
  }

  function EstimatedOfLine(): Line -> int { (l: Line) => l.estimatedMicros }
  function ActualOfLine(): Line -> int { (l: Line) => l.actualMicros.GetOr(0) }

  lemma {:induction false} LinesSum(rows: seq<CostRow>, services: seq<(string, string)>, lines: seq<Line>)
    requires UniqueKey(MeteredRows(rows)) && AreLines(rows, services, lines)
    ensures SumBy(lines, EstimatedOfLine()) ==
            SumOverClasses(BestAll(MeteredRows(rows), Estimated), ServiceOf(), services)
    ensures SumBy(lines, ActualOfLine()) == SumOverClasses(BestAll(MeteredRows(rows), Actual), ServiceOf(), services)
  {
    if services != [] {
      ClassBest(MeteredRows(rows), services[0], Estimated);
      ClassBest(MeteredRows(rows), services[0], Actual);
      LinesSum(rows, services[1..], lines[1..]);
    }
  }

  /** Over the whole period, `reconcile` and `spend` report the same estimated and actual money. */
  lemma ReconcileAgreesWithSpend(rows: seq<CostRow>, out: seq<Line>, s: SpendBreakdown)
    requires UniqueKey(rows) && IsReconciliation(rows, out) && IsSpend(rows, s)
    ensures SumBy(out, EstimatedOfLine()) == s.byBasis.estimated + s.shadowedEstimatedMicros
    ensures SumBy(out, ActualOfLine()) == s.byBasis.actual
  {
    hide IsLine;
    var m := MeteredRows(rows);
    var services := ServicesOf(m);
    var lines :| AreLines(rows, services, lines) && out == StableSort(lines, ByServiceId());
    MeteredSelections(rows, Estimated);
    MeteredSelections(rows, Actual);
    LinesSum(rows, services, lines);
    SortSum(lines, ByServiceId(), EstimatedOfLine());
    SortSum(lines, ByServiceId(), ActualOfLine());
    ServicesOfExact(m);
    BestAllExact(m, Estimated);
    BestAllExact(m, Actual);
    ClassesCover(BestAll(m, Estimated), ServiceOf(), services);
    ClassesCover(BestAll(m, Actual), ServiceOf(), services);
    BestAllTotals(rows);
  }
}
