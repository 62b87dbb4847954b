/**
 What the grouping algorithm of `Budget` selects, said of the rows themselves,
 and what follows: the answer does not depend on row order, and it is the sum
 of the answers over any split that keeps rows of one spend key together.
 */
module SpendPrecedence {
  import opened Sums
  import opened Wrappers
  import opened Budget
  import CostSources

  // An independent definition of which rows count

  /** High over medium over low. */
  predicate Surer(a: Confidence, b: Confidence) { (a.High? && !b.High?) || (a.Medium? && b.Low?) }

  /** Every other row of the same key and basis is less sure, or as sure with a later source name. */
  ghost predicate BestOfKey(rows: seq<CostRow>, r: CostRow) {
    && r in rows
    && forall q :: q in rows && KeyOf(q) == KeyOf(r) && q.basis == r.basis ==>
         q == r || Surer(r.confidence, q.confidence)
         || (r.confidence == q.confidence && CostSources.Before(r.source, q.source))
  }

  /**
   Two rows are about the same spend: one day, provider and service, and one meter, where absent and empty are
   one.
   */
  predicate SameSpend(a: CostRow, b: CostRow) {
    && a.day == b.day && a.providerId == b.providerId && a.serviceId == b.serviceId
    && SameColumn(a.operationId, b.operationId) && SameColumn(a.usageMetricId, b.usageMetricId)
    && SameColumn(a.billingSkuId, b.billingSkuId)
  }

  predicate SameColumn(a: Option<string>, b: Option<string>) {
    a == b || (a.None? && b == Some("")) || (a == Some("") && b.None?)
  }

  lemma KeyIsSameSpend(a: CostRow, b: CostRow)
    ensures KeyOf(a) == KeyOf(b) <==> SameSpend(a, b)
  {
  }

  ghost predicate HasActual(rows: seq<CostRow>, k: SpendKey) {
    exists q :: q in rows && q.basis.Actual? && KeyOf(q) == k
  }

  /** `r` is money: a separate cost, the best ACTUAL of its key, or the best ESTIMATED of a key with no ACTUAL. */
  ghost predicate Wins(rows: seq<CostRow>, r: CostRow) {
    match r.basis
    case Fixed => r in rows
    case Manual => r in rows
    case Actual => BestOfKey(rows, r)
    case Estimated => BestOfKey(rows, r) && !HasActual(rows, KeyOf(r))
  }

  /** `r` is the best estimate of a key an ACTUAL row answers. */
  ghost predicate IsShadowed(rows: seq<CostRow>, r: CostRow) {
    r.basis.Estimated? && BestOfKey(rows, r) && HasActual(rows, KeyOf(r))
  }

  // The algorithm selects exactly those rows

  lemma CandidatesMember(rows: seq<CostRow>, k: SpendKey, b: CostBasis, r: CostRow)
    requires b.Actual? || b.Estimated?
    ensures r in Candidates(rows, k, b) <==> r in rows && KeyOf(r) == k && r.basis == b
  {
    FilterMember(rows, Metered(k));
    FilterMember(Group(rows, k), HasBasis(b));
  }

  lemma BestExact(rows: seq<CostRow>, k: SpendKey, b: CostBasis, r: CostRow)
    requires UniqueKey(rows)
    requires b.Actual? || b.Estimated?
    ensures r in Best(rows, k, b) <==> KeyOf(r) == k && r.basis == b && BestOfKey(rows, r)
  {
    var c := Candidates(rows, k, b);
    forall q ensures q in c <==> q in rows && KeyOf(q) == k && q.basis == b {
      CandidatesMember(rows, k, b, q);
    }
    if c != [] {
      var p := Pick(c);
      PickBest(c);
      forall q | q in c ensures q == p || Better(p, q) {
        CostSources.BeforeTotal(p.source, q.source);
        if p.source == q.source {
          UniqueKeyIn(rows, p, q);
        }
      }
      if r in c && r != p {
        CostSources.BeforeTotal(p.source, r.source);
      }
    }
  }

  lemma ActualCandidates(rows: seq<CostRow>, k: SpendKey)
    ensures Candidates(rows, k, Actual) != [] <==> HasActual(rows, k)
  {
    var c := Candidates(rows, k, Actual);
    forall q ensures q in c <==> q in rows && KeyOf(q) == k && q.basis == Actual {
      CandidatesMember(rows, k, Actual, q);
    }
    assert c != [] ==> c[0] in c;
  }

  lemma {:induction false} KeysOfExact(rows: seq<CostRow>)
    ensures NoDup(KeysOf(rows))
    ensures forall r :: r in rows && (r.basis.Actual? || r.basis.Estimated?) ==> KeyOf(r) in KeysOf(rows)
  {
    if rows != [] {
      var n := |rows| - 1;
      KeysOfExact(rows[..n]);
      assert rows == rows[..n] + [rows[n]];
    }
  }

  /** What a per-key selection must satisfy for its concatenation to be a selection. */
  ghost predicate PerKey(f: SpendKey -> seq<CostRow>) {
    forall k :: NoDup(f(k)) && forall r :: r in f(k) ==> KeyOf(r) == k
  }

  lemma {:induction false} ConcatExact(keys: seq<SpendKey>, f: SpendKey -> seq<CostRow>)
    requires NoDup(keys) && PerKey(f)
    ensures NoDup(Concat(keys, f))
    ensures forall r :: r in Concat(keys, f) <==> KeyOf(r) in keys && r in f(KeyOf(r))
  {
    if keys != [] {
      ConcatExact(keys[1..], f);
      assert keys == [keys[0]] + keys[1..];
      var head, tail := f(keys[0]), Concat(keys[1..], f);
      assert forall x, y :: x in head && y in tail ==> x != y;
      NoDupAppend(head, tail);
    }
  }

  lemma WinnerExact(rows: seq<CostRow>, r: CostRow)
    requires UniqueKey(rows)
    ensures r in Winner(rows, KeyOf(r)) <==> !r.basis.Fixed? && !r.basis.Manual? && Wins(rows, r)
    ensures r in Displaced(rows, KeyOf(r)) <==> IsShadowed(rows, r)
  {
    BestExact(rows, KeyOf(r), Actual, r);
    BestExact(rows, KeyOf(r), Estimated, r);
    ActualCandidates(rows, KeyOf(r));
  }

  lemma SelectionsPerKey(rows: seq<CostRow>)
    requires UniqueKey(rows)
    ensures PerKey((k: SpendKey) => Winner(rows, k))
    ensures PerKey((k: SpendKey) => Displaced(rows, k))
    ensures PerKey((k: SpendKey) => Best(rows, k, Actual))
    ensures PerKey((k: SpendKey) => Best(rows, k, Estimated))
  {
    forall k, r ensures r in Best(rows, k, Actual) || r in Best(rows, k, Estimated) ==> KeyOf(r) == k {
      BestExact(rows, k, Actual, r);
      BestExact(rows, k, Estimated, r);
    }
  }

  /** `winningRows` returns exactly the rows that win, each once. */
  lemma WinningExact(rows: seq<CostRow>)
    requires UniqueKey(rows)
    ensures NoDup(Winning(rows))
    ensures forall r :: r in Winning(rows) <==> Wins(rows, r)
  {
    var f := (k: SpendKey) => Winner(rows, k);
    KeysOfExact(rows);
    SelectionsPerKey(rows);
    ConcatExact(KeysOf(rows), f);
    UniqueKeyNoDup(rows);
    FilterNoDup(rows, Separate());
    FilterMember(rows, Separate());
    forall r: CostRow ensures r in Concat(KeysOf(rows), f) <==> !r.basis.Fixed? && !r.basis.Manual? && Wins(rows, r) {
      WinnerExact(rows, r);
    }
    NoDupAppend(Filter(rows, Separate()), Concat(KeysOf(rows), f));
  }

  lemma ShadowedExact(rows: seq<CostRow>)
    requires UniqueKey(rows)
    ensures NoDup(Shadowed(rows))
    ensures forall r :: r in Shadowed(rows) <==> IsShadowed(rows, r)
  {
    var f := (k: SpendKey) => Displaced(rows, k);
    KeysOfExact(rows);
    SelectionsPerKey(rows);
    ConcatExact(KeysOf(rows), f);
    forall r: CostRow ensures r in Concat(KeysOf(rows), f) <==> IsShadowed(rows, r) {
      WinnerExact(rows, r);
    }
  }

  // Order independence

  lemma SameTotal(a: seq<CostRow>, b: seq<CostRow>, p: CostRow -> bool)
    requires NoDup(a) && NoDup(b)
    requires forall r :: r in a <==> r in b
    ensures TotalOf(Filter(a, p)) == TotalOf(Filter(b, p))
    ensures TotalOf(a) == TotalOf(b)
  {
    FilterNoDup(a, p);
    FilterNoDup(b, p);
    FilterMember(a, p);
    FilterMember(b, p);
    SumSameElements(Filter(a, p), Filter(b, p), Amount());
    SumSameElements(a, b, Amount());
  }

  lemma SameSelections(a: seq<CostRow>, b: seq<CostRow>)
    requires UniqueKey(a) && UniqueKey(b)
    requires forall r :: r in a <==> r in b
    ensures NoDup(Winning(a)) && NoDup(Winning(b)) && NoDup(Shadowed(a)) && NoDup(Shadowed(b))
    ensures forall r :: r in Winning(a) <==> r in Winning(b)
    ensures forall r :: r in Shadowed(a) <==> r in Shadowed(b)
  {
    WinningExact(a);
    WinningExact(b);
    ShadowedExact(a);
    ShadowedExact(b);
    forall r ensures Wins(a, r) == Wins(b, r) && IsShadowed(a, r) == IsShadowed(b, r) {
      assert HasActual(a, KeyOf(r)) == HasActual(b, KeyOf(r));
      assert BestOfKey(a, r) == BestOfKey(b, r);
    }
  }

  /** `spend` is a function of which rows there are, never of the order they were read in. */
  lemma SpendOrderIndependent(a: seq<CostRow>, b: seq<CostRow>, sa: SpendBreakdown, sb: SpendBreakdown)
    requires UniqueKey(a) && UniqueKey(b)
    requires forall r :: r in a <==> r in b
    requires IsSpend(a, sa) && IsSpend(b, sb)
    ensures sa == sb
  {
    SameSelections(a, b);
    var wa, wb := Winning(a), Winning(b);
    SameTotal(wa, wb, HasBasis(Actual));
    SameTotal(wa, wb, HasBasis(Estimated));
    SameTotal(wa, wb, HasBasis(Fixed));
    SameTotal(wa, wb, HasBasis(Manual));
    SameTotal(wa, wb, HasKind(Usage));
    SameTotal(wa, wb, HasKind(Recurring));
    SameTotal(wa, wb, HasKind(OneTime));
    SameTotal(Shadowed(a), Shadowed(b), Separate());
    assert Currencies(a) == Currencies(b);
  }

  // Splitting by anything the spend key determines

  function InClass<T(==)>(g: SpendKey -> T, t: T): CostRow -> bool { (r: CostRow) => g(KeyOf(r)) == t }

  function Class<T(==)>(rows: seq<CostRow>, g: SpendKey -> T, t: T): seq<CostRow> { Filter(rows, InClass(g, t)) }

  lemma WinsInClass<T>(rows: seq<CostRow>, g: SpendKey -> T, t: T, r: CostRow)
    ensures Wins(Class(rows, g, t), r) <==> Wins(rows, r) && g(KeyOf(r)) == t
    ensures IsShadowed(Class(rows, g, t), r) <==> IsShadowed(rows, r) && g(KeyOf(r)) == t
  {
    FilterMember(rows, InClass(g, t));
    assert HasActual(Class(rows, g, t), KeyOf(r)) <==> HasActual(rows, KeyOf(r)) && g(KeyOf(r)) == t;
    assert BestOfKey(Class(rows, g, t), r) <==> BestOfKey(rows, r) && g(KeyOf(r)) == t;
  }

  /** Selecting inside a class is selecting overall and then taking the class. */
  lemma ClassTotals<T>(rows: seq<CostRow>, g: SpendKey -> T, t: T)
    requires UniqueKey(rows)
    ensures TotalOf(Winning(Class(rows, g, t))) == TotalOf(Class(Winning(rows), g, t))
    ensures TotalOf(Shadowed(Class(rows, g, t))) == TotalOf(Class(Shadowed(rows), g, t))
  {
    var c := Class(rows, g, t);
    UniqueKeyFilter(rows, InClass(g, t));
    WinningExact(rows);
    WinningExact(c);
    ShadowedExact(rows);
    ShadowedExact(c);
    FilterMember(Winning(rows), InClass(g, t));
    FilterMember(Shadowed(rows), InClass(g, t));
    FilterNoDup(Winning(rows), InClass(g, t));
    FilterNoDup(Shadowed(rows), InClass(g, t));
    forall r ensures r in Winning(c) <==> r in Class(Winning(rows), g, t) { WinsInClass(rows, g, t, r); }
    forall r ensures r in Shadowed(c) <==> r in Class(Shadowed(rows), g, t) { WinsInClass(rows, g, t, r); }
    SumSameElements(Winning(c), Class(Winning(rows), g, t), Amount());
    SumSameElements(Shadowed(c), Class(Shadowed(rows), g, t), Amount());
  }

  function SumOverClasses<T(==)>(rows: seq<CostRow>, g: SpendKey -> T, ts: seq<T>): int {
    if ts == [] then 0 else TotalOf(Class(rows, g, ts[0])) + SumOverClasses(rows, g, ts[1..])
  }

  function OutsideClass<T(==)>(g: SpendKey -> T, t: T): CostRow -> bool { (r: CostRow) => g(KeyOf(r)) != t }

  lemma {:induction false} SplitOffClass<T>(rows: seq<CostRow>, g: SpendKey -> T, t: T)
    ensures TotalOf(rows) == TotalOf(Class(rows, g, t)) + TotalOf(Filter(rows, OutsideClass(g, t)))
  {
    SumSplit(rows, InClass(g, t), Amount());
    FilterCong(rows, Not(InClass(g, t)), OutsideClass(g, t));
  }

  lemma {:induction false} ClassesCover<T>(rows: seq<CostRow>, g: SpendKey -> T, ts: seq<T>)
    requires NoDup(ts)
    requires forall r :: r in rows ==> g(KeyOf(r)) in ts
    ensures SumOverClasses(rows, g, ts) == TotalOf(rows)
    decreases |ts|
  {
    assert forall r :: r in rows ==> ts != [];
    if rows == [] {
      ClassesOfNothing<T>(g, ts);
    } else {
      assert rows[0] in rows;
      var rest := Filter(rows, OutsideClass(g, ts[0]));
      SplitOffClass(rows, g, ts[0]);
      FilterMember(rows, OutsideClass(g, ts[0]));
      assert ts == [ts[0]] + ts[1..];
      ClassesCover(rest, g, ts[1..]);
      ClassesOfRest(rows, g, ts[0], ts[1..]);
    }
  }

  lemma {:induction false} ClassesOfNothing<T>(g: SpendKey -> T, ts: seq<T>)
    ensures SumOverClasses([], g, ts) == 0
  {
    if ts != [] {
      ClassesOfNothing(g, ts[1..]);
    }
  }

  lemma {:induction false} ClassesOfRest<T>(rows: seq<CostRow>, g: SpendKey -> T, t: T, ts: seq<T>)
    requires t !in ts
    ensures SumOverClasses(Filter(rows, OutsideClass(g, t)), g, ts) == SumOverClasses(rows, g, ts)
  {
    if ts != [] {
      FilterOfFilter(rows, OutsideClass(g, t), InClass(g, ts[0]));
      ClassesOfRest(rows, g, t, ts[1..]);
    }
  }

  lemma {:induction false} FilterOfFilter(rows: seq<CostRow>, p: CostRow -> bool, q: CostRow -> bool)
    requires forall x :: q(x) ==> p(x)
    ensures Filter(Filter(rows, p), q) == Filter(rows, q)
  {
    if rows != [] {
      FilterOfFilter(rows[1..], p, q);
      var head := if p(rows[0]) then [rows[0]] else [];
      FilterAppend(head, Filter(rows[1..], p), q);
    }
  }

  /** Spends of the classes of any key-determined split add up to the spend of the whole. */
  ghost function SpendSum<T>(rows: seq<CostRow>, g: SpendKey -> T, ts: seq<T>): int {
    if ts == [] then 0 else TotalOf(Winning(Class(rows, g, ts[0]))) + SpendSum(rows, g, ts[1..])
  }

  lemma {:induction false} SpendSplits<T>(rows: seq<CostRow>, g: SpendKey -> T, ts: seq<T>)
    requires UniqueKey(rows) && NoDup(ts)
    requires forall r :: r in rows ==> g(KeyOf(r)) in ts
    ensures SpendSum(rows, g, ts) == TotalOf(Winning(rows))
  {
    WinningExact(rows);
    ClassesCover(Winning(rows), g, ts);
    SpendSumIsClassSum(rows, g, ts);
  }

  lemma {:induction false} SpendSumIsClassSum<T>(rows: seq<CostRow>, g: SpendKey -> T, ts: seq<T>)
    requires UniqueKey(rows)
    ensures SpendSum(rows, g, ts) == SumOverClasses(Winning(rows), g, ts)
  {
    if ts != [] {
      ClassTotals(rows, g, ts[0]);
      SpendSumIsClassSum(rows, g, ts[1..]);
    }
  }

  /** Per-service spends, as the budget engine groups them and as the Cost Center does. */
  lemma PerServiceSpendsSum(rows: seq<CostRow>, services: seq<(string, string)>, serviceIds: seq<string>)
    requires UniqueKey(rows) && NoDup(services) && NoDup(serviceIds)
    requires forall r :: r in rows ==> (r.providerId, r.serviceId) in services && r.serviceId in serviceIds
    ensures SpendSum(rows, (k: SpendKey) => (k.providerId, k.serviceId), services) == TotalOf(Winning(rows))
    ensures SpendSum(rows, (k: SpendKey) => k.serviceId, serviceIds) == TotalOf(Winning(rows))
  {
    SpendSplits(rows, (k: SpendKey) => (k.providerId, k.serviceId), services);
    SpendSplits(rows, (k: SpendKey) => k.serviceId, serviceIds);
  }
}
