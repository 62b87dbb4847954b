/**
 Spend precedence: which rows of `provider_cost_daily` count as money. For one
 (day, meter key) an ACTUAL row beats every ESTIMATED row and the two are never
 added; FIXED and MANUAL rows are separate costs and all count.
 */
module Budget {
  import opened Wrappers
  import opened Calendar
  import opened CostSources
  import opened Sums

  datatype CostBasis = Actual | Estimated | Fixed | Manual
  datatype Confidence = High | Medium | Low {
    function Rank(): int { match this case High => 3 case Medium => 2 case Low => 1 }
  }
  datatype CostKind = Usage | Recurring | OneTime
  datatype BillingCadence = MonthlyCadence | AnnualCadence

  datatype CostRow = CostRow(
    day: Date, providerId: string, serviceId: string,
    operationId: Option<string>, usageMetricId: Option<string>, billingSkuId: Option<string>,
    amountMicros: int, currency: string, basis: CostBasis, confidence: Confidence, source: string,
    costKind: CostKind, billingCadence: Option<BillingCadence>, periodAmountMicros: Option<int>)

  /** The day and meter key two rows share when they are about the same spend. */
  datatype SpendKey = SpendKey(day: Date, providerId: string, serviceId: string,
                               operationId: string, usageMetricId: string, billingSkuId: string)

  function KeyOf(r: CostRow): SpendKey {
    SpendKey(r.day, r.providerId, r.serviceId,
             r.operationId.GetOr(""), r.usageMetricId.GetOr(""), r.billingSkuId.GetOr(""))
  }

  /** The table's unique key is (spend key, source, basis), within one environment. */
  ghost predicate UniqueKey(rows: seq<CostRow>) {
    forall i, j :: 0 <= i < j < |rows| ==> !SameRowKey(rows[i], rows[j])
  }

  predicate SameRowKey(a: CostRow, b: CostRow) {
    KeyOf(a) == KeyOf(b) && a.source == b.source && a.basis == b.basis
  }

  lemma UniqueKeyIn(rows: seq<CostRow>, a: CostRow, b: CostRow)
    requires UniqueKey(rows) && a in rows && b in rows && SameRowKey(a, b)
    ensures a == b
  {
    var i :| 0 <= i < |rows| && rows[i] == a;
    var j :| 0 <= j < |rows| && rows[j] == b;
    assert i == j;
  }

  lemma UniqueKeyNoDup(rows: seq<CostRow>)
    requires UniqueKey(rows)
    ensures NoDup(rows)
  {
    forall i, j | 0 <= i < j < |rows| ensures rows[i] != rows[j] {
      assert !SameRowKey(rows[i], rows[j]);
    }
  }

  /** A row's key survives dropping other rows. */
  lemma {:induction false} UniqueKeyFilter(rows: seq<CostRow>, p: CostRow -> bool)
    requires UniqueKey(rows)
    ensures UniqueKey(Filter(rows, p))
  {
    if rows != [] {
      UniqueKeyFilter(rows[1..], p);
      FilterMember(rows[1..], p);
      var rest := Filter(rows[1..], p);
      forall x | x in rest ensures !SameRowKey(rows[0], x) {
        assert x in rows[1..];
        var j :| 1 <= j < |rows| && rows[j] == x;
      }
    }
  }

  function Amount(): CostRow -> int { (r: CostRow) => r.amountMicros }
  function HasBasis(b: CostBasis): CostRow -> bool { (r: CostRow) => r.basis == b }
  function HasKind(k: CostKind): CostRow -> bool { (r: CostRow) => r.costKind == k }
  function Separate(): CostRow -> bool { (r: CostRow) => r.basis.Fixed? || r.basis.Manual? }
  function Metered(k: SpendKey): CostRow -> bool {
    (r: CostRow) => (r.basis.Actual? || r.basis.Estimated?) && KeyOf(r) == k
  }

  // Picking one row of a group

  predicate Better(a: CostRow, b: CostRow) {
    a.confidence.Rank() > b.confidence.Rank()
    || (a.confidence == b.confidence && Before(a.source, b.source))
  }

  /** First of the stable sort by confidence, then source name. */
  function Pick(candidates: seq<CostRow>): CostRow
    requires candidates != []
  {
    if |candidates| == 1 then candidates[0]
    else
      var rest := Pick(candidates[1..]);
      if Better(rest, candidates[0]) then rest else candidates[0]
  }

  lemma BetterTransitive(a: CostRow, b: CostRow, c: CostRow)
    requires !Better(b, a) && !Better(c, b)
    ensures !Better(c, a)
  {
    BeforeTotal(a.source, b.source);
    BeforeTotal(b.source, c.source);
    BeforeTotal(a.source, c.source);
    if Before(a.source, b.source) && Before(b.source, c.source) {
      BeforeTransitive(a.source, b.source, c.source);
    }
  }

  lemma {:induction false} PickBest(candidates: seq<CostRow>)
    requires candidates != []
    ensures Pick(candidates) in candidates
    ensures forall x :: x in candidates ==> !Better(x, Pick(candidates))
  {
    BeforeTotal(candidates[0].source, candidates[0].source);
    if |candidates| > 1 {
      var rest := candidates[1..];
      PickBest(rest);
      var p := Pick(rest);
      BeforeTotal(p.source, candidates[0].source);
      forall x | x in candidates ensures !Better(x, Pick(candidates)) {
        if x != candidates[0] {
          assert x in rest;
          if !Better(p, candidates[0]) {
            BetterTransitive(candidates[0], p, x);
          }
        }
      }
    }
  }

  // Winning rows

  function KeysOf(rows: seq<CostRow>): (keys: seq<SpendKey>) {
    if rows == [] then []
    else
      var before := KeysOf(rows[..|rows| - 1]);
      var r := rows[|rows| - 1];
      if r.basis.Fixed? || r.basis.Manual? || KeyOf(r) in before then before else before + [KeyOf(r)]
  }

  function Group(rows: seq<CostRow>, k: SpendKey): seq<CostRow> { Filter(rows, Metered(k)) }

  function Candidates(rows: seq<CostRow>, k: SpendKey, b: CostBasis): seq<CostRow> {
    Filter(Group(rows, k), HasBasis(b))
  }

  function Best(rows: seq<CostRow>, k: SpendKey, b: CostBasis): seq<CostRow> {
    if Candidates(rows, k, b) == [] then [] else [Pick(Candidates(rows, k, b))]
  }

  function Winner(rows: seq<CostRow>, k: SpendKey): seq<CostRow> {
    if Candidates(rows, k, Actual) != [] then Best(rows, k, Actual) else Best(rows, k, Estimated)
  }

  function Displaced(rows: seq<CostRow>, k: SpendKey): seq<CostRow> {
    if Candidates(rows, k, Actual) != [] then Best(rows, k, Estimated) else []
  }

  function Concat<T>(keys: seq<SpendKey>, f: SpendKey -> seq<T>): seq<T> {
    if keys == [] then [] else f(keys[0]) + Concat(keys[1..], f)
  }

  function Winning(rows: seq<CostRow>): seq<CostRow> {
    Filter(rows, Separate()) + Concat(KeysOf(rows), (k: SpendKey) => Winner(rows, k))
  }

  function Shadowed(rows: seq<CostRow>): seq<CostRow> {
    Concat(KeysOf(rows), (k: SpendKey) => Displaced(rows, k))
  }

  datatype ByBasis = ByBasis(actual: int, estimated: int, fixed: int, manual: int) {
    function Sum(): int { actual + estimated + fixed + manual }
    function Add(b: CostBasis, n: int): ByBasis {
      match b
      case Actual => this.(actual := actual + n)
      case Estimated => this.(estimated := estimated + n)
      case Fixed => this.(fixed := fixed + n)
      case Manual => this.(manual := manual + n)
    }
  }

  datatype ByKind = ByKind(usage: int, recurring: int, oneTime: int) {
    function Sum(): int { usage + recurring + oneTime }
    function Add(k: CostKind, n: int): ByKind {
      match k
      case Usage => this.(usage := usage + n)
      case Recurring => this.(recurring := recurring + n)
      case OneTime => this.(oneTime := oneTime + n)
    }
  }

  datatype SpendBreakdown = SpendBreakdown(
    micros: int, byBasis: ByBasis, byKind: ByKind,
    shadowedEstimatedMicros: int, currency: Option<string>, mixedCurrency: bool)

  function TotalOf(rows: seq<CostRow>): int { SumBy(rows, Amount()) }
  function BasisTotal(rows: seq<CostRow>, b: CostBasis): int { TotalOf(Filter(rows, HasBasis(b))) }
  function KindTotal(rows: seq<CostRow>, k: CostKind): int { TotalOf(Filter(rows, HasKind(k))) }
  function Currencies(rows: seq<CostRow>): set<string> { set r | r in rows :: r.currency }

  ghost function OnlyCurrency(cs: set<string>): Option<string> {
    if |cs| == 1 then var c :| c in cs; Some(c) else None
  }

  /** What `spend` answers, said of the winning and shadowed rows. */
  ghost predicate IsSpend(rows: seq<CostRow>, s: SpendBreakdown) {
    var w := Winning(rows);
    && s.micros == TotalOf(w)
    && SplitByBasis(w, s.byBasis)
    && SplitByKind(w, s.byKind)
    && s.shadowedEstimatedMicros == TotalOf(Shadowed(rows))
    && s.currency == OnlyCurrency(Currencies(rows))
    && s.mixedCurrency == (|Currencies(rows)| > 1)
  }

  // The loops

  lemma KeysOfSnoc(rows: seq<CostRow>, i: nat)
    requires i < |rows|
    ensures KeysOf(rows[..i + 1]) ==
            if rows[i].basis.Fixed? || rows[i].basis.Manual? || KeyOf(rows[i]) in KeysOf(rows[..i])
            then KeysOf(rows[..i]) else KeysOf(rows[..i]) + [KeyOf(rows[i])]
  {
    assert rows[..i + 1][..i] == rows[..i];
  }

  /** The groups so far: one per key seen, holding that key's metered rows in order. */
  ghost predicate GroupsOf(rows: seq<CostRow>, keys: seq<SpendKey>, groups: map<SpendKey, seq<CostRow>>) {
    && (forall k :: k in keys <==> k in groups)
    && (forall k :: k in groups ==> groups[k] == Group(rows, k))
    && (forall k :: k !in groups ==> Group(rows, k) == [])
  }

  lemma GroupsStep(rows: seq<CostRow>, i: nat, keys: seq<SpendKey>, groups: map<SpendKey, seq<CostRow>>)
    requires i < |rows| && GroupsOf(rows[..i], keys, groups)
    ensures var r, k := rows[i], KeyOf(rows[i]);
            if r.basis.Fixed? || r.basis.Manual? then GroupsOf(rows[..i + 1], keys, groups)
            else if k in groups then GroupsOf(rows[..i + 1], keys, groups[k := groups[k] + [r]])
            else GroupsOf(rows[..i + 1], keys + [k], groups[k := [r]])
  {
    hide Filter;
    forall k ensures Group(rows[..i + 1], k) == Group(rows[..i], k) + (if Metered(k)(rows[i]) then [rows[i]] else []) {
      FilterSnoc(rows, i, Metered(k));
    }
  }

  lemma NoGroups(rows: seq<CostRow>)
    requires rows == []
    ensures Filter(rows, Separate()) == [] && KeysOf(rows) == [] && GroupsOf(rows, [], map[])
  {
  }

  method UsageGroups(rows: seq<CostRow>)
    returns (fixed: seq<CostRow>, keys: seq<SpendKey>, groups: map<SpendKey, seq<CostRow>>)
    ensures fixed == Filter(rows, Separate())
    ensures keys == KeysOf(rows)
    ensures forall k :: k in keys <==> k in groups
    ensures forall k :: k in groups ==> groups[k] == Group(rows, k)
  {
    hide Filter, KeysOf, Group;
    fixed, keys, groups := [], [], map[];
    NoGroups(rows[..0]);
    for i := 0 to |rows|
      invariant fixed == Filter(rows[..i], Separate()) && keys == KeysOf(rows[..i]) && GroupsOf(rows[..i], keys, groups)
    {
      var r := rows[i];
      FilterSnoc(rows, i, Separate());
      KeysOfSnoc(rows, i);
      GroupsStep(rows, i, keys, groups);
      if r.basis.Fixed? || r.basis.Manual? {
        fixed := fixed + [r];
      } else {
        var k := KeyOf(r);
        assert k in keys <==> k in groups;
        if k in groups {
          groups := groups[k := groups[k] + [r]];
        } else {
          keys := keys + [k];
          groups := groups[k := [r]];
        }
      }
    }
    assert rows[..|rows|] == rows;
  }

  lemma {:induction false} ConcatAppend<T>(a: seq<SpendKey>, b: seq<SpendKey>, f: SpendKey -> seq<T>)
    ensures Concat(a + b, f) == Concat(a, f) + Concat(b, f)
  {
    if a == [] {
      assert a + b == b;
    } else {
      assert (a + b)[1..] == a[1..] + b;
      ConcatAppend(a[1..], b, f);
    }
  }

  lemma ConcatSnoc<T>(keys: seq<SpendKey>, i: nat, f: SpendKey -> seq<T>)
    requires i < |keys|
    ensures Concat(keys[..i + 1], f) == Concat(keys[..i], f) + f(keys[i])
  {
    assert keys[..i + 1] == keys[..i] + [keys[i]];
    ConcatAppend(keys[..i], [keys[i]], f);
  }

  lemma Reassociate<T>(a: seq<T>, b: seq<T>, c: seq<T>)
    ensures (a + b) + c == a + (b + c)
  {
  }

  method WinningRows(rows: seq<CostRow>) returns (out: seq<CostRow>)
    ensures out == Winning(rows)
  {
    hide Filter, KeysOf, Concat, Pick, Group;
    var fixed, keys, groups := UsageGroups(rows);
    ghost var f := (k: SpendKey) => Winner(rows, k);
    out := fixed;
    ConcatNothing(keys[..0], f);
    for i := 0 to |keys|
      invariant out == fixed + Concat(keys[..i], f)
    {
      ConcatSnoc(keys, i, f);
      assert keys[i] in groups;
      var group := groups[keys[i]];
      var actual := Filter(group, HasBasis(Actual));
      var estimated := Filter(group, HasBasis(Estimated));
      Reassociate(fixed, Concat(keys[..i], f), f(keys[i]));
      if |actual| > 0 {
        out := out + [Pick(actual)];
      } else if |estimated| > 0 {
        out := out + [Pick(estimated)];
      }
    }
    assert keys[..|keys|] == keys;
  }

  lemma ConcatNothing<T>(keys: seq<SpendKey>, f: SpendKey -> seq<T>)
    requires keys == []
    ensures Concat(keys, f) == []
  {
  }

  method ShadowedRows(rows: seq<CostRow>) returns (out: seq<CostRow>)
    ensures out == Shadowed(rows)
  {
    hide Filter, KeysOf, Concat, Pick, Group;
    var _, keys, groups := UsageGroups(rows);
    ghost var f := (k: SpendKey) => Displaced(rows, k);
    out := [];
    ConcatNothing(keys[..0], f);
    for i := 0 to |keys|
      invariant out == Concat(keys[..i], f)
    {
      ConcatSnoc(keys, i, f);
      assert keys[i] in groups;
      var group := groups[keys[i]];
      var actual := Filter(group, HasBasis(Actual));
      var estimated := Filter(group, HasBasis(Estimated));
      if |actual| > 0 && |estimated| > 0 {
        out := out + [Pick(estimated)];
      }
    }
    assert keys[..|keys|] == keys;
  }

  lemma BasisSnoc(rows: seq<CostRow>, i: nat, p: CostRow -> bool)
    requires i < |rows|
    ensures TotalOf(Filter(rows[..i + 1], p)) == TotalOf(Filter(rows[..i], p))
        + (if p(rows[i]) then rows[i].amountMicros else 0)
  {
    FilterSnoc(rows, i, p);
    SumAppend(Filter(rows[..i], p), if p(rows[i]) then [rows[i]] else [], Amount());
  }

  ghost predicate SplitByBasis(w: seq<CostRow>, m: ByBasis) {
    m == ByBasis(BasisTotal(w, Actual), BasisTotal(w, Estimated), BasisTotal(w, Fixed), BasisTotal(w, Manual))
  }

  ghost predicate SplitByKind(w: seq<CostRow>, m: ByKind) {
    m == ByKind(KindTotal(w, Usage), KindTotal(w, Recurring), KindTotal(w, OneTime))
  }

  ghost predicate Splits(w: seq<CostRow>, byBasis: ByBasis, byKind: ByKind) {
    && SplitByBasis(w, byBasis) && SplitByKind(w, byKind)
    && byBasis.Sum() == TotalOf(w) && byKind.Sum() == TotalOf(w)
  }

  lemma SplitNothing(w: seq<CostRow>)
    requires w == []
    ensures Splits(w, ByBasis(0, 0, 0, 0), ByKind(0, 0, 0))
  {
  }

  lemma SplitStep(w: seq<CostRow>, i: nat, byBasis: ByBasis, byKind: ByKind)
    requires i < |w| && Splits(w[..i], byBasis, byKind)
    ensures Splits(w[..i + 1], byBasis.Add(w[i].basis, w[i].amountMicros), byKind.Add(w[i].costKind, w[i].amountMicros))
  {
    hide Filter, SumBy;
    BasisSnoc(w, i, HasBasis(Actual));
    BasisSnoc(w, i, HasBasis(Estimated));
    BasisSnoc(w, i, HasBasis(Fixed));
    BasisSnoc(w, i, HasBasis(Manual));
    BasisSnoc(w, i, HasKind(Usage));
    BasisSnoc(w, i, HasKind(Recurring));
    BasisSnoc(w, i, HasKind(OneTime));
    SumSnoc(w, i, Amount());
  }

  /** One pass adds each row to its basis and to its kind, so both splits sum to the total. */
  method TotalsByBasisAndKind(w: seq<CostRow>) returns (byBasis: ByBasis, byKind: ByKind)
    ensures Splits(w, byBasis, byKind)
  {
    byBasis, byKind := ByBasis(0, 0, 0, 0), ByKind(0, 0, 0);
    hide Splits;
    SplitNothing(w[..0]);
    for i := 0 to |w|
      invariant Splits(w[..i], byBasis, byKind)
    {
      SplitStep(w, i, byBasis, byKind);
      byBasis := byBasis.Add(w[i].basis, w[i].amountMicros);
      byKind := byKind.Add(w[i].costKind, w[i].amountMicros);
    }
    assert w[..|w|] == w;
  }

  method CurrencyOf(rows: seq<CostRow>) returns (currency: Option<string>, mixed: bool)
    ensures currency == OnlyCurrency(Currencies(rows))
    ensures mixed == (|Currencies(rows)| > 1)
  {
    var currencies: set<string> := {};
    for i := 0 to |rows|
      invariant currencies == Currencies(rows[..i])
    {
      assert rows[..i + 1] == rows[..i] + [rows[i]];
      currencies := currencies + {rows[i].currency};
    }
    assert rows[..|rows|] == rows;
    currency := None;
    if |currencies| == 1 {
      var c :| c in currencies;
      currency := Some(c);
      OnlyElement(currencies, c);
    }
    mixed := |currencies| > 1;
  }

  method TotalMicros(rows: seq<CostRow>) returns (total: int)
    ensures total == TotalOf(rows)
  {
    total := 0;
    for i := 0 to |rows|
      invariant total == TotalOf(rows[..i])
    {
      SumSnoc(rows, i, Amount());
      total := total + rows[i].amountMicros;
    }
    assert rows[..|rows|] == rows;
  }

  /** `micros` is the total of the winning rows, and `byBasis` and `byKind` are its two exact splits. */
  method Spend(rows: seq<CostRow>) returns (s: SpendBreakdown)
    ensures IsSpend(rows, s)
    ensures s.byBasis.Sum() == s.micros && s.byKind.Sum() == s.micros
  {
    hide Filter, SumBy, Concat, KeysOf;
    var currency, mixed := CurrencyOf(rows);
    var winning := WinningRows(rows);
    var byBasis, byKind := TotalsByBasisAndKind(winning);
    var displaced := ShadowedRows(rows);
    var shadowed := TotalMicros(displaced);
    s := SpendBreakdown(byBasis.actual + byBasis.estimated + byBasis.fixed + byBasis.manual,
                        byBasis, byKind, shadowed, currency, mixed);
  }

  lemma OnlyElement(cs: set<string>, c: string)
    requires |cs| == 1 && c in cs
    ensures cs == {c}
    ensures OnlyCurrency(cs) == Some(c)
  {
    assert |cs - {c}| == 0;
    assert cs - {c} == {};
    assert forall x :: x in cs ==> x == c;
  }
}
