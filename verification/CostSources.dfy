/**
 The `source` a cost row is written under: a name with a total order (the
 tie-break among equally confident rows), and the family manual items own.
 */
module CostSources {

  const MANUAL_COST_SOURCE_PREFIX := "manual_cost_items:"

  function ManualCostSource(itemId: string): string { MANUAL_COST_SOURCE_PREFIX + itemId }

  predicate IsManualCostSource(source: string) { MANUAL_COST_SOURCE_PREFIX <= source }

  /** One item is one source: no two items share one. */
  lemma ManualCostSourceInjective(a: string, b: string)
    requires ManualCostSource(a) == ManualCostSource(b)
    ensures a == b
  {
    var n := |MANUAL_COST_SOURCE_PREFIX|;
    assert a == ManualCostSource(a)[n..] == ManualCostSource(b)[n..] == b;
  }

  /** Strict name order. */
  predicate Before(a: string, b: string) {
    if b == [] then false
    else if a == [] then true
    else a[0] < b[0] || (a[0] == b[0] && Before(a[1..], b[1..]))
  }

  lemma {:induction false} BeforeTotal(a: string, b: string)
    ensures Before(a, b) || Before(b, a) || a == b
    ensures !(Before(a, b) && Before(b, a))
    ensures a == b ==> !Before(a, b)
  {
    if a != [] && b != [] {
      BeforeTotal(a[1..], b[1..]);
      assert a == [a[0]] + a[1..] && b == [b[0]] + b[1..];
    }
  }

  lemma {:induction false} BeforeTransitive(a: string, b: string, c: string)
    requires Before(a, b) && Before(b, c)
    ensures Before(a, c)
  {
    if a != [] && b[0] == a[0] && c[0] == b[0] {
      BeforeTransitive(a[1..], b[1..], c[1..]);
    }
  }

  /** "Not before" chains, as a sort needs. */
  lemma NamesChain(a: string, b: string, c: string)
    requires !Before(b, a) && !Before(c, b)
    ensures !Before(c, a)
    ensures a == c ==> a == b
  {
    BeforeTotal(a, b);
    BeforeTotal(b, c);
    BeforeTotal(a, c);
    if Before(a, b) && Before(b, c) {
      BeforeTransitive(a, b, c);
    }
  }
}
