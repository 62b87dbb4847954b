/**
 Sums over sequences, and the facts the cost engine's proofs share: a total
 does not depend on the order rows arrive in, and it splits along any predicate.
 */
module Sums {

  ghost predicate NoDup<T>(s: seq<T>) {
    forall i, j :: 0 <= i < j < |s| ==> s[i] != s[j]
  }

  lemma NoDupAppend<T>(a: seq<T>, b: seq<T>)
    requires NoDup(a) && NoDup(b)
    requires forall x, y :: x in a && y in b ==> x != y
    ensures NoDup(a + b)
  {
    var s := a + b;
    forall i, j | 0 <= i < j < |s| ensures s[i] != s[j] {
      if i < |a| && j >= |a| {
        assert s[i] in a && s[j] in b;
      }
    }
  }

  function SumBy<T>(s: seq<T>, f: T -> int): int {
    if s == [] then 0 else f(s[0]) + SumBy(s[1..], f)
  }

  function Filter<T>(s: seq<T>, p: T -> bool): seq<T> {
    if s == [] then [] else (if p(s[0]) then [s[0]] else []) + Filter(s[1..], p)
  }

  function Not<T>(p: T -> bool): T -> bool { x => !p(x) }

  lemma {:induction false} SumAppend<T>(a: seq<T>, b: seq<T>, f: T -> int)
    ensures SumBy(a + b, f) == SumBy(a, f) + SumBy(b, f)
  {
    if a == [] {
      assert a + b == b;
    } else {
      assert (a + b)[1..] == a[1..] + b;
      SumAppend(a[1..], b, f);
    }
  }

  lemma {:induction false} FilterAppend<T>(a: seq<T>, b: seq<T>, p: T -> bool)
    ensures Filter(a + b, p) == Filter(a, p) + Filter(b, p)
  {
    if a == [] {
      assert a + b == b;
    } else {
      assert (a + b)[1..] == a[1..] + b;
      FilterAppend(a[1..], b, p);
      var head, fa, fb := if p(a[0]) then [a[0]] else [], Filter(a[1..], p), Filter(b, p);
      assert head + (fa + fb) == (head + fa) + fb;
    }
  }

  /** The form loops need: folding one more element in at the end. */
  lemma SumSnoc<T>(s: seq<T>, i: nat, f: T -> int)
    requires i < |s|
    ensures SumBy(s[..i + 1], f) == SumBy(s[..i], f) + f(s[i])
  {
    assert s[..i + 1] == s[..i] + [s[i]];
    SumAppend(s[..i], [s[i]], f);
  }

  lemma FilterSnoc<T>(s: seq<T>, i: nat, p: T -> bool)
    requires i < |s|
    ensures Filter(s[..i + 1], p) == Filter(s[..i], p) + (if p(s[i]) then [s[i]] else [])
  {
    assert s[..i + 1] == s[..i] + [s[i]];
    FilterAppend(s[..i], [s[i]], p);
  }

  lemma {:induction false} FilterMember<T>(s: seq<T>, p: T -> bool)
    ensures |Filter(s, p)| <= |s|
    ensures forall x :: x in Filter(s, p) <==> x in s && p(x)
  {
    if s != [] {
      FilterMember(s[1..], p);
      assert s == [s[0]] + s[1..];
    }
  }

  lemma {:induction false} FilterNoDup<T>(s: seq<T>, p: T -> bool)
    requires NoDup(s)
    ensures NoDup(Filter(s, p))
  {
    if s != [] {
      FilterNoDup(s[1..], p);
      FilterMember(s[1..], p);
      assert s[0] !in s[1..];
    }
  }

  lemma {:induction false} FilterAll<T>(s: seq<T>, p: T -> bool)
    requires forall x :: x in s ==> p(x)
    ensures Filter(s, p) == s
  {
    if s != [] {
      FilterAll(s[1..], p);
      assert s == [s[0]] + s[1..];
    }
  }

  lemma {:induction false} FilterNone<T>(s: seq<T>, p: T -> bool)
    requires forall x :: x in s ==> !p(x)
    ensures Filter(s, p) == []
  {
    if s != [] {
      FilterNone(s[1..], p);
    }
  }

  lemma {:induction false} FilterCong<T>(s: seq<T>, p: T -> bool, q: T -> bool)
    requires forall x :: x in s ==> p(x) == q(x)
    ensures Filter(s, p) == Filter(s, q)
  {
    if s != [] {
      FilterCong(s[1..], p, q);
    }
  }

  lemma {:induction false} SumCong<T>(s: seq<T>, f: T -> int, g: T -> int)
    requires forall x :: x in s ==> f(x) == g(x)
    ensures SumBy(s, f) == SumBy(s, g)
  {
    if s != [] {
      SumCong(s[1..], f, g);
    }
  }

  /** A total splits into the part a predicate selects and the rest. */
  lemma {:induction false} SumSplit<T>(s: seq<T>, p: T -> bool, f: T -> int)
    ensures SumBy(s, f) == SumBy(Filter(s, p), f) + SumBy(Filter(s, Not(p)), f)
  {
    if s != [] {
      SumSplit(s[1..], p, f);
      var head := if p(s[0]) then [s[0]] else [];
      SumAppend(head, Filter(s[1..], p), f);
      SumAppend(if p(s[0]) then [] else [s[0]], Filter(s[1..], Not(p)), f);
    }
  }

  lemma {:induction false} SumZero<T>(s: seq<T>, f: T -> int)
    requires forall x :: x in s ==> f(x) == 0
    ensures SumBy(s, f) == 0
  {
    if s != [] {
      SumZero(s[1..], f);
    }
  }

  function Without<T>(s: seq<T>, i: nat): seq<T>
    requires i < |s|
  {
    s[..i] + s[i + 1..]
  }

  lemma SumWithout<T>(s: seq<T>, i: nat, f: T -> int)
    requires i < |s|
    ensures SumBy(s, f) == f(s[i]) + SumBy(Without(s, i), f)
  {
    assert s == s[..i] + s[i..];
    SumAppend(s[..i], s[i..], f);
    SumAppend(s[..i], s[i + 1..], f);
  }

  lemma WithoutMember<T>(s: seq<T>, i: nat, x: T)
    requires i < |s| && NoDup(s)
    ensures x in Without(s, i) <==> x in s && x != s[i]
  {
    var rest := Without(s, i);
    if x in rest {
      var k :| 0 <= k < |rest| && rest[k] == x;
      assert x == if k < i then s[k] else s[k + 1];
    }
    if x in s && x != s[i] {
      var k :| 0 <= k < |s| && s[k] == x;
      assert rest[if k < i then k else k - 1] == x;
    }
  }

  lemma WithoutNoDup<T>(s: seq<T>, i: nat)
    requires i < |s| && NoDup(s)
    ensures NoDup(Without(s, i))
  {
    var rest := Without(s, i);
    forall j, k | 0 <= j < k < |rest| ensures rest[j] != rest[k] {
      assert rest[j] == s[if j < i then j else j + 1];
      assert rest[k] == s[if k < i then k else k + 1];
    }
  }

  /** Two duplicate-free sequences over one set of elements have one total. */
  lemma {:induction false} SumSameElements<T>(a: seq<T>, b: seq<T>, f: T -> int)
    requires NoDup(a) && NoDup(b)
    requires forall x :: x in a <==> x in b
    ensures SumBy(a, f) == SumBy(b, f)
  {
    assert b != [] ==> b[0] in b;
    if a == [] {
      assert b == [];
    } else {
      assert a[0] in b;
      var i :| 0 <= i < |b| && b[i] == a[0];
      SumWithout(b, i, f);
      WithoutNoDup(b, i);
      assert a[1..] == Without(a, 0);
      forall x ensures x in a[1..] <==> x in Without(b, i) {
        WithoutMember(b, i, x);
        WithoutMember(a, 0, x);
      }
      SumSameElements(a[1..], Without(b, i), f);
    }
  }

  /** Two sequences matched element by element through `m`, with equal amounts, have one total. */
  lemma {:induction false} SumMapped<T, U>(a: seq<T>, b: seq<U>, f: T -> int, g: U -> int)
    requires |a| == |b|
    requires forall i :: 0 <= i < |a| ==> f(a[i]) == g(b[i])
    ensures SumBy(a, f) == SumBy(b, g)
  {
    if a != [] {
      SumMapped(a[1..], b[1..], f, g);
    }
  }
}
