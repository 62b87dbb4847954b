/** `Array.prototype.sort`: a stable sort, and what it keeps. */
module Sorting {
  import opened Sums

  function Insert<T>(x: T, s: seq<T>, before: (T, T) -> bool): seq<T> {
    if s == [] || before(x, s[0]) then [x] + s else [s[0]] + Insert(x, s[1..], before)
  }

  function StableSort<T>(s: seq<T>, before: (T, T) -> bool): seq<T> {
    if s == [] then [] else Insert(s[|s| - 1], StableSort(s[..|s| - 1], before), before)
  }

  /** A comparison a sort can use: never both ways, and "not before" chains. */
  ghost predicate WeakOrder<T(!new)>(before: (T, T) -> bool) {
    && (forall x, y :: !(before(x, y) && before(y, x)))
    && (forall x, y, z :: !before(y, x) && !before(z, y) ==> !before(z, x))
  }

  ghost predicate SortedBy<T>(s: seq<T>, before: (T, T) -> bool) {
    forall i, j :: 0 <= i < j < |s| ==> !before(s[j], s[i])
  }

  lemma {:induction false} InsertMember<T>(x: T, s: seq<T>, before: (T, T) -> bool)
    ensures forall y :: y in Insert(x, s, before) <==> y == x || y in s
    ensures |Insert(x, s, before)| == |s| + 1
  {
    if s != [] && !before(x, s[0]) {
      InsertMember(x, s[1..], before);
      assert s == [s[0]] + s[1..];
    }
  }

  lemma {:induction false} InsertNoDup<T>(x: T, s: seq<T>, before: (T, T) -> bool)
    requires NoDup(s) && x !in s
    ensures NoDup(Insert(x, s, before))
  {
    if s != [] && !before(x, s[0]) {
      assert s == [s[0]] + s[1..];
      InsertNoDup(x, s[1..], before);
      InsertMember(x, s[1..], before);
      NoDupAppend([s[0]], Insert(x, s[1..], before));
    } else {
      NoDupAppend([x], s);
    }
  }

  lemma {:induction false} InsertSorted<T(!new)>(x: T, s: seq<T>, before: (T, T) -> bool)
    requires WeakOrder(before) && SortedBy(s, before)
    ensures SortedBy(Insert(x, s, before), before)
  {
    var r := Insert(x, s, before);
    if s != [] && !before(x, s[0]) {
      var rest := Insert(x, s[1..], before);
      InsertSorted(x, s[1..], before);
      InsertMember(x, s[1..], before);
      forall j | 0 <= j < |rest| ensures !before(rest[j], s[0]) {
        assert rest[j] in rest;
        if rest[j] != x {
          var k :| 0 <= k < |s[1..]| && s[1..][k] == rest[j];
          assert s[k + 1] == rest[j];
        }
      }
    } else if s != [] {
      forall j | 0 <= j < |s| ensures !before(s[j], x) {
        assert !before(s[j], s[0]) && !before(s[0], x);
      }
    }
  }

  lemma {:induction false} SortExact<T(!new)>(s: seq<T>, before: (T, T) -> bool)
    ensures forall x :: x in StableSort(s, before) <==> x in s
    ensures NoDup(s) ==> NoDup(StableSort(s, before))
    ensures WeakOrder(before) ==> SortedBy(StableSort(s, before), before)
  {
    if s != [] {
      var n := |s| - 1;
      var sorted := StableSort(s[..n], before);
      assert s == s[..n] + [s[n]];
      SortExact(s[..n], before);
      InsertMember(s[n], sorted, before);
      if NoDup(s) {
        InsertNoDup(s[n], sorted, before);
      }
      if WeakOrder(before) {
        InsertSorted(s[n], sorted, before);
      }
    }
  }

  lemma {:induction false} InsertSum<T>(x: T, s: seq<T>, before: (T, T) -> bool, f: T -> int)
    ensures SumBy(Insert(x, s, before), f) == f(x) + SumBy(s, f)
  {
    if s != [] && !before(x, s[0]) {
      InsertSum(x, s[1..], before, f);
      SumAppend([s[0]], Insert(x, s[1..], before), f);
    } else {
      SumAppend([x], s, f);
    }
  }

  lemma {:induction false} SortSum<T>(s: seq<T>, before: (T, T) -> bool, f: T -> int)
    ensures SumBy(StableSort(s, before), f) == SumBy(s, f)
  {
    if s != [] {
      var n := |s| - 1;
      SortSum(s[..n], before, f);
      InsertSum(s[n], StableSort(s[..n], before), before, f);
      assert s[..n + 1] == s;
      SumSnoc(s, n, f);
    }
  }

  lemma {:induction false} InsertFilter<T(!new)>(x: T, s: seq<T>, before: (T, T) -> bool, p: T -> bool)
    requires WeakOrder(before) && SortedBy(s, before)
    ensures Filter(Insert(x, s, before), p) == if p(x) then Insert(x, Filter(s, p), before) else Filter(s, p)
  {
    if s == [] || before(x, s[0]) {
      FilterAppend([x], s, p);
      var kept := Filter(s, p);
      if kept != [] && s != [] {
        FilterMember(s, p);
        assert kept[0] in s;
        var i :| 0 <= i < |s| && s[i] == kept[0];
        assert before(x, kept[0]);
      }
    } else {
      InsertFilter(x, s[1..], before, p);
      FilterAppend([s[0]], Insert(x, s[1..], before), p);
      var rest, head := Filter(s[1..], p), if p(s[0]) then [s[0]] else [];
      assert [s[0]][1..] == [];
      assert Filter([s[0]], p) == head;
      assert Filter(s, p) == head + rest;
      if p(x) {
        assert if p(s[0]) then (head + rest)[1..] == rest else head + rest == rest;
        assert head + Insert(x, rest, before) == Insert(x, head + rest, before);
      }
    }
  }

  lemma SortSorted<T(!new)>(s: seq<T>, before: (T, T) -> bool)
    requires WeakOrder(before)
    ensures SortedBy(StableSort(s, before), before)
  {
    SortExact(s, before);
  }

  lemma SortSnoc<T>(s: seq<T>, x: T, before: (T, T) -> bool)
    ensures StableSort(s + [x], before) == Insert(x, StableSort(s, before), before)
  {
    assert (s + [x])[..|s|] == s;
  }

  /** Dropping rows before or after sorting is the same. */
  lemma {:induction false} SortFilter<T(!new)>(s: seq<T>, before: (T, T) -> bool, p: T -> bool)
    requires WeakOrder(before)
    ensures Filter(StableSort(s, before), p) == StableSort(Filter(s, p), before)
  {
    if s != [] {
      hide StableSort, Insert, Filter, WeakOrder, SortedBy;
      var n := |s| - 1;
      SortFilter(s[..n], before, p);
      SortSorted(s[..n], before);
      InsertFilter(s[n], StableSort(s[..n], before), before, p);
      assert s == s[..n] + [s[n]];
      assert s[..n + 1] == s;
      SortSnoc(s[..n], s[n], before);
      FilterSnoc(s, n, p);
      SortSnoc(Filter(s[..n], p), s[n], before);
      assert Filter(s[..n], p) + [] == Filter(s[..n], p);
    }
  }
}
