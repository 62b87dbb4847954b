/**
 What every module shares: an optional value, and the rounding the amounts use.
 */
module Wrappers {

  datatype Option<T> = None | Some(value: T) {
    function GetOr(default: T): T { if None? then default else value }
  }

  function Max0(n: int): int { if n > 0 then n else 0 }

  /** `Math.ceil(n / d)` of an integer fraction. */
  function CeilDiv(n: int, d: int): int
    requires d > 0
  {
    -((-n) / d)
  }

  /** `Math.round(n / d)`: to the nearest integer, halves upwards. */
  function RoundDiv(n: int, d: int): int
    requires d != 0
  {
    if d > 0 then (2 * n + d) / (2 * d) else (-2 * n - d) / (-2 * d)
  }

  /** The least integer that is not below the fraction. */
  lemma CeilNearest(n: int, d: int)
    requires d > 0
    ensures n <= CeilDiv(n, d) * d < n + d
  {
    var q := (-n) / d;
    assert -n == d * q + (-n) % d;
    assert CeilDiv(n, d) * d == -(d * q);
  }

  lemma CeilWhole(k: int, d: int)
    requires d > 0
    ensures CeilDiv(k * d, d) == k
  {
    CeilNearest(k * d, d);
    var c := CeilDiv(k * d, d);
    assert d * (k - c - 1) == k * d - c * d - d;
    FactorNegative(d, k - c - 1);
    assert d * (c - k - 1) == c * d - k * d - d;
    FactorNegative(d, c - k - 1);
  }

  lemma FactorNegative(d: int, q: int)
    requires d > 0 && d * q < 0
    ensures q < 0
  {
  }

  /** The nearest integer, and of two equally near the greater: `2n - d < 2dr <= 2n + d` for a positive divisor. */
  lemma RoundNearest(n: int, d: int)
    requires d != 0
    ensures d > 0 ==> 2 * n - d < 2 * (RoundDiv(n, d) * d) <= 2 * n + d
    ensures d < 0 ==> 2 * n + d <= 2 * (RoundDiv(n, d) * d) < 2 * n - d
  {
    var m, e := if d > 0 then n else -n, if d > 0 then d else -d;
    var r := RoundDiv(n, d);
    assert r == (2 * m + e) / (2 * e);
    assert 2 * m + e == (2 * e) * r + (2 * m + e) % (2 * e);
    assert (2 * e) * r == 2 * (r * e);
  }
}
