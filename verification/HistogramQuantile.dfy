/**
 The latency quantile read off a histogram's cumulative buckets, by linear
 interpolation. Counts and bounds are exact rationals.
 */
module HistogramQuantile {
  import opened Wrappers

  /** `le` None is the +Inf bucket. */
  datatype Bucket = Bucket(le: Option<real>, count: real)

  function Position(b: Bucket, target: real, prevLe: real, prevCount: real): real
    requires b.le.Some?
  {
    if b.count - prevCount <= 0.0 then b.le.value
    else prevLe + ((target - prevCount) / (b.count - prevCount)) * (b.le.value - prevLe)
  }

  function Walk(buckets: seq<Bucket>, target: real, prevLe: real, prevCount: real): real {
    if buckets == [] then prevLe
    else if buckets[0].count >= target then
      if buckets[0].le.None? then prevLe else Position(buckets[0], target, prevLe, prevCount)
    else Walk(buckets[1..], target, buckets[0].le.GetOr(prevLe), buckets[0].count)
  }

  function Quantile(buckets: seq<Bucket>, count: real, q: real): Option<real> {
    if count <= 0.0 then None else Some(Walk(buckets, q * count, 0.0, 0.0))
  }

  method ComputeQuantile(buckets: seq<Bucket>, count: real, q: real) returns (r: Option<real>)
    ensures r == Quantile(buckets, count, q)
  {
    if count <= 0.0 {
      return None;
    }
    var target, prevLe, prevCount := q * count, 0.0, 0.0;
    var i := 0;
    while i < |buckets|
      invariant 0 <= i <= |buckets|
      invariant Walk(buckets, target, 0.0, 0.0) == Walk(buckets[i..], target, prevLe, prevCount)
    {
      var b := buckets[i];
      if b.count >= target {
        if b.le.None? {
          return Some(prevLe);
        }
        return Some(Position(b, target, prevLe, prevCount));
      }
      assert buckets[i..][1..] == buckets[i + 1..];
      prevLe, prevCount := b.le.GetOr(prevLe), b.count;
      i := i + 1;
    }
    return Some(prevLe);
  }

  /** Bounds and cumulative counts rise; what follows the first +Inf bound is +Inf as well. */
  predicate Cumulative(buckets: seq<Bucket>, prevLe: real, prevCount: real) {
    buckets == [] ||
    (&& prevCount <= buckets[0].count
     && (buckets[0].le.Some? ==> prevLe <= buckets[0].le.value)
     && Cumulative(buckets[1..], buckets[0].le.GetOr(prevLe), buckets[0].count))
  }

  lemma PositionWithin(b: Bucket, target: real, prevLe: real, prevCount: real)
    requires b.le.Some? && prevLe <= b.le.value && prevCount <= target <= b.count
    ensures prevLe <= Position(b, target, prevLe, prevCount) <= b.le.value
  {
    if b.count > prevCount {
      var share, width := (target - prevCount) / (b.count - prevCount), b.le.value - prevLe;
      ShareOfOne(target - prevCount, b.count - prevCount);
      assert 0.0 <= share * width <= width;
    }
  }

  lemma ShareOfOne(part: real, whole: real)
    requires 0.0 <= part <= whole && whole > 0.0
    ensures 0.0 <= part / whole <= 1.0
  {
  }

  lemma ShareRises(a: real, b: real, whole: real)
    requires a <= b && whole > 0.0
    ensures a / whole <= b / whole
  {
  }

  lemma PositionRises(b: Bucket, low: real, high: real, prevLe: real, prevCount: real)
    requires b.le.Some? && prevLe <= b.le.value && low <= high
    ensures Position(b, low, prevLe, prevCount) <= Position(b, high, prevLe, prevCount)
  {
    if b.count > prevCount {
      var whole, width := b.count - prevCount, b.le.value - prevLe;
      ShareRises(low - prevCount, high - prevCount, whole);
      var x, y := (low - prevCount) / whole, (high - prevCount) / whole;
      assert (y - x) * width >= 0.0;
      assert x * width <= y * width;
    }
  }

  lemma {:induction false} WalkAtLeast(buckets: seq<Bucket>, target: real, prevLe: real, prevCount: real)
    requires Cumulative(buckets, prevLe, prevCount) && prevCount <= target
    ensures prevLe <= Walk(buckets, target, prevLe, prevCount)
  {
    if buckets != [] {
      if buckets[0].count >= target {
        if buckets[0].le.Some? { PositionWithin(buckets[0], target, prevLe, prevCount); }
      } else {
        WalkAtLeast(buckets[1..], target, buckets[0].le.GetOr(prevLe), buckets[0].count);
      }
    }
  }

  lemma {:induction false} WalkRises(buckets: seq<Bucket>, low: real, high: real, prevLe: real, prevCount: real)
    requires Cumulative(buckets, prevLe, prevCount) && prevCount <= low <= high
    ensures Walk(buckets, low, prevLe, prevCount) <= Walk(buckets, high, prevLe, prevCount)
  {
    if buckets != [] {
      var b := buckets[0];
      var le := b.le.GetOr(prevLe);
      if b.count < low {
        WalkRises(buckets[1..], low, high, le, b.count);
      } else if b.count < high {
        WalkAtLeast(buckets[1..], high, le, b.count);
        if b.le.Some? { PositionWithin(b, low, prevLe, prevCount); }
      } else if b.le.Some? {
        PositionRises(b, low, high, prevLe, prevCount);
      }
    }
  }

  /** A higher quantile is never a lower latency. */
  lemma QuantileRises(buckets: seq<Bucket>, count: real, low: real, high: real)
    requires Cumulative(buckets, 0.0, 0.0) && count > 0.0 && 0.0 <= low <= high
    ensures Quantile(buckets, count, low).value <= Quantile(buckets, count, high).value
  {
    assert 0.0 <= low * count <= high * count by { assert (high - low) * count >= 0.0; }
    WalkRises(buckets, low * count, high * count, 0.0, 0.0);
  }

  /**
   The answer lies in the bucket the rank falls in: at or above every bound whose count is below the rank, and
   no higher than the first bound that reaches it.
   */
  lemma {:induction false} QuantileBracketed(buckets: seq<Bucket>, target: real, prevLe: real, prevCount: real, k: nat)
    requires Cumulative(buckets, prevLe, prevCount) && prevCount <= target && k < |buckets| && buckets[k].le.Some?
    requires forall j :: 0 <= j <= k ==> buckets[j].le.Some?
    ensures buckets[k].count < target ==> buckets[k].le.value <= Walk(buckets, target, prevLe, prevCount)
    ensures buckets[k].count >= target ==> Walk(buckets, target, prevLe, prevCount) <= buckets[k].le.value
  {
    var b := buckets[0];
    if b.count >= target {
      PositionWithin(b, target, prevLe, prevCount);
      BoundsRise(buckets, prevLe, prevCount, k);
    } else if k == 0 {
      WalkAtLeast(buckets[1..], target, b.le.value, b.count);
    } else {
      QuantileBracketed(buckets[1..], target, b.le.value, b.count, k - 1);
    }
  }

  /** The bucket the rank falls in: the first whose count reaches it. */
  predicate Reaches(buckets: seq<Bucket>, target: real, k: nat) {
    k < |buckets| && target <= buckets[k].count && forall j :: 0 <= j < k ==> buckets[j].count < target
  }

  /** The greatest finite bound below bucket `k`, and the count below it. */
  function BoundBelow(buckets: seq<Bucket>, k: nat): real
    requires k <= |buckets|
  {
    if k == 0 then 0.0 else if buckets[k - 1].le.Some? then buckets[k - 1].le.value else BoundBelow(buckets, k - 1)
  }

  function CountBelow(buckets: seq<Bucket>, k: nat): real
    requires k <= |buckets|
  {
    if k == 0 then 0.0 else buckets[k - 1].count
  }

  lemma {:induction false} WalkReaches(buckets: seq<Bucket>, target: real, k: nat, i: nat)
    requires i <= k <= |buckets| && forall j :: 0 <= j < k ==> buckets[j].count < target
    ensures Walk(buckets[i..], target, BoundBelow(buckets, i), CountBelow(buckets, i)) ==
            Walk(buckets[k..], target, BoundBelow(buckets, k), CountBelow(buckets, k))
    decreases k - i
  {
    if i < k {
      assert buckets[i..][1..] == buckets[i + 1..];
      WalkReaches(buckets, target, k, i + 1);
    }
  }

  /**
   Linear interpolation: in a finite bucket that counts anything of its own, the answer is as far between its
   bounds as the rank is between its counts; in one that does not, its bound; in the last one, the bound below.
   */
  lemma QuantileInterpolates(buckets: seq<Bucket>, count: real, q: real, k: nat)
    requires count > 0.0 && Reaches(buckets, q * count, k)
    ensures var r := Quantile(buckets, count, q).value;
      var b, below, under := buckets[k], BoundBelow(buckets, k), CountBelow(buckets, k);
      && (b.le.None? ==> r == below)
      && (b.le.Some? && b.count <= under ==> r == b.le.value)
      && (b.le.Some? && b.count > under ==>
            (r - below) * (b.count - under) == (q * count - under) * (b.le.value - below))
  {
    hide Position, Walk, BoundBelow, CountBelow;
    WalkAt(buckets, q * count, k);
    if buckets[k].le.Some? {
      PositionBetween(buckets[k], q * count, BoundBelow(buckets, k), CountBelow(buckets, k));
    }
  }

  lemma WalkAt(buckets: seq<Bucket>, target: real, k: nat)
    requires Reaches(buckets, target, k)
    ensures var b, below := buckets[k], BoundBelow(buckets, k);
      Walk(buckets, target, 0.0, 0.0) ==
        if b.le.None? then below else Position(b, target, below, CountBelow(buckets, k))
  {
    hide Position;
    WalkReaches(buckets, target, k, 0);
    assert buckets[0..] == buckets;
  }

  lemma PositionBetween(b: Bucket, target: real, prevLe: real, prevCount: real)
    requires b.le.Some?
    ensures var r := Position(b, target, prevLe, prevCount);
      && (b.count <= prevCount ==> r == b.le.value)
      && (b.count > prevCount ==> (r - prevLe) * (b.count - prevCount) == (target - prevCount) * (b.le.value - prevLe))
  {
    if b.count > prevCount {
      Proportion(target - prevCount, b.count - prevCount, b.le.value - prevLe);
    }
  }

  /** Past every count, the answer is the greatest finite bound. */
  lemma QuantilePastAll(buckets: seq<Bucket>, count: real, q: real)
    requires count > 0.0 && forall j :: 0 <= j < |buckets| ==> buckets[j].count < q * count
    ensures Quantile(buckets, count, q) == Some(BoundBelow(buckets, |buckets|))
  {
    WalkReaches(buckets, q * count, |buckets|, 0);
    assert buckets[0..] == buckets;
  }

  lemma Proportion(part: real, whole: real, width: real)
    requires whole > 0.0
    ensures ((part / whole) * width) * whole == part * width
  {
    assert (part / whole) * whole == part;
  }

  lemma {:induction false} BoundsRise(buckets: seq<Bucket>, prevLe: real, prevCount: real, k: nat)
    requires Cumulative(buckets, prevLe, prevCount) && k < |buckets|
    requires forall j :: 0 <= j <= k ==> buckets[j].le.Some?
    ensures buckets[0].le.value <= buckets[k].le.value && buckets[0].count <= buckets[k].count
  {
    if k > 0 {
      BoundsRise(buckets[1..], buckets[0].le.value, buckets[0].count, k - 1);
    }
  }
}
