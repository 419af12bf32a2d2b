/** The volume-weighted median, its cap on self-reported volume, and what a source can
    and cannot do to it. */
module WeightedMedian {
  import opened Wrappers
  import opened Numbers
  import opened Sums
  import opened OrderStats
  import opened Aggregator

  datatype Mode = VolumeWeighted | EqualFallback

  /** Process-wide counters exposed on `health`. */
  class Metrics {
    var equalWeightFallbacks: nat
    var usdtRateAssumed: nat

    constructor ()
      ensures equalWeightFallbacks == 0 && usdtRateAssumed == 0
    {
      equalWeightFallbacks, usdtRateAssumed := 0, 0;
    }
  }

  function HasVolume(p: Point): bool { p.volume > 0.0 }

  function Voluminous(points: seq<Point>): seq<Point> {
    Retain(points, HasVolume)
  }

  /** Volumes count only when more than half of the sources report one. */
  predicate UseVolume(points: seq<Point>) {
    2 * |Voluminous(points)| > |points|
  }

  /** The most weight one source may have: five times the median positive volume. */
  function VolumeCap(points: seq<Point>): Option<real> {
    CapFor(|points|, Voluminous(points))
  }

  function CapFor(sources: nat, vol: seq<Point>): Option<real> {
    if 2 * |vol| > sources then Some(5.0 * MedianVolume(vol)) else None
  }

  function MedianVolume(vol: seq<Point>): real
    requires vol != []
  {
    Median(Keys(vol, VolumeOf))
  }

  /** In volume mode a source without volume still weighs 1. */
  function WeightOf(cap: Option<real>): Point -> real {
    (p: Point) => if cap.Some? && p.volume > 0.0 then Least(p.volume, cap.value) else 1.0
  }

  /** The price of the first sample from `i` on whose running weight reaches `half`. */
  function Scan(s: seq<Point>, weight: Point -> real, half: real, i: nat, running: real): real
    requires s != [] && i <= |s|
    decreases |s| - i
  {
    if i == |s| then s[|s| - 1].price
    else if running + weight(s[i]) >= half then s[i].price
    else Scan(s, weight, half, i + 1, running + weight(s[i]))
  }

  function ModeOf(points: seq<Point>): Mode {
    if |points| == 1 || UseVolume(points) then VolumeWeighted else EqualFallback
  }

  function WeightedMedianOf(points: seq<Point>): Option<real> {
    if points == [] then None
    else if |points| == 1 then Some(points[0].price)
    else
      Some(ScanSorted(Sort(points, PriceOf), WeightOf(VolumeCap(points))))
  }

  /** The first price at which the running weight reaches half of the total. */
  function ScanSorted(s: seq<Point>, weight: Point -> real): real
    requires s != []
  {
    Scan(s, weight, Sum(s, weight) / 2.0, 0, 0.0)
  }

  method ComputeWeightedMedian(points: seq<Point>, metrics: Metrics) returns (r: Option<real>, mode: Mode)
    modifies metrics
    ensures r == WeightedMedianOf(points)
    ensures points != [] ==> mode == ModeOf(points)
    ensures metrics.usdtRateAssumed == old(metrics.usdtRateAssumed)
    ensures metrics.equalWeightFallbacks == old(metrics.equalWeightFallbacks)
            + if points != [] && ModeOf(points) == EqualFallback then 1 else 0
  {
    mode := VolumeWeighted;
    if points == [] {
      return None, mode;
    }
    if |points| == 1 {
      return Some(points[0].price), mode;
    }
    if !UseVolume(points) {
      metrics.equalWeightFallbacks := metrics.equalWeightFallbacks + 1;
      mode := EqualFallback;
    }
    var price := MedianByWeight(Sort(points, PriceOf), WeightOf(VolumeCap(points)));
    r := Some(price);
  }

  method MedianByWeight(s: seq<Point>, weight: Point -> real) returns (price: real)
    requires s != []
    ensures price == ScanSorted(s, weight)
  {
    price := FirstToReach(s, weight, Sum(s, weight) / 2.0);
  }

  method FirstToReach(s: seq<Point>, weight: Point -> real, half: real) returns (price: real)
    requires s != []
    ensures price == Scan(s, weight, half, 0, 0.0)
  {
    var cumulative := 0.0;
    for i := 0 to |s|
      invariant Scan(s, weight, half, i, cumulative) == Scan(s, weight, half, 0, 0.0)
    {
      cumulative := cumulative + weight(s[i]);
      if cumulative >= half {
        return s[i].price;
      }
    }
    price := s[|s| - 1].price;
  }

  // ----- what the result is -----

  function WeightBelow(weight: Point -> real, price: real): Point -> real {
    (p: Point) => if p.price < price then weight(p) else 0.0
  }

  function WeightUpTo(weight: Point -> real, price: real): Point -> real {
    (p: Point) => if p.price <= price then weight(p) else 0.0
  }

  ghost predicate Positive(points: seq<Point>, weight: Point -> real) {
    forall p | p in points :: weight(p) > 0.0
  }

  /** Less than half of the weight is strictly below `m`, at least half is at or below it. */
  ghost predicate IsWeightedMedian(points: seq<Point>, weight: Point -> real, m: real) {
    && (exists p :: p in points && p.price == m)
    && 2.0 * Sum(points, WeightBelow(weight, m)) < Sum(points, weight)
    && 2.0 * Sum(points, WeightUpTo(weight, m)) >= Sum(points, weight)
  }

  /** The weight the median is taken under; a single sample decides alone. */
  function EffectiveWeight(points: seq<Point>): Point -> real {
    WeightOf(VolumeCap(points))
  }

  lemma {:induction false} SumZero<T>(s: seq<T>, f: T -> real)
    requires forall x | x in s :: f(x) == 0.0
    ensures Sum(s, f) == 0.0
  {
    if s != [] {
      SumZero(s[..|s| - 1], f);
    }
  }

  lemma PricesAround(s: seq<Point>, i: nat)
    requires SortedBy(s, PriceOf) && i < |s|
    ensures forall p | p in s[i..] :: p.price >= s[i].price
    ensures forall p | p in s[..i + 1] :: p.price <= s[i].price
  {
    forall p | p in s[i..] ensures p.price >= s[i].price {
      var j :| i <= j < |s| && s[j] == p;
      assert i < j ==> PriceOf(s[i]) <= PriceOf(s[j]);
    }
    forall p | p in s[..i + 1] ensures p.price <= s[i].price {
      var j :| 0 <= j <= i && s[j] == p;
      assert j < i ==> PriceOf(s[j]) <= PriceOf(s[i]);
    }
  }

  lemma WeightBelowSample(s: seq<Point>, weight: Point -> real, i: nat)
    requires SortedBy(s, PriceOf) && i < |s| && Positive(s, weight)
    ensures Sum(s, WeightBelow(weight, s[i].price)) <= Sum(s[..i], weight)
  {
    var f := WeightBelow(weight, s[i].price);
    assert s == s[..i] + s[i..];
    SumConcat(s[..i], s[i..], f);
    PricesAround(s, i);
    SumZero(s[i..], f);
    SumMonotone(s[..i], f, weight);
  }

  lemma WeightUpToSample(s: seq<Point>, weight: Point -> real, i: nat)
    requires SortedBy(s, PriceOf) && i < |s| && Positive(s, weight)
    ensures Sum(s, WeightUpTo(weight, s[i].price)) >= Sum(s[..i + 1], weight)
  {
    var f := WeightUpTo(weight, s[i].price);
    PricesAround(s, i);
    SumMonotone(s[..i + 1], weight, f);
    SumOfPart(s, i + 1, f);
  }

  lemma SumOfPart(s: seq<Point>, n: nat, f: Point -> real)
    requires n <= |s| && forall p | p in s :: f(p) >= 0.0
    ensures Sum(s, f) >= Sum(s[..n], f)
  {
    assert s == s[..n] + s[n..];
    SumConcat(s[..n], s[n..], f);
    SumNonNegative(s[n..], f);
  }

  /** Sample `i` of the sorted samples is the weighted median when the weight before it is
      under half and the weight through it is not. */
  lemma CrossingIsMedian(s: seq<Point>, weight: Point -> real, i: nat)
    requires SortedBy(s, PriceOf) && i < |s| && Positive(s, weight)
    requires 2.0 * Sum(s[..i], weight) < Sum(s, weight) <= 2.0 * Sum(s[..i + 1], weight)
    ensures IsWeightedMedian(s, weight, s[i].price)
  {
    WeightBelowSample(s, weight, i);
    WeightUpToSample(s, weight, i);
    assert s[i] in s;
  }

  lemma {:induction false} ScanFindsMedian(s: seq<Point>, weight: Point -> real, half: real, i: nat, running: real)
    requires s != [] && i <= |s| && SortedBy(s, PriceOf) && Positive(s, weight)
    requires half == Sum(s, weight) / 2.0
    requires running == Sum(s[..i], weight) && running < half
    ensures IsWeightedMedian(s, weight, Scan(s, weight, half, i, running))
    decreases |s| - i
  {
    if i == |s| {
      assert s[..|s|] == s;
      SumNonNegative(s, weight);
      assert false;
    }
    SumPrefix(s, i, weight);
    if running + weight(s[i]) >= half {
      CrossingIsMedian(s, weight, i);
    } else {
      ScanFindsMedian(s, weight, half, i + 1, running + weight(s[i]));
    }
  }

  lemma {:induction false} SumPositive<T>(s: seq<T>, f: T -> real)
    requires s != [] && forall x | x in s :: f(x) > 0.0
    ensures Sum(s, f) > 0.0
  {
    SumNonNegative(s[..|s| - 1], f);
  }

  /** Weights are positive: the cap is five times a median of positive volumes. */
  lemma WeightsArePositive(points: seq<Point>)
    ensures Positive(points, EffectiveWeight(points))
  {
    if UseVolume(points) {
      CapIsPositive(Voluminous(points));
    }
  }

  lemma CapIsPositive(vol: seq<Point>)
    requires vol != [] && forall p | p in vol :: p.volume > 0.0
    ensures MedianVolume(vol) > 0.0
  {
    var volumes := Keys(vol, VolumeOf);
    forall x | x in volumes ensures x > 0.0 {
      var j :| 0 <= j < |volumes| && volumes[j] == x;
      assert vol[j] in vol;
    }
    MedianIsPositive(volumes);
  }

  lemma MedianIsPositive(values: seq<real>)
    requires values != [] && forall x | x in values :: x > 0.0
    ensures Median(values) > 0.0
  {
    var s := Sort(values, Value);
    SortSorts(values, Value);
    forall i | 0 <= i < |s| ensures s[i] > 0.0 {
      assert s[i] in multiset(s);
      assert s[i] in values;
    }
  }

  /** The result is the weighted median of the samples as given, sorted or not. */
  lemma ResultIsWeightedMedian(points: seq<Point>)
    requires points != []
    ensures WeightedMedianOf(points).Some?
    ensures IsWeightedMedian(points, EffectiveWeight(points), WeightedMedianOf(points).value)
  {
    var weight := EffectiveWeight(points);
    WeightsArePositive(points);
    SortSorts(points, PriceOf);
    var s := Sort(points, PriceOf);
    PositivePermutes(points, s, weight);
    if |points| == 1 {
      assert points[..0] == [];
      SumPositive(points, weight);
      assert points[..1] == points;
      CrossingIsMedian(points, weight, 0);
    } else {
      SumPositive(s, weight);
      ScanFindsMedian(s, weight, Sum(s, weight) / 2.0, 0, 0.0);
      MedianPermutesTo(s, points, weight, WeightedMedianOf(points).value);
    }
  }

  lemma PositivePermutes(s: seq<Point>, t: seq<Point>, weight: Point -> real)
    requires multiset(s) == multiset(t) && Positive(s, weight)
    ensures Positive(t, weight)
  {
    forall p | p in t ensures weight(p) > 0.0 {
      assert p in multiset(s);
    }
  }

  lemma MedianPermutesTo(s: seq<Point>, t: seq<Point>, weight: Point -> real, m: real)
    requires multiset(s) == multiset(t) && IsWeightedMedian(s, weight, m)
    ensures IsWeightedMedian(t, weight, m)
  {
    SumPermutes(s, t, weight);
    SumPermutes(s, t, WeightBelow(weight, m));
    SumPermutes(s, t, WeightUpTo(weight, m));
    var p :| p in s && p.price == m;
    assert p in multiset(t);
  }

  /** Only one price can be the weighted median. */
  lemma WeightedMedianUnique(points: seq<Point>, weight: Point -> real, a: real, b: real)
    requires Positive(points, weight)
    requires IsWeightedMedian(points, weight, a) && IsWeightedMedian(points, weight, b)
    ensures a == b
  {
    if a < b {
      SumMonotone(points, WeightUpTo(weight, a), WeightBelow(weight, b));
    } else if b < a {
      SumMonotone(points, WeightUpTo(weight, b), WeightBelow(weight, a));
    }
  }

  /** The order in which the samples arrive does not matter. */
  lemma WeightedMedianOrderIndependent(points: seq<Point>, other: seq<Point>)
    requires multiset(points) == multiset(other)
    ensures WeightedMedianOf(points) == WeightedMedianOf(other)
  {
    assert |multiset(points)| == |points| && |multiset(other)| == |other|;
    if points != [] {
      CapOrderIndependent(points, other);
      var weight := EffectiveWeight(points);
      ResultIsWeightedMedian(points);
      ResultIsWeightedMedian(other);
      MedianPermutesTo(points, other, weight, WeightedMedianOf(points).value);
      WeightsArePositive(other);
      WeightedMedianUnique(other, weight, WeightedMedianOf(points).value, WeightedMedianOf(other).value);
    }
  }

  lemma CapOrderIndependent(points: seq<Point>, other: seq<Point>)
    requires multiset(points) == multiset(other)
    ensures VolumeCap(points) == VolumeCap(other)
  {
    SameLength(points, other);
    RetainPermutes(points, other, HasVolume);
    CapForPermutes(|points|, Voluminous(points), Voluminous(other));
  }

  lemma CapForPermutes(sources: nat, v: seq<Point>, w: seq<Point>)
    requires multiset(v) == multiset(w)
    ensures CapFor(sources, v) == CapFor(sources, w)
  {
    SameLength(v, w);
    if v != [] {
      MedianVolumePermutes(v, w);
    }
  }

  lemma MedianVolumePermutes(v: seq<Point>, w: seq<Point>)
    requires v != [] && w != [] && multiset(v) == multiset(w)
    ensures MedianVolume(v) == MedianVolume(w)
  {
    KeysPermute(v, w, VolumeOf);
    MedianPermutes(Keys(v, VolumeOf), Keys(w, VolumeOf));
  }

  // ----- resistance -----

  function WeightWithin(weight: Point -> real, lo: real, hi: real): Point -> real {
    (p: Point) => if lo <= p.price <= hi then weight(p) else 0.0
  }

  /** Samples holding less than half of the weight cannot pull the median out of the
      price range of the rest. */
  lemma MinorityCannotMove(points: seq<Point>, weight: Point -> real, m: real, lo: real, hi: real)
    requires Positive(points, weight) && IsWeightedMedian(points, weight, m)
    requires 2.0 * Sum(points, WeightWithin(weight, lo, hi)) > Sum(points, weight)
    ensures lo <= m <= hi
  {
    if m < lo {
      SumSplit(points, weight, WeightWithin(weight, lo, hi), WeightUpTo(weight, m));
    } else if m > hi {
      SumMonotone(points, WeightWithin(weight, lo, hi), WeightBelow(weight, m));
    }
  }

  lemma {:induction false} SumSplit(points: seq<Point>, whole: Point -> real, f: Point -> real, g: Point -> real)
    requires forall p | p in points :: f(p) + g(p) <= whole(p)
    ensures Sum(points, f) + Sum(points, g) <= Sum(points, whole)
  {
    if points != [] {
      SumSplit(points[..|points| - 1], whole, f, g);
    }
  }
}
