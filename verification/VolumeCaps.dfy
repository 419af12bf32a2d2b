/** How far the cap on self-reported volume goes: from ten positive-volume sources on, no
    such source can hold half of the weight; below ten, one can. */
module VolumeCaps {
  import opened Wrappers
  import opened Numbers
  import opened Sums
  import opened OrderStats
  import opened Aggregator
  import opened WeightedMedian

  function CappedAt(c: real): real -> real {
    (v: real) => Least(v, c)
  }

  ghost predicate SortedPositive(vs: seq<real>) {
    SortedBy(vs, Value) && forall i | 0 <= i < |vs| :: vs[i] > 0.0
  }

  /** The lower half weighs more than its last element. */
  lemma LowerHalfWeight(vs: seq<real>, c: real, h: nat)
    requires SortedPositive(vs) && 2 <= h < |vs| && c > 0.0 && vs[h - 1] <= c
    ensures Sum(vs[..h], CappedAt(c)) > vs[h - 1]
  {
    assert vs[..h][..h - 1] == vs[..h - 1];
    SumPositive(vs[..h - 1], CappedAt(c));
  }

  /** The upper half without its last element weighs at least its first, times its length. */
  lemma UpperHalfWeight(vs: seq<real>, c: real, h: nat, k: nat)
    requires SortedPositive(vs) && h + k + 1 == |vs| && vs[h] <= c
    ensures Sum(vs[h..|vs| - 1], CappedAt(c)) >= k as real * vs[h]
  {
    var upper := vs[h..|vs| - 1];
    forall i | 0 <= i < |upper| ensures CappedAt(c)(upper[i]) >= vs[h] {
      assert i > 0 ==> Value(vs[h]) <= Value(vs[h + i]);
    }
    SumAtLeast(upper, CappedAt(c), vs[h]);
  }

  /** Ten or more sorted positive volumes, capped at five times their median: the largest
      weighs less than the others together. */
  lemma LargestUnderHalf(vs: seq<real>, c: real)
    requires SortedPositive(vs) && |vs| >= 10
    requires c == 5.0 * Middle(vs)
    ensures 2.0 * Least(vs[|vs| - 1], c) < Sum(vs, CappedAt(c))
  {
    var h := |vs| / 2;
    if |vs| == 2 * h {
      LargestUnderHalfEven(vs, c, h);
    } else {
      LargestUnderHalfOdd(vs, c, h);
    }
  }

  lemma LargestUnderHalfEven(vs: seq<real>, c: real, h: nat)
    requires SortedPositive(vs) && |vs| == 2 * h && h >= 5
    requires c == 5.0 * ((vs[h - 1] + vs[h]) / 2.0)
    ensures 2.0 * Least(vs[|vs| - 1], c) < Sum(vs, CappedAt(c))
  {
    assert Value(vs[h - 1]) <= Value(vs[h]);
    LowerHalfWeight(vs, c, h);
    UpperHalfWeight(vs, c, h, h - 1);
    EvenBalance(vs[h - 1], vs[h], c, h - 1, Sum(vs[..h], CappedAt(c)), Sum(vs[h..|vs| - 1], CappedAt(c)));
    RestOutweighs(vs, c, h);
  }

  lemma LargestUnderHalfOdd(vs: seq<real>, c: real, h: nat)
    requires SortedPositive(vs) && |vs| == 2 * h + 1 && h >= 5
    requires c == 5.0 * vs[h]
    ensures 2.0 * Least(vs[|vs| - 1], c) < Sum(vs, CappedAt(c))
  {
    assert Value(vs[h - 1]) <= Value(vs[h]);
    LowerHalfWeight(vs, c, h);
    UpperHalfWeight(vs, c, h, h);
    OddBalance(vs[h], c, h, Sum(vs[..h], CappedAt(c)), Sum(vs[h..|vs| - 1], CappedAt(c)));
    RestOutweighs(vs, c, h);
  }

  lemma RestOutweighs(vs: seq<real>, c: real, h: nat)
    requires h < |vs| && Sum(vs[..h], CappedAt(c)) + Sum(vs[h..|vs| - 1], CappedAt(c)) > c
    ensures 2.0 * Least(vs[|vs| - 1], c) < Sum(vs, CappedAt(c))
  {
    SumThreeParts(vs, h, CappedAt(c));
  }

  lemma EvenBalance(a: real, b: real, c: real, k: nat, lower: real, upper: real)
    requires 0.0 < a <= b && c == 5.0 * ((a + b) / 2.0)
    requires k >= 4 && lower > a && upper >= k as real * b
    ensures lower + upper > c
  {
    assert (k - 4) as real * b >= 0.0;
  }

  lemma OddBalance(b: real, c: real, k: nat, lower: real, upper: real)
    requires 0.0 < b && c == 5.0 * b
    requires k >= 5 && lower > 0.0 && upper >= k as real * b
    ensures lower + upper > c
  {
    assert (k - 5) as real * b >= 0.0;
  }

  lemma SumThreeParts(vs: seq<real>, h: nat, f: real -> real)
    requires h < |vs|
    ensures Sum(vs, f) == Sum(vs[..h], f) + Sum(vs[h..|vs| - 1], f) + f(vs[|vs| - 1])
  {
    assert vs[..|vs| - 1] == vs[..h] + vs[h..|vs| - 1];
    SumConcat(vs[..h], vs[h..|vs| - 1], f);
  }

  // ----- from volumes to samples -----

  lemma {:induction false} SumRetained(points: seq<Point>, keep: Point -> bool, f: Point -> real)
    requires forall p | p in points :: f(p) >= 0.0
    ensures Sum(Retain(points, keep), f) <= Sum(points, f)
  {
    if points != [] {
      SumRetained(points[..|points| - 1], keep, f);
      var front := Retain(points[..|points| - 1], keep);
      assert (front + [points[|points| - 1]])[..|front|] == front;
    }
  }

  lemma {:induction false} SumOfVolumes(vol: seq<Point>, c: real)
    requires forall p | p in vol :: p.volume > 0.0
    ensures Sum(vol, WeightOf(Some(c))) == Sum(Keys(vol, VolumeOf), CappedAt(c))
  {
    if vol != [] {
      SumOfVolumes(vol[..|vol| - 1], c);
      assert Keys(vol, VolumeOf)[..|vol| - 1] == Keys(vol[..|vol| - 1], VolumeOf);
    }
  }

  lemma SortedVolumes(vol: seq<Point>)
    requires forall p | p in vol :: p.volume > 0.0
    ensures SortedPositive(Sort(Keys(vol, VolumeOf), Value))
  {
    var volumes := Keys(vol, VolumeOf);
    SortSorts(volumes, Value);
    forall i | 0 <= i < |volumes| ensures Sort(volumes, Value)[i] > 0.0 {
      assert Sort(volumes, Value)[i] in multiset(volumes);
      var j :| 0 <= j < |volumes| && volumes[j] == Sort(volumes, Value)[i];
      assert vol[j] in vol;
    }
  }

  lemma LargestVolume(vol: seq<Point>, x: Point)
    requires x in vol
    ensures x.volume <= Sort(Keys(vol, VolumeOf), Value)[|vol| - 1]
  {
    var volumes := Keys(vol, VolumeOf);
    SortSorts(volumes, Value);
    var j :| 0 <= j < |vol| && vol[j] == x;
    assert volumes[j] == x.volume && volumes[j] in multiset(volumes);
    LastIsLargest(Sort(volumes, Value), x.volume);
  }

  /** With ten or more positive-volume samples, none of them holds half of the weight. */
  lemma NoSourceHoldsHalf(points: seq<Point>, x: Point)
    requires UseVolume(points) && |Voluminous(points)| >= 10
    requires x in points && x.volume > 0.0
    ensures 2.0 * EffectiveWeight(points)(x) < Sum(points, EffectiveWeight(points))
  {
    WeightsArePositive(points);
    SumRetained(points, HasVolume, EffectiveWeight(points));
    VolumeUnderHalf(Voluminous(points), VolumeCap(points).value, x);
  }

  lemma VolumeUnderHalf(vol: seq<Point>, c: real, x: Point)
    requires |vol| >= 10 && x in vol && forall p | p in vol :: p.volume > 0.0
    requires c == 5.0 * MedianVolume(vol)
    ensures 2.0 * WeightOf(Some(c))(x) < Sum(vol, WeightOf(Some(c)))
  {
    TotalOfVolumes(vol, c);
    SortedVolumes(vol);
    LargestVolume(vol, x);
    LargestUnderHalf(Sort(Keys(vol, VolumeOf), Value), c);
  }

  lemma TotalOfVolumes(vol: seq<Point>, c: real)
    requires forall p | p in vol :: p.volume > 0.0
    ensures Sum(vol, WeightOf(Some(c))) == Sum(Sort(Keys(vol, VolumeOf), Value), CappedAt(c))
  {
    SumOfVolumes(vol, c);
    SortSorts(Keys(vol, VolumeOf), Value);
    SumPermutes(Keys(vol, VolumeOf), Sort(Keys(vol, VolumeOf), Value), CappedAt(c));
  }

  /** So one positive-volume source can never move the price out of the others' range. */
  lemma OneSourceCannotMove(points: seq<Point>, i: nat, lo: real, hi: real)
    requires UseVolume(points) && |Voluminous(points)| >= 10
    requires i < |points| && points[i].volume > 0.0
    requires forall j | 0 <= j < |points| && j != i :: lo <= points[j].price <= hi
    ensures lo <= WeightedMedianOf(points).value <= hi
  {
    var weight := EffectiveWeight(points);
    ResultIsWeightedMedian(points);
    WeightsArePositive(points);
    NoSourceHoldsHalf(points, points[i]);
    OthersWeight(points, i, weight, lo, hi);
    MinorityCannotMove(points, weight, WeightedMedianOf(points).value, lo, hi);
  }

  lemma OthersWeight(points: seq<Point>, i: nat, weight: Point -> real, lo: real, hi: real)
    requires i < |points| && Positive(points, weight)
    requires forall j | 0 <= j < |points| && j != i :: lo <= points[j].price <= hi
    ensures Sum(points, WeightWithin(weight, lo, hi)) >= Sum(points, weight) - weight(points[i])
  {
    var within := WeightWithin(weight, lo, hi);
    var rest := points[..i] + points[i + 1..];
    SumRemove(points, i, weight);
    SumRemove(points, i, within);
    forall p | p in rest ensures weight(p) <= within(p) {
      var j :| 0 <= j < |rest| && rest[j] == p;
      assert p == points[if j < i then j else j + 1];
    }
    SumMonotone(rest, weight, within);
    assert points[i] in points;
  }

  // ----- when one source decides -----

  function Others(points: seq<Point>, i: nat): seq<Point>
    requires i < |points|
  {
    points[..i] + points[i + 1..]
  }

  /** A price is the result exactly when it is the weighted median. */
  lemma ResultExactly(points: seq<Point>, m: real)
    requires points != []
    ensures WeightedMedianOf(points) == Some(m) <==> IsWeightedMedian(points, EffectiveWeight(points), m)
  {
    ResultIsWeightedMedian(points);
    WeightsArePositive(points);
    if IsWeightedMedian(points, EffectiveWeight(points), m) {
      WeightedMedianUnique(points, EffectiveWeight(points), m, WeightedMedianOf(points).value);
    }
  }

  lemma OthersArePoints(points: seq<Point>, i: nat)
    requires i < |points|
    ensures forall p | p in Others(points, i) :: exists j :: 0 <= j < |points| && j != i && points[j] == p
  {
    var rest := Others(points, i);
    forall p | p in rest ensures exists j :: 0 <= j < |points| && j != i && points[j] == p {
      var k :| 0 <= k < |rest| && rest[k] == p;
      assert points[if k < i then k else k + 1] == p;
    }
  }

  lemma SameSum<T>(s: seq<T>, f: T -> real, g: T -> real)
    requires forall x | x in s :: f(x) == g(x)
    ensures Sum(s, f) == Sum(s, g)
  {
    SumMonotone(s, f, g);
    SumMonotone(s, g, f);
  }

  /** The weight below and up to the price of a sample priced above all others. */
  lemma TopWeights(points: seq<Point>, weight: Point -> real, i: nat)
    requires i < |points| && forall j | 0 <= j < |points| && j != i :: points[j].price < points[i].price
    ensures Sum(points, WeightBelow(weight, points[i].price)) == Sum(Others(points, i), weight)
    ensures Sum(points, WeightUpTo(weight, points[i].price)) == Sum(points, weight)
    ensures Sum(points, weight) == Sum(Others(points, i), weight) + weight(points[i])
  {
    var m := points[i].price;
    OthersArePoints(points, i);
    SumRemove(points, i, weight);
    SumRemove(points, i, WeightBelow(weight, m));
    SameSum(Others(points, i), WeightBelow(weight, m), weight);
    SameSum(points, WeightUpTo(weight, m), weight);
  }

  /** A sample priced above all others sets the price exactly when it outweighs them together. */
  lemma TopSourceDecides(points: seq<Point>, i: nat)
    requires i < |points| && forall j | 0 <= j < |points| && j != i :: points[j].price < points[i].price
    ensures var weight := EffectiveWeight(points);
            WeightedMedianOf(points) == Some(points[i].price) <==> Sum(Others(points, i), weight) < weight(points[i])
  {
    var weight := EffectiveWeight(points);
    ResultExactly(points, points[i].price);
    TopWeights(points, weight, i);
    assert points[i] in points;
    WeightsArePositive(points);
    SumNonNegative(points, weight);
  }

  lemma BottomWeights(points: seq<Point>, weight: Point -> real, i: nat)
    requires i < |points| && forall j | 0 <= j < |points| && j != i :: points[i].price < points[j].price
    ensures Sum(points, WeightBelow(weight, points[i].price)) == 0.0
    ensures Sum(points, WeightUpTo(weight, points[i].price)) == weight(points[i])
    ensures Sum(points, weight) == Sum(Others(points, i), weight) + weight(points[i])
  {
    var m := points[i].price;
    OthersArePoints(points, i);
    SumZero(points, WeightBelow(weight, m));
    SumRemove(points, i, weight);
    SumRemove(points, i, WeightUpTo(weight, m));
    SumZero(Others(points, i), WeightUpTo(weight, m));
  }

  /** A sample priced below all others sets the price exactly when they do not outweigh it
      together: a tie goes to the lower price. */
  lemma BottomSourceDecides(points: seq<Point>, i: nat)
    requires i < |points| && forall j | 0 <= j < |points| && j != i :: points[i].price < points[j].price
    ensures var weight := EffectiveWeight(points);
            WeightedMedianOf(points) == Some(points[i].price) <==> Sum(Others(points, i), weight) <= weight(points[i])
  {
    var weight := EffectiveWeight(points);
    ResultExactly(points, points[i].price);
    BottomWeights(points, weight, i);
    assert points[i] in points;
    WeightsArePositive(points);
    SumPositive(points, weight);
  }

  /** A source without volume weighs 1 whatever the others trade, so it sets the price alone
      exactly when the others' capped volumes together stay below 1, or reach at most 1 when it
      is the cheapest. */
  lemma SourceWithoutVolumeDecides(points: seq<Point>, i: nat)
    requires i < |points| && points[i].volume <= 0.0
    ensures var rest := Sum(Others(points, i), EffectiveWeight(points));
            && ((forall j | 0 <= j < |points| && j != i :: points[j].price < points[i].price) ==>
                  (WeightedMedianOf(points) == Some(points[i].price) <==> rest < 1.0))
            && ((forall j | 0 <= j < |points| && j != i :: points[i].price < points[j].price) ==>
                  (WeightedMedianOf(points) == Some(points[i].price) <==> rest <= 1.0))
  {
    if forall j | 0 <= j < |points| && j != i :: points[j].price < points[i].price {
      TopSourceDecides(points, i);
    }
    if forall j | 0 <= j < |points| && j != i :: points[i].price < points[j].price {
      BottomSourceDecides(points, i);
    }
  }

  // ----- ten is the exact bound -----

  /** `n` volumes of which the last is the cap: the lower half 0.1, the rest 1. */
  ghost function Lopsided(n: nat): (vs: seq<real>)
    ensures |vs| == n
  {
    seq(n, i => LopsidedAt(n, i))
  }

  ghost function LopsidedAt(n: nat, i: int): real {
    if i == n - 1 then 5.0 else if i < (n - 1) / 2 then 0.1 else 1.0
  }

  /** The samples with those volumes, all priced 1 but the last, priced 2. */
  ghost function LopsidedPoints(n: nat): (points: seq<Point>)
    ensures |points| == n
  {
    seq(n, i => Point(if i == n - 1 then 2.0 else 1.0, LopsidedAt(n, i), "", 1))
  }

  lemma LopsidedWeight(n: nat, h: nat, c: real)
    requires n >= 2 && h == (n - 1) / 2
    ensures Sum(Lopsided(n), CappedAt(c)) <= h as real * 0.1 + (n - 1 - h) as real * 1.0 + 5.0
  {
    LayeredWeight(Lopsided(n), h, c);
  }

  lemma LayeredWeight(vs: seq<real>, h: nat, c: real)
    requires h < |vs| && vs[|vs| - 1] <= 5.0
    requires forall i | 0 <= i < h :: vs[i] <= 0.1
    requires forall i | h <= i < |vs| - 1 :: vs[i] <= 1.0
    ensures Sum(vs, CappedAt(c)) <= h as real * 0.1 + (|vs| - 1 - h) as real * 1.0 + 5.0
  {
    var low, middle := vs[..h], vs[h..|vs| - 1];
    SumThreeParts(vs, h, CappedAt(c));
    LayersAtMost(low, middle, vs[|vs| - 1], c);
  }

  lemma LayersAtMost(low: seq<real>, middle: seq<real>, last: real, c: real)
    requires (forall i | 0 <= i < |low| :: low[i] <= 0.1) && last <= 5.0
    requires forall i | 0 <= i < |middle| :: middle[i] <= 1.0
    ensures Sum(low, CappedAt(c)) + Sum(middle, CappedAt(c)) + CappedAt(c)(last)
            <= |low| as real * 0.1 + |middle| as real * 1.0 + 5.0
  {
    CappedAtMost(low, c, 0.1, |low|);
    CappedAtMost(middle, c, 1.0, |middle|);
    ThreeParts(Sum(low, CappedAt(c)), Sum(middle, CappedAt(c)), last, c, |low|, |middle|);
  }

  lemma ThreeParts(low: real, middle: real, last: real, c: real, h: nat, k: nat)
    requires low <= h as real * 0.1 && middle <= k as real * 1.0 && last <= 5.0
    ensures low + middle + CappedAt(c)(last) <= h as real * 0.1 + k as real * 1.0 + 5.0
  {
  }

  lemma CappedAtMost(vs: seq<real>, c: real, x: real, n: nat)
    requires |vs| == n && forall i | 0 <= i < n :: vs[i] <= x
    ensures Sum(vs, CappedAt(c)) <= n as real * x
  {
    SumAtMost(vs, CappedAt(c), x);
  }

  lemma LopsidedMiddle(n: nat)
    requires n >= 2
    ensures SortedPositive(Lopsided(n)) && Middle(Lopsided(n)) >= 1.0
  {
    assert n / 2 >= (n - 1) / 2;
    assert n % 2 == 0 ==> n / 2 - 1 == (n - 1) / 2;
  }

  lemma AllVoluminous(points: seq<Point>)
    requires forall i | 0 <= i < |points| :: points[i].volume > 0.0
    ensures Voluminous(points) == points
  {
    RetainAll(points, HasVolume);
  }

  lemma CapOfSorted(points: seq<Point>, vs: seq<real>)
    requires points != [] && |points| == |vs| && SortedPositive(vs)
    requires forall i | 0 <= i < |points| :: points[i].volume == vs[i]
    ensures Voluminous(points) == points && VolumeCap(points) == Some(5.0 * Middle(vs))
  {
    AllVoluminous(points);
    MedianOfSorted(points, vs);
    CapOfAll(points);
  }

  lemma CapOfAll(points: seq<Point>)
    requires points != [] && Voluminous(points) == points
    ensures VolumeCap(points) == Some(5.0 * MedianVolume(points))
  {
  }

  lemma MedianOfSorted(points: seq<Point>, vs: seq<real>)
    requires points != [] && |points| == |vs| && SortedPositive(vs)
    requires forall i | 0 <= i < |points| :: points[i].volume == vs[i]
    ensures MedianVolume(points) == Middle(vs)
  {
    assert Keys(points, VolumeOf) == vs;
    SortOfSorted(vs);
  }

  lemma WeightOfSorted(points: seq<Point>, vs: seq<real>, c: real)
    requires |points| == |vs| && forall i | 0 <= i < |points| :: points[i].volume == vs[i] > 0.0
    ensures Sum(points, WeightOf(Some(c))) == Sum(vs, CappedAt(c))
  {
    SumOfVolumes(points, c);
    assert Keys(points, VolumeOf) == vs;
  }

  /** The last of these samples outweighs the others. */
  lemma LopsidedIsHeavy(n: nat, c: real)
    requires 2 <= n <= 9 && c >= 5.0
    ensures Sum(LopsidedPoints(n), WeightOf(Some(c))) < 10.0 && WeightOf(Some(c))(LopsidedPoints(n)[n - 1]) == 5.0
  {
    LopsidedMiddle(n);
    WeightOfSorted(LopsidedPoints(n), Lopsided(n), c);
    LopsidedWeight(n, (n - 1) / 2, c);
  }

  /** For every number of positive-volume samples from two to nine there are samples of which
      one holds more than half of the weight and moves the price out of the others' range: the
      bound of `NoSourceHoldsHalf` and `OneSourceCannotMove` is exact. */
  lemma FewerThanTenCanBeMoved(n: nat)
    requires 2 <= n <= 9
    ensures var points := LopsidedPoints(n); var weight := EffectiveWeight(points);
            && UseVolume(points) && |Voluminous(points)| == n && points[n - 1].volume > 0.0
            && 2.0 * weight(points[n - 1]) > Sum(points, weight)
            && (forall j | 0 <= j < n - 1 :: points[j].price == 1.0)
            && WeightedMedianOf(points) == Some(2.0)
  {
    var c := LopsidedCap(n);
    LopsidedIsHeavy(n, c);
    HeavyTopDecides(LopsidedPoints(n), c, n - 1);
  }

  lemma LopsidedCap(n: nat) returns (c: real)
    requires n >= 2
    ensures VolumeCap(LopsidedPoints(n)) == Some(c) && c >= 5.0 && Voluminous(LopsidedPoints(n)) == LopsidedPoints(n)
  {
    LopsidedMiddle(n);
    CapOfSorted(LopsidedPoints(n), Lopsided(n));
    c := 5.0 * Middle(Lopsided(n));
  }

  lemma HeavyTopDecides(points: seq<Point>, c: real, i: nat)
    requires i < |points| && forall j | 0 <= j < |points| && j != i :: points[j].price < points[i].price
    requires VolumeCap(points) == Some(c) && 2.0 * WeightOf(Some(c))(points[i]) > Sum(points, WeightOf(Some(c)))
    ensures 2.0 * EffectiveWeight(points)(points[i]) > Sum(points, EffectiveWeight(points))
    ensures WeightedMedianOf(points) == Some(points[i].price)
  {
    TopWeights(points, EffectiveWeight(points), i);
    TopSourceDecides(points, i);
  }
}
