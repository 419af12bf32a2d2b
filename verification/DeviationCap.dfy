/** What the per-asset deviation threshold does. It is a second limit beside the one on median
    deviations: it drops samples the other would keep, and keeps none the other drops. */
module DeviationCap {
  import opened Wrappers
  import opened OrderStats
  import opened Sums
  import opened Aggregator

  lemma {:induction false} RetainTwice<T>(s: seq<T>, p: T -> bool, q: T -> bool, both: T -> bool)
    requires forall x | x in s :: both(x) <==> p(x) && q(x)
    ensures Retain(Retain(s, p), q) == Retain(s, both)
  {
    if s != [] {
      var front, last := s[..|s| - 1], s[|s| - 1];
      RetainTwice(front, p, q, both);
      assert last in s;
      if p(last) {
        assert (Retain(front, p) + [last])[..|Retain(front, p)|] == Retain(front, p);
      }
    }
  }

  lemma WithinBoth(points: seq<Point>, m: real, a: Option<real>, cap: real)
    ensures Within(points, m, Smaller(a, Some(cap))) == Retain(Within(points, m, a), NearPrice(m, cap))
  {
    if a.Some? {
      RetainTwice(points, NearPrice(m, a.value), NearPrice(m, cap), NearPrice(m, Smaller(a, Some(cap)).value));
    }
  }

  /** The sample is within the band the threshold sets. */
  function InCap(points: seq<Point>, capBps: nat): Point -> bool
    requires points != [] && capBps != 0
  {
    NearPrice(MedianPrice(points), CapLimit(capBps, MedianPrice(points)).value)
  }

  /** With a threshold the survivors are those without one that are also in its band. */
  lemma CapIsASecondFilter(points: seq<Point>, sigma: real, capBps: nat)
    requires |points| >= 3 && capBps != 0
    ensures WithoutOutliers(points, sigma, capBps) ==
            Retain(WithoutOutliers(points, sigma, 0), InCap(points, capBps))
  {
    var m, mad := MedianPrice(points), MadLimit(sigma, Mad(points));
    assert Smaller(mad, CapLimit(0, m)) == mad;
    WithinBoth(points, m, mad, CapLimit(capBps, m).value);
  }

  lemma {:induction false} RetainIsAllExactly<T>(s: seq<T>, keep: T -> bool)
    ensures Retain(s, keep) == s <==> forall x | x in s :: keep(x)
  {
    if forall x | x in s :: keep(x) {
      RetainAll(s, keep);
    }
  }

  /** It drops nothing extra exactly when every sample that survives without it is in its band. */
  lemma CapDropsNothingExactly(points: seq<Point>, sigma: real, capBps: nat)
    requires |points| >= 3 && capBps != 0
    ensures WithoutOutliers(points, sigma, capBps) == WithoutOutliers(points, sigma, 0) <==>
            forall p | p in WithoutOutliers(points, sigma, 0) :: InCap(points, capBps)(p)
  {
    CapIsASecondFilter(points, sigma, capBps);
    RetainIsAllExactly(WithoutOutliers(points, sigma, 0), InCap(points, capBps));
  }

  /** The samples in its band all survive exactly when each is within the median-deviation limit. */
  lemma BandIsKeptExactly(points: seq<Point>, sigma: real, capBps: nat)
    requires |points| >= 3 && capBps != 0
    ensures (forall p | p in points && InCap(points, capBps)(p) :: p in WithoutOutliers(points, sigma, capBps)) <==>
            (forall p | p in points && InCap(points, capBps)(p) ::
               AtMost(Distance(p.price, MedianPrice(points)), MadLimit(sigma, Mad(points))))
  {
    CapIsASecondFilter(points, sigma, capBps);
    forall p | p in points && InCap(points, capBps)(p)
      ensures p in WithoutOutliers(points, sigma, capBps) <==>
              AtMost(Distance(p.price, MedianPrice(points)), MadLimit(sigma, Mad(points)))
    {
      SurvivesExactly(points, MedianPrice(points), MadLimit(sigma, Mad(points)), p);
    }
  }

  lemma SurvivesExactly(points: seq<Point>, m: real, limit: Option<real>, p: Point)
    requires p in points
    ensures p in Within(points, m, limit) <==> AtMost(Distance(p.price, m), limit)
  {
  }

  // ----- an input against each half of the description -----

  /** The samples have these prices. */
  ghost predicate Priced(points: seq<Point>, prices: seq<real>) {
    |points| == |prices| && forall i | 0 <= i < |points| :: points[i].price == prices[i]
  }

  lemma SortedMedians(points: seq<Point>, prices: seq<real>, devs: seq<real>, m: real)
    requires prices != [] && Priced(points, prices) && SortedBy(prices, Value) && m == Middle(prices)
    requires AreDistances(devs, prices, m) && SortedBy(devs, Value)
    ensures MedianPrice(points) == m && Mad(points) == Middle(devs)
  {
    assert Keys(points, PriceOf) == prices;
    SortOfSorted(prices);
    assert Deviations(prices, m) == devs;
    SortOfSorted(devs);
  }

  lemma DroppedByDeviation(points: seq<Point>, sigma: real, capBps: nat, p: Point)
    requires |points| >= 3 && !AtMost(Distance(p.price, MedianPrice(points)), MadLimit(sigma, Mad(points)))
    ensures p !in WithoutOutliers(points, sigma, capBps)
  {
    if p in WithoutOutliers(points, sigma, capBps) {
      SurvivorsAreNear(points, sigma, capBps, p);
    }
  }

  lemma DroppedByCap(points: seq<Point>, sigma: real, capBps: nat, p: Point)
    requires |points| >= 3 && capBps != 0 && !InCap(points, capBps)(p)
    ensures p !in WithoutOutliers(points, sigma, capBps)
  {
    if p in WithoutOutliers(points, sigma, capBps) {
      SurvivorsAreNear(points, sigma, capBps, p);
    }
  }

  lemma AgreeingMedian(points: seq<Point>)
    requires Priced(points, [100.0, 100.0, 100.0, 102.0])
    ensures MedianPrice(points) == 100.0 && Mad(points) == 0.0
  {
    var prices, devs := [100.0, 100.0, 100.0, 102.0], [0.0, 0.0, 0.0, 2.0];
    SortedMedians(points, prices, devs, 100.0);
  }

  /** Prices 100, 100, 100 and 102 with a threshold of 100 basis points: without it all survive,
      with it 102 is dropped. */
  lemma ThresholdDropsExtra(points: seq<Point>)
    requires Priced(points, [100.0, 100.0, 100.0, 102.0])
    ensures WithoutOutliers(points, 3.0, 0) == points
    ensures points[3] !in WithoutOutliers(points, 3.0, 100)
  {
    AgreeingMedian(points);
    DroppedByCap(points, 3.0, 100, points[3]);
  }

  lemma SpreadMedian(points: seq<Point>)
    requires Priced(points, [101.0, 101.0, 102.0, 110.0])
    ensures MedianPrice(points) == 101.5 && Mad(points) == 0.5
  {
    var prices, devs := [101.0, 101.0, 102.0, 110.0], [0.5, 0.5, 0.5, 8.5];
    SortedMedians(points, prices, devs, 101.5);
  }

  /** Prices 101, 101, 102 and 110 with a threshold of 1000 basis points: 110 is in the band and
      dropped all the same. */
  lemma ThresholdKeepsNoOutlier(points: seq<Point>)
    requires Priced(points, [101.0, 101.0, 102.0, 110.0])
    ensures InCap(points, 1000)(points[3])
    ensures points[3] !in WithoutOutliers(points, 3.0, 1000)
  {
    SpreadMedian(points);
    DroppedByDeviation(points, 3.0, 1000, points[3]);
  }
}
