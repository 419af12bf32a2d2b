/** Aggregation of the samples fetched for one asset: sanitising, clock-outlier and
    price-outlier rejection, the weighted median and the fixed-point encoding.
    Prices and volumes are exact; only `Sanitize` and `ToFixedPoint` see the
    non-finite floats. */
module Aggregator {
  import opened Wrappers
  import opened Numbers
  import opened Sums
  import opened OrderStats

  datatype F64 = NaN | PosInf | NegInf | Finite(r: real)

  /** A sample as fetched. */
  datatype Sample = Sample(price: F64, volume: F64, source: string, serverTime: nat)

  /** A sample that passed `Sanitize`. */
  datatype Point = Point(price: real, volume: real, source: string, serverTime: nat)

  function PriceOf(p: Point): real { p.price }

  function VolumeOf(p: Point): real { p.volume }

  function TimeOf(p: Point): real { p.serverTime as real }

  // ----- sanitising -----

  predicate Usable(s: Sample) {
    s.price.Finite? && s.price.r > 0.0 && s.serverTime > 0
  }

  function Cleaned(s: Sample): Point
    requires Usable(s)
  {
    var volume := if !s.volume.Finite? || s.volume.r < 0.0 then 0.0 else s.volume.r;
    Point(s.price.r, volume, s.source, s.serverTime)
  }

  ghost predicate Clean(points: seq<Point>) {
    forall p | p in points :: p.price > 0.0 && p.volume >= 0.0 && p.serverTime > 0
  }

  function Sanitize(samples: seq<Sample>): (points: seq<Point>)
    ensures Clean(points)
    ensures |points| <= |samples|
    ensures forall s | s in samples && Usable(s) :: Cleaned(s) in points
    ensures forall p | p in points :: exists s :: s in samples && Usable(s) && Cleaned(s) == p
  {
    if samples == [] then []
    else
      var front := Sanitize(samples[..|samples| - 1]);
      var last := samples[|samples| - 1];
      if Usable(last) then front + [Cleaned(last)] else front
  }

  // ----- clocks -----

  const MAX_TIME_DRIFT_SECS: int := 300

  /** Median of the server times; the mean of the two middle ones is taken in `u64`. */
  function MedianServerTime(points: seq<Point>): Option<nat> {
    if points == [] then None
    else
      var s, n := Sort(points, TimeOf), |points|;
      if n % 2 == 0 then Some((s[n / 2 - 1].serverTime + s[n / 2].serverTime) % U64_END / 2)
      else Some(s[n / 2].serverTime)
  }

  function NearTime(median: nat): Point -> bool {
    (p: Point) => -MAX_TIME_DRIFT_SECS <= p.serverTime - median <= MAX_TIME_DRIFT_SECS
  }

  function WithoutTimeOutliers(points: seq<Point>): seq<Point> {
    match MedianServerTime(points)
    case None => points
    case Some(median) => Retain(points, NearTime(median))
  }

  /** With a strict majority of clocks in a window below 2^63, the median is in it. */
  lemma MedianTimeWithin(points: seq<Point>, lo: nat, hi: nat)
    requires MajorityWithin(points, TimeOf, lo as real, hi as real)
    requires 2 * hi < U64_END
    ensures MedianServerTime(points).Some? && lo <= MedianServerTime(points).value <= hi
  {
    MiddlesWithin(points, TimeOf, lo as real, hi as real);
    var s, n := Sort(points, TimeOf), |points|;
    var a, b := s[(n - 1) / 2].serverTime, s[n / 2].serverTime;
    assert lo <= a <= hi && lo <= b <= hi;
    assert n % 2 == 0 ==> (n - 1) / 2 == n / 2 - 1;
    assert (a + b) % U64_END == a + b;
  }

  /** A majority of clocks in a window of at most 300 s keeps every one of its samples,
      and the clock that is signed lies in the window, through both medians. */
  lemma ClockMajorityDecides(points: seq<Point>, lo: nat, hi: nat)
    requires MajorityWithin(points, TimeOf, lo as real, hi as real)
    requires hi - lo <= MAX_TIME_DRIFT_SECS
    requires 2 * hi < U64_END
    ensures forall p | p in points && lo <= p.serverTime <= hi :: p in WithoutTimeOutliers(points)
    ensures MedianServerTime(WithoutTimeOutliers(points)).Some?
    ensures lo <= MedianServerTime(WithoutTimeOutliers(points)).value <= hi
  {
    MedianTimeWithin(points, lo, hi);
    var m := MedianServerTime(points).value;
    RetainKeepsMajority(points, NearTime(m), TimeOf, lo as real, hi as real);
    MedianTimeWithin(Retain(points, NearTime(m)), lo, hi);
  }

  /** The bound on the window is exact: for every later time `far` the `u64` mean wraps when three
      clocks out of four agree on `far`, and none of their samples survives. */
  lemma ClockMeanWraps(points: seq<Point>, far: nat)
    requires U64_END <= 2 * far && far < U64_END
    requires |points| == 4 && forall i | 1 <= i < 4 :: points[i].serverTime == far
    ensures MajorityWithin(points, TimeOf, far as real, far as real)
    ensures MedianServerTime(points) == Some(far - 0x8000_0000_0000_0000)
    ensures forall p | p in WithoutTimeOutliers(points) :: p.serverTime != far
  {
    CountBeyondFirst(points, far as real);
    MiddlesWithin(points, TimeOf, far as real, far as real);
    var s := Sort(points, TimeOf);
    assert s[1].serverTime == far && s[2].serverTime == far;
  }

  lemma CountBeyondFirst(points: seq<Point>, t: real)
    requires |points| == 4
    requires forall i | 1 <= i < 4 :: TimeOf(points[i]) == t
    ensures CountWithin(points, TimeOf, t, t) >= 3
  {
    var a, b, c := points[..3], points[..2], points[..1];
    assert a[..2] == b && b[..1] == c;
    assert CountWithin(b, TimeOf, t, t) >= 1;
    assert CountWithin(a, TimeOf, t, t) >= 2;
  }

  /** Samples with a 64-bit clock, a strict majority of them in the window. */
  ghost predicate AgreeOn(points: seq<Point>, lo: nat, hi: nat) {
    (forall p | p in points :: p.serverTime < U64_END) && MajorityWithin(points, TimeOf, lo as real, hi as real)
  }

  /** The clock that is signed exists and lies in the window. */
  ghost predicate ClockIn(points: seq<Point>, lo: nat, hi: nat) {
    var clock := MedianServerTime(WithoutTimeOutliers(points));
    clock.Some? && lo <= clock.value <= hi
  }

  /** Three clocks at `far` and one at zero: whatever survives is not in the window. */
  lemma FarClockIsLost(far: nat, lo: nat) returns (points: seq<Point>)
    requires U64_END <= 2 * far && far < U64_END && 0 < lo
    ensures AgreeOn(points, far, far) && !ClockIn(points, lo, far)
  {
    var p, q := Point(1.0, 0.0, "", far), Point(1.0, 0.0, "", 0);
    points := [q, p, p, p];
    ClockMeanWraps(points, far);
    var kept := WithoutTimeOutliers(points);
    assert forall x | x in kept :: x in points && x.serverTime == 0;
    if kept != [] {
      CountAll(kept, TimeOf, 0.0, 0.0);
      MedianTimeWithin(kept, 0, 0);
    }
  }

  lemma WiderAgreement(points: seq<Point>, t: nat, lo: nat, hi: nat)
    requires AgreeOn(points, t, t) && lo <= t <= hi
    ensures AgreeOn(points, lo, hi)
  {
    CountMapped(points, points, TimeOf, TimeOf, t as real, t as real, lo as real, hi as real);
  }

  /** A majority within 300 s decides the signed clock, whatever the others report, exactly when
      its window ends below 2^63. */
  lemma ClockMajorityDecidesExactly(lo: nat, hi: nat)
    requires lo <= hi < U64_END && hi - lo <= MAX_TIME_DRIFT_SECS
    ensures (forall points | AgreeOn(points, lo, hi) :: ClockIn(points, lo, hi)) <==> 2 * hi < U64_END
  {
    if 2 * hi < U64_END {
      forall points | AgreeOn(points, lo, hi) ensures ClockIn(points, lo, hi) {
        ClockMajorityDecides(points, lo, hi);
      }
    } else {
      var points := FarClockIsLost(hi, lo);
      WiderAgreement(points, hi, lo, hi);
    }
  }

  // ----- price outliers -----

  function Distance(x: real, y: real): real {
    if x < y then y - x else x - y
  }

  function DistanceFrom(m: real): real -> real {
    (x: real) => Distance(x, m)
  }

  function NearPrice(m: real, threshold: real): Point -> bool {
    (p: Point) => Distance(p.price, m) <= threshold
  }

  /** Median price, and the median absolute deviation from it. */
  function MedianPrice(points: seq<Point>): real
    requires points != []
  {
    Median(Keys(points, PriceOf))
  }

  function Mad(points: seq<Point>): real
    requires points != []
  {
    Median(Deviations(Keys(points, PriceOf), MedianPrice(points)))
  }

  /** Distances to `m`, taken from the prices already sorted. */
  function Deviations(prices: seq<real>, m: real): (r: seq<real>)
    ensures |r| == |prices|
  {
    Keys(Sort(prices, Value), DistanceFrom(m))
  }

  const MAD_FLOOR: real := 1.0 / 10_000_000_000.0

  /** The two deviation limits; `None` stands for infinity. */
  function MadLimit(sigma: real, mad: real): Option<real> {
    if mad < MAD_FLOOR then None else Some(sigma * 1.4826 * mad)
  }

  function CapLimit(capBps: nat, median: real): Option<real> {
    if capBps == 0 then None else Some(Distance(median, 0.0) * (capBps as real) / 10_000.0)
  }

  predicate AtMost(x: real, limit: Option<real>) {
    limit.Some? ==> x <= limit.value
  }

  function Smaller(a: Option<real>, b: Option<real>): (r: Option<real>)
    ensures r.None? <==> a.None? && b.None?
    ensures r.Some? ==> r == a || r == b
    ensures r.Some? && a.Some? ==> r.value <= a.value
    ensures r.Some? && b.Some? ==> r.value <= b.value
  {
    if a.None? then b else if b.None? || a.value <= b.value then a else b
  }

  function WithoutOutliers(points: seq<Point>, sigma: real, capBps: nat): seq<Point> {
    if |points| < 3 then points
    else
      var m := MedianPrice(points);
      Within(points, m, Smaller(MadLimit(sigma, Mad(points)), CapLimit(capBps, m)))
  }

  function Within(points: seq<Point>, m: real, limit: Option<real>): seq<Point> {
    match limit
    case None => points
    case Some(threshold) => Retain(points, NearPrice(m, threshold))
  }

  /** A strict majority of prices in `[lo, hi]` pins the median price to `[lo, hi]` and the
      median absolute deviation to at most `hi - lo`, whatever the minority reports. */
  lemma MajorityPinsMedianAndMad(points: seq<Point>, lo: real, hi: real)
    requires MajorityWithin(points, PriceOf, lo, hi)
    ensures points != []
    ensures lo <= MedianPrice(points) <= hi
    ensures 0.0 <= Mad(points) <= hi - lo
  {
    CountKeys(points, PriceOf, lo, hi);
    MedianWithin(Keys(points, PriceOf), lo, hi);
    MadWithin(Keys(points, PriceOf), MedianPrice(points), lo, hi);
  }

  lemma MadWithin(prices: seq<real>, m: real, lo: real, hi: real)
    requires MajorityWithin(prices, Value, lo, hi) && lo <= m <= hi
    ensures prices != [] && 0.0 <= Median(Deviations(prices, m)) <= hi - lo
  {
    CountSort(prices, Value, lo, hi);
    SortedDeviations(prices, m);
    DistancesWithin(Deviations(prices, m), Sort(prices, Value), m, lo, hi);
  }

  lemma DistancesWithin(devs: seq<real>, s: seq<real>, m: real, lo: real, hi: real)
    requires AreDistances(devs, s, m) && MajorityWithin(s, Value, lo, hi) && lo <= m <= hi
    ensures devs != [] && 0.0 <= Median(devs) <= hi - lo
  {
    CountMapped(s, devs, Value, Value, lo, hi, 0.0, hi - lo);
    MedianWithin(devs, 0.0, hi - lo);
  }

  /** Every survivor is within both limits of the median. */
  lemma SurvivorsAreNear(points: seq<Point>, sigma: real, capBps: nat, p: Point)
    requires |points| >= 3
    requires p in WithoutOutliers(points, sigma, capBps)
    ensures p in points
    ensures AtMost(Distance(p.price, MedianPrice(points)), CapLimit(capBps, MedianPrice(points)))
    ensures AtMost(Distance(p.price, MedianPrice(points)), MadLimit(sigma, Mad(points)))
  {
    WithinIsNear(points, MedianPrice(points), MadLimit(sigma, Mad(points)), CapLimit(capBps, MedianPrice(points)), p);
  }

  lemma WithinIsNear(points: seq<Point>, m: real, a: Option<real>, b: Option<real>, p: Point)
    requires p in Within(points, m, Smaller(a, b))
    ensures p in points && AtMost(Distance(p.price, m), a) && AtMost(Distance(p.price, m), b)
  {
  }

  /** Without a cap, and with `sigma * 1.4826 >= 1`, at most half of the samples are dropped. */
  lemma HalfSurvives(points: seq<Point>, sigma: real)
    requires sigma * 1.4826 >= 1.0
    ensures 2 * |WithoutOutliers(points, sigma, 0)| >= |points|
  {
    if |points| >= 3 {
      UncappedLimit(sigma, Mad(points), MedianPrice(points));
      HalfWithin(points, Smaller(MadLimit(sigma, Mad(points)), CapLimit(0, MedianPrice(points))));
    }
  }

  lemma HalfWithin(points: seq<Point>, limit: Option<real>)
    requires points != [] && (limit.Some? ==> limit.value >= Mad(points))
    ensures 2 * |Within(points, MedianPrice(points), limit)| >= |points|
  {
    HalfOfSamples(points, MedianPrice(points), Mad(points));
    RetainsNear(points, MedianPrice(points), Mad(points), limit);
  }

  lemma HalfOfSamples(points: seq<Point>, m: real, mad: real)
    requires points != [] && mad == Median(Deviations(Keys(points, PriceOf), m))
    ensures 2 * CountWithin(points, PriceOf, m - mad, m + mad) >= |points|
  {
    HalfOfPrices(Keys(points, PriceOf), m, mad);
    CountKeys(points, PriceOf, m - mad, m + mad);
  }

  lemma HalfOfPrices(prices: seq<real>, m: real, mad: real)
    requires prices != [] && mad == Median(Deviations(prices, m))
    ensures 2 * CountWithin(prices, Value, m - mad, m + mad) >= |prices|
  {
    SortedDeviations(prices, m);
    HalfOfDistances(Deviations(prices, m), Sort(prices, Value), m);
    HalfNear(prices, Deviations(prices, m), m, mad);
  }

  lemma UncappedLimit(sigma: real, mad: real, m: real)
    requires sigma * 1.4826 >= 1.0
    ensures var limit := Smaller(MadLimit(sigma, mad), CapLimit(0, m)); limit.Some? ==> limit.value >= mad
  {
    if mad >= MAD_FLOOR {
      assert (sigma * 1.4826 - 1.0) * mad >= 0.0;
    }
  }

  lemma RetainsNear(points: seq<Point>, m: real, r: real, limit: Option<real>)
    requires limit.Some? ==> limit.value >= r
    requires 2 * CountWithin(points, PriceOf, m - r, m + r) >= |points|
    ensures 2 * |Within(points, m, limit)| >= |points|
  {
    if limit.Some? {
      KeepsAtLeastCount(points, NearPrice(m, limit.value), m - r, m + r);
    }
  }

  lemma KeepsAtLeastCount(points: seq<Point>, keep: Point -> bool, lo: real, hi: real)
    requires forall p | p in points && lo <= PriceOf(p) <= hi :: keep(p)
    ensures |Retain(points, keep)| >= CountWithin(points, PriceOf, lo, hi)
  {
    RetainKeepsCount(points, keep, PriceOf, lo, hi);
    CountAtMostLength(Retain(points, keep), PriceOf, lo, hi);
  }

  ghost predicate AreDistances(devs: seq<real>, s: seq<real>, m: real) {
    |devs| == |s| && forall i | 0 <= i < |s| :: devs[i] == Distance(s[i], m)
  }

  lemma SortedDeviations(prices: seq<real>, m: real)
    ensures AreDistances(Deviations(prices, m), Sort(prices, Value), m)
  {
  }

  lemma HalfOfDistances(devs: seq<real>, s: seq<real>, m: real)
    requires devs != [] && AreDistances(devs, s, m)
    ensures 2 * CountWithin(devs, Value, 0.0, Median(devs)) >= |devs|
  {
    HalfBelowMedian(devs, 0.0);
  }

  /** If half of the distances are at most `r`, half of the prices are within `r` of `m`. */
  lemma HalfNear(prices: seq<real>, devs: seq<real>, m: real, r: real)
    requires AreDistances(devs, Sort(prices, Value), m)
    requires 2 * CountWithin(devs, Value, 0.0, r) >= |devs|
    ensures 2 * CountWithin(prices, Value, m - r, m + r) >= |prices|
  {
    NearByDistance(Sort(prices, Value), devs, m, r);
    SortedNear(prices, m - r, m + r);
  }

  lemma SortedNear(prices: seq<real>, lo: real, hi: real)
    requires 2 * CountWithin(Sort(prices, Value), Value, lo, hi) >= |prices|
    ensures 2 * CountWithin(prices, Value, lo, hi) >= |prices|
  {
    CountSort(prices, Value, lo, hi);
  }

  lemma NearByDistance(s: seq<real>, devs: seq<real>, m: real, r: real)
    requires AreDistances(devs, s, m)
    requires 2 * CountWithin(devs, Value, 0.0, r) >= |devs|
    ensures 2 * CountWithin(s, Value, m - r, m + r) >= |s|
  {
    CountMapped(devs, s, Value, Value, 0.0, r, m - r, m + r);
  }

  lemma CountAtMostLength<T>(s: seq<T>, key: T -> real, lo: real, hi: real)
    ensures CountWithin(s, key, lo, hi) <= |s|
  {
    CountAfterPrefix(s, key, lo, hi, 0);
  }

  /** At least half of the numbers are at or below their median. */
  lemma HalfBelowMedian(values: seq<real>, floor: real)
    requires values != [] && forall i | 0 <= i < |values| :: values[i] >= floor
    ensures 2 * CountWithin(values, Value, floor, Median(values)) >= |values|
  {
    var s, h := Sort(values, Value), (|values| - 1) / 2;
    MiddleBelowMedian(values);
    SortSorts(values, Value);
    SameFloor(s, values, floor);
    LowerHalf(s, floor, Median(values), h);
    CountPrefix(s, floor, Median(values), h + 1);
    CountSort(values, Value, floor, Median(values));
  }

  lemma MiddleBelowMedian(values: seq<real>)
    requires values != []
    ensures Sort(values, Value)[(|values| - 1) / 2] <= Median(values)
  {
    SortSorts(values, Value);
    var s, n := Sort(values, Value), |values|;
    assert n % 2 == 0 ==> (n - 1) / 2 == n / 2 - 1 && Value(s[n / 2 - 1]) <= Value(s[n / 2]);
    assert n % 2 == 1 ==> (n - 1) / 2 == n / 2;
  }

  lemma SameFloor(s: seq<real>, t: seq<real>, floor: real)
    requires multiset(s) == multiset(t)
    requires forall i | 0 <= i < |t| :: t[i] >= floor
    ensures forall i | 0 <= i < |s| :: s[i] >= floor
  {
    forall i | 0 <= i < |s| ensures s[i] >= floor {
      assert s[i] in multiset(t);
    }
  }

  lemma LowerHalf(s: seq<real>, lo: real, hi: real, h: nat)
    requires SortedBy(s, Value) && h < |s| && s[h] <= hi
    requires forall i | 0 <= i < |s| :: lo <= s[i]
    ensures forall i | 0 <= i <= h :: lo <= s[i] <= hi
  {
    forall i | 0 <= i <= h ensures s[i] <= hi {
      assert i < h ==> Value(s[i]) <= Value(s[h]);
    }
  }

  lemma {:induction false} CountPrefix(s: seq<real>, lo: real, hi: real, n: nat)
    requires n <= |s| && forall i | 0 <= i < n :: lo <= s[i] <= hi
    ensures CountWithin(s, Value, lo, hi) >= n
  {
    if n > 0 {
      CountPrefix(s[..|s| - 1], lo, hi, if n == |s| then n - 1 else n);
    }
  }

  // ----- quote conversion -----

  datatype Quote = Usd | Usdt

  function Converted(p: Point, quotes: map<string, Quote>, rate: real): Point {
    if p.source in quotes && quotes[p.source] == Usdt then p.(price := p.price * rate) else p
  }

  /** A rate that is not finite and positive leaves the samples as they are. */
  function ConvertedAll(points: seq<Point>, quotes: map<string, Quote>, rate: F64): (r: seq<Point>)
    ensures |r| == |points|
  {
    if !rate.Finite? || rate.r <= 0.0 then points
    else seq(|points|, i requires 0 <= i < |points| => Converted(points[i], quotes, rate.r))
  }

  /** `convert_quotes_to_usd`, in place. */
  method ConvertQuotesToUsd(points: array<Point>, quotes: map<string, Quote>, rate: F64)
    modifies points
    ensures points[..] == ConvertedAll(old(points[..]), quotes, rate)
  {
    if !rate.Finite? || rate.r <= 0.0 {
      return;
    }
    for i := 0 to points.Length
      invariant forall j | 0 <= j < i :: points[j] == Converted(old(points[j]), quotes, rate.r)
      invariant forall j | i <= j < points.Length :: points[j] == old(points[j])
    {
      points[i] := Converted(points[i], quotes, rate.r);
    }
  }

  lemma ConvertedStaysClean(points: seq<Point>, quotes: map<string, Quote>, rate: F64)
    requires Clean(points)
    ensures Clean(ConvertedAll(points, quotes, rate))
  {
  }

  // ----- fixed point -----

  const MAX_SANE_PRICE: real := 100_000_000_000_000_000_000.0
  const U128_MAX: real := 340282366920938463463374607431768211455.0

  datatype EncodeError = NonFinite | NonPositive | AboveMaximum | Overflow

  function Pow10(n: nat): nat {
    if n == 0 then 1 else 10 * Pow10(n - 1)
  }

  /** The multiplier is computed in `u64`, so it wraps from 20 decimals on. */
  function Multiplier(decimals: nat): nat {
    Pow10(decimals) % U64_END
  }

  function ToFixedPoint(price: F64, decimals: nat): Result<nat, EncodeError> {
    if !price.Finite? then Err(NonFinite)
    else if price.r <= 0.0 then Err(NonPositive)
    else if price.r > MAX_SANE_PRICE then Err(AboveMaximum)
    else Rounded(Scaled(price.r, Multiplier(decimals)))
  }

  function Scaled(price: real, multiplier: nat): real {
    price * multiplier as real
  }

  function Rounded(scaled: real): Result<nat, EncodeError> {
    if scaled < 0.0 || scaled > U128_MAX then Err(Overflow) else Ok(Round(scaled))
  }

  lemma {:induction false} Pow10Grows(m: nat, n: nat)
    requires m <= n
    ensures 0 < Pow10(m) <= Pow10(n)
    decreases n
  {
    if n > 0 {
      if m < n { Pow10Grows(m, n - 1); } else { Pow10Grows(0, n - 1); }
    }
  }

  lemma Pow10Values()
    ensures Pow10(8) == 100_000_000 && Pow10(18) == 1_000_000_000_000_000_000
    ensures Pow10(19) == 10_000_000_000_000_000_000 && Pow10(20) == 100_000_000_000_000_000_000
  {
    assert Pow10(4) == 10_000;
    assert Pow10(8) == 10_000 * Pow10(4);
    assert Pow10(12) == 10_000 * Pow10(8);
    assert Pow10(16) == 10_000 * Pow10(12);
    assert Pow10(20) == 10_000 * Pow10(16);
  }

  /** The multiplier is the power of ten exactly up to 19 decimals. */
  lemma MultiplierIsExact(decimals: nat)
    ensures Multiplier(decimals) == Pow10(decimals) <==> decimals <= 19
  {
    Pow10Values();
    if decimals <= 19 {
      Pow10Grows(decimals, 19);
    } else {
      Pow10Grows(20, decimals);
    }
  }

  lemma ProductAtMost(x: real, y: real, a: real, b: real)
    requires 0.0 <= x <= a && 0.0 <= y <= b
    ensures 0.0 <= x * y <= a * b
  {
    assert x * y <= a * y;
    assert a * y <= a * b;
  }

  lemma ScaledFits(price: real, multiplier: nat)
    requires 0.0 < price <= MAX_SANE_PRICE && multiplier <= 1_000_000_000_000_000_000
    ensures 0.0 <= Scaled(price, multiplier) <= U128_MAX
  {
    ProductAtMost(price, multiplier as real, 100_000_000_000_000_000_000.0, 1_000_000_000_000_000_000.0);
  }

  lemma RoundedIsNear(scaled: real)
    requires 0.0 <= scaled <= U128_MAX
    ensures Rounded(scaled).Ok? && Distance(Rounded(scaled).value as real, scaled) <= 0.5
  {
  }

  /** An accepted price is encoded as the scaled price, to within half a unit. */
  ghost predicate Faithful(price: real, decimals: nat) {
    ToFixedPoint(Finite(price), decimals).Ok? ==>
      Distance(ToFixedPoint(Finite(price), decimals).value as real, Scaled(price, Pow10(decimals))) <= 0.5
  }

  lemma FaithfulBelowTwenty(price: real, decimals: nat)
    requires decimals < 20
    ensures Faithful(price, decimals)
  {
    MultiplierIsExact(decimals);
    var scaled := Scaled(price, Pow10(decimals));
    if 0.0 <= scaled <= U128_MAX {
      RoundedIsNear(scaled);
    }
  }

  /** Up to 18 decimals exactly the positive prices up to the maximum are encoded, and the
      encoding is the scaled price to within half a unit. */
  lemma FixedPointIsFaithful(price: F64, decimals: nat)
    ensures decimals < 20 && price.Finite? ==> Faithful(price.r, decimals)
    ensures decimals <= 18 ==> (ToFixedPoint(price, decimals).Ok? <==> price.Finite? && 0.0 < price.r <= MAX_SANE_PRICE)
  {
    if decimals < 20 && price.Finite? {
      FaithfulBelowTwenty(price.r, decimals);
    }
    if decimals <= 18 && price.Finite? && 0.0 < price.r <= MAX_SANE_PRICE {
      MultiplierIsExact(decimals);
      SmallPow10(decimals);
      ScaledFits(price.r, Pow10(decimals));
    }
  }

  lemma SmallPow10(decimals: nat)
    requires decimals <= 18
    ensures Pow10(decimals) <= 1_000_000_000_000_000_000
  {
    Pow10Values();
    Pow10Grows(decimals, 18);
  }

  /** From 20 decimals on the multiplier wraps, and already the price 1 is encoded wrongly. */
  lemma OneIsUnfaithful(decimals: nat)
    ensures decimals >= 20 ==> !Faithful(1.0, decimals)
  {
    MultiplierIsExact(decimals);
    RoundOfInteger(Multiplier(decimals));
    assert Scaled(1.0, Multiplier(decimals)) == Multiplier(decimals) as real;
    assert Scaled(1.0, Pow10(decimals)) == Pow10(decimals) as real;
  }

  /** Every accepted price is encoded faithfully exactly below 20 decimals. */
  lemma EncodingIsFaithfulExactly(decimals: nat)
    ensures (forall price: real :: Faithful(price, decimals)) <==> decimals < 20
  {
    if decimals < 20 {
      forall price: real ensures Faithful(price, decimals) {
        FaithfulBelowTwenty(price, decimals);
      }
    } else {
      OneIsUnfaithful(decimals);
    }
  }
}
