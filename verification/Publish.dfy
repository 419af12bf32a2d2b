/** One publish cycle: per asset, the gated and consolidated book price when there is one,
    otherwise the REST pipeline (sanitise, convert, reject, weighted median), encoded and stored.
    USDT/USD comes first and sets the rate the other assets are converted with. */
module Publish {
  import opened Wrappers
  import opened Collections
  import opened Numbers
  import opened OrderStats
  import opened Aggregator
  import opened WeightedMedian
  import opened BookReader
  import opened BookGate
  import Clearing
  import Grid
  import OrderBook

  const USDT_USD: string := "USDT/USD"
  const ORACLE_DECIMALS: nat := 8
  const USDT_RATE_MAX_AGE_SECS: int := 900

  datatype Asset = Asset(symbol: string, minSources: nat, capBps: nat, quotes: map<string, Quote>)

  /** A consolidated-book price, in USDT. */
  datatype BookPrice = BookPrice(mid: real, time: nat, sources: nat)

  /** What one cycle sees of one asset: the books of its base asset in the shared state, and the
      samples the REST sources return. */
  datatype Fetched = Fetched(books: seq<OrderBook.Book>, samples: seq<Sample>)

  datatype Job = Job(asset: Asset, fetched: Fetched)

  datatype Cached = Cached(fixed: nat, human: real, sources: nat, signedTime: nat)

  type Store = map<string, Cached>

  predicate HasUsdtSource(asset: Asset) {
    exists s :: s in asset.quotes && asset.quotes[s] == Usdt
  }

  // ----- the conversion rate -----

  function Age(now: int, stamped: int): int {
    if now < stamped then 0 else now - stamped
  }

  predicate CachedRateUsable(store: Store, now: nat) {
    USDT_USD in store && Age(now, store[USDT_USD].signedTime) <= USDT_RATE_MAX_AGE_SECS && store[USDT_USD].human > 0.0
  }

  /** This cycle's rate, else a cached one of at most 900 s, else the peg. */
  function UsdtRate(cycle: Option<real>, store: Store, now: nat): real {
    if cycle.Some? then cycle.value
    else if CachedRateUsable(store, now) then store[USDT_USD].human
    else 1.0
  }

  // ----- the REST pipeline -----

  function RestPoints(asset: Asset, samples: seq<Sample>, cycle: Option<real>, store: Store): seq<Point> {
    var points := Sanitize(samples);
    if HasUsdtSource(asset) then
      var median := MedianServerTime(points);
      var now := if median.Some? then median.value else 0;
      ConvertedAll(points, asset.quotes, Finite(UsdtRate(cycle, store, now)))
    else points
  }

  datatype Aggregate = Aggregate(price: real, sources: nat, time: nat)

  function AggregateOf(asset: Asset, points: seq<Point>): Option<Aggregate> {
    if |points| < asset.minSources then None
    else
      var kept := WithoutTimeOutliers(WithoutOutliers(points, 3.0, asset.capBps));
      var time := MedianServerTime(kept);
      var price := WeightedMedianOf(kept);
      if time.None? || |kept| < asset.minSources || price.None? then None
      else Some(Aggregate(price.value, |kept|, time.value))
  }

  /** The source count is cast to a byte. */
  function CachedOf(a: Aggregate): Option<Cached> {
    match ToFixedPoint(Finite(a.price), ORACLE_DECIMALS)
    case Err(_) => None
    case Ok(fixed) => Some(Cached(fixed, a.price, a.sources % 256, a.time))
  }

  // ----- the consolidated-book path -----

  /** The base ticker the collectors follow; only these assets have books. */
  function CollectorBase(symbol: string): Option<string> {
    if symbol == "BTC/USD" then Some("BTC")
    else if symbol == "ETH/USD" then Some("ETH")
    else if symbol == "KAS/USD" then Some("KAS")
    else if symbol == "USDC/USD" then Some("USDC")
    else if symbol == "TAO/USD" then Some("TAO")
    else None
  }

  /** Price and second from the books that were read; the second is the median of all of them,
      gated out or not. */
  function Consolidated(read: seq<OrderBook.Book>, minSources: nat): Option<BookPrice> {
    var fair, time := GatedFairValue(read, minSources), SignedSecond(read);
    if fair.None? || time.None? then None else Some(BookPrice(fair.value.price, time.value, fair.value.sources))
  }

  /** The books of the asset that count, when it is one the collectors follow. */
  function BooksRead(asset: Asset, books: seq<OrderBook.Book>): Option<seq<OrderBook.Book>> {
    var base := CollectorBase(asset.symbol);
    if base.None? then None else Some(ReadBooks(books, MaxSpreadBps(base.value)))
  }

  function BookPriceOf(read: Option<seq<OrderBook.Book>>, minSources: nat): Option<BookPrice> {
    if read.None? then None else Consolidated(read.value, minSources)
  }

  // ----- one asset, one cycle -----

  datatype CycleState = CycleState(store: Store, cycle: Option<real>)

  function BookCached(book: Option<BookPrice>, s: CycleState): Option<Cached> {
    match book
    case None => None
    case Some(b) => CachedOf(InUsd(b, UsdtRate(s.cycle, s.store, b.time)))
  }

  function InUsd(b: BookPrice, rate: real): Aggregate {
    Aggregate(b.mid * rate, b.sources, b.time)
  }

  function AssetStep(job: Job, s: CycleState): CycleState {
    var read := BooksRead(job.asset, job.fetched.books);
    StepFrom(job.asset, BookPriceOf(read, job.asset.minSources), job.fetched.samples, s)
  }

  /** The step once it is known what the books give. */
  function StepFrom(asset: Asset, book: Option<BookPrice>, samples: seq<Sample>, s: CycleState): CycleState {
    var cached := BookCached(book, s);
    if cached.Some? then s.(store := s.store[asset.symbol := cached.value]) else RestStep(asset, samples, s)
  }

  function RestStep(asset: Asset, samples: seq<Sample>, s: CycleState): CycleState {
    Applied(asset, AggregateOf(asset, RestPoints(asset, samples, s.cycle, s.store)), s)
  }

  /** What an aggregate does to the cycle's rate and the store. */
  function Applied(asset: Asset, aggregate: Option<Aggregate>, s: CycleState): CycleState {
    match aggregate
    case None => s
    case Some(a) =>
      var t := if asset.symbol == USDT_USD then s.(cycle := Some(a.price)) else s;
      match CachedOf(a)
      case None => t
      case Some(c) => t.(store := t.store[asset.symbol := c])
  }

  function IsUsdt(job: Job): bool { job.asset.symbol == USDT_USD }

  function IsOther(job: Job): bool { job.asset.symbol != USDT_USD }

  /** USDT/USD first, the others in their given order. */
  function Ordered(jobs: seq<Job>): seq<Job> {
    Retain(jobs, IsUsdt) + Retain(jobs, IsOther)
  }

  function Cycle(jobs: seq<Job>, store: Store): CycleState {
    Fold(AssetStep, Ordered(jobs), CycleState(store, None))
  }

  /** The oracle process: the price store and the counters. */
  class Oracle {
    var store: Store
    const metrics: Metrics

    constructor (metrics: Metrics)
      ensures store == map[] && this.metrics == metrics
    {
      store := map[];
      this.metrics := metrics;
    }

    method ResolveRate(cycle: Option<real>, now: nat) returns (rate: real)
      modifies metrics
      ensures rate == UsdtRate(cycle, store, now)
      ensures metrics.equalWeightFallbacks == old(metrics.equalWeightFallbacks)
      ensures metrics.usdtRateAssumed == old(metrics.usdtRateAssumed)
              + if cycle.None? && !CachedRateUsable(store, now) then 1 else 0
    {
      if cycle.Some? {
        return cycle.value;
      }
      if CachedRateUsable(store, now) {
        return store[USDT_USD].human;
      }
      metrics.usdtRateAssumed := metrics.usdtRateAssumed + 1;
      rate := 1.0;
    }

    /** The REST path of one asset, filtering the samples in place. */
    method AggregateRest(asset: Asset, samples: seq<Sample>, cycle: Option<real>) returns (a: Option<Aggregate>)
      modifies metrics
      ensures a == AggregateOf(asset, RestPoints(asset, samples, cycle, store))
    {
      var points := Sanitize(samples);
      if HasUsdtSource(asset) {
        var median := MedianServerTime(points);
        var rate := ResolveRate(cycle, if median.Some? then median.value else 0);
        points := ConvertedAll(points, asset.quotes, Finite(rate));
      }
      if |points| < asset.minSources {
        return None;
      }
      points := WithoutOutliers(points, 3.0, asset.capBps);
      points := WithoutTimeOutliers(points);
      var time := MedianServerTime(points);
      if time.None? || |points| < asset.minSources {
        return None;
      }
      var price, _ := ComputeWeightedMedian(points, metrics);
      if price.None? {
        return None;
      }
      a := Some(Aggregate(price.value, |points|, time.value));
    }

    /** The consolidated-book path; falls through when there is no usable price. */
    method PublishBook(asset: Asset, books: seq<OrderBook.Book>, cycle: Option<real>) returns (done: bool)
      modifies this`store, metrics
      ensures var book := BookPriceOf(BooksRead(asset, books), asset.minSources);
              var cached := BookCached(book, CycleState(old(store), cycle));
              && done == cached.Some?
              && store == if done then old(store)[asset.symbol := cached.value] else old(store)
    {
      var read := BooksRead(asset, books);
      if read.None? {
        return false;
      }
      var fair := GatedConsolidatedOrderBook(read.value, asset.minSources);
      var time := SignedSecond(read.value);
      if fair.None? || time.None? {
        return false;
      }
      var rate := ResolveRate(cycle, time.value);
      var cached := CachedOf(InUsd(BookPrice(fair.value.price, time.value, fair.value.sources), rate));
      if cached.Some? {
        store := store[asset.symbol := cached.value];
      }
      done := cached.Some?;
    }

    method PublishRest(asset: Asset, samples: seq<Sample>, cycle: Option<real>) returns (cycle': Option<real>)
      modifies this`store, metrics
      ensures CycleState(store, cycle') == RestStep(asset, samples, CycleState(old(store), cycle))
    {
      cycle' := cycle;
      var a := AggregateRest(asset, samples, cycle);
      if a.None? {
        return;
      }
      if asset.symbol == USDT_USD {
        cycle' := Some(a.value.price);
      }
      var cached := CachedOf(a.value);
      if cached.Some? {
        store := store[asset.symbol := cached.value];
      }
    }

    method PublishAsset(job: Job, cycle: Option<real>) returns (cycle': Option<real>)
      modifies this`store, metrics
      ensures CycleState(store, cycle') == AssetStep(job, CycleState(old(store), cycle))
    {
      cycle' := cycle;
      var done := PublishBook(job.asset, job.fetched.books, cycle);
      if !done {
        cycle' := PublishRest(job.asset, job.fetched.samples, cycle);
      }
    }

    method RunCycle(jobs: seq<Job>)
      modifies this`store, metrics
      ensures store == Cycle(jobs, old(store)).store
    {
      var ordered := Ordered(jobs);
      var cycle: Option<real> := None;
      for i := 0 to |ordered|
        invariant CycleState(store, cycle) == Fold(AssetStep, ordered[..i], CycleState(old(store), None))
      {
        FoldNext(AssetStep, ordered, CycleState(old(store), None), i);
        cycle := PublishAsset(ordered[i], cycle);
      }
      assert ordered[..|ordered|] == ordered;
    }
  }

  // ----- what is stored -----

  /** An entry encodes the positive price it was computed from, to half a unit. */
  ghost predicate SaneEntry(c: Cached) {
    && 0.0 < c.human <= MAX_SANE_PRICE
    && Distance(c.fixed as real, c.human * 100_000_000.0) <= 0.5
    && c.sources < 256
  }

  ghost predicate SaneStore(store: Store) {
    forall s | s in store :: SaneEntry(store[s])
  }

  /** Whatever is fetched, every stored price stays sane through every cycle. */
  lemma StoreStaysSane(jobs: seq<Job>, store: Store)
    requires SaneStore(store)
    ensures SaneStore(Cycle(jobs, store).store)
  {
    forall job: Job, s: CycleState | SaneStore(s.store) ensures SaneStore(AssetStep(job, s).store) {
      StepStaysSane(job, s);
    }
    FoldKeeps(AssetStep, (s: CycleState) => SaneStore(s.store), Ordered(jobs), CycleState(store, None));
  }

  lemma StepStaysSane(job: Job, s: CycleState)
    requires SaneStore(s.store)
    ensures SaneStore(AssetStep(job, s).store)
  {
    var read := BooksRead(job.asset, job.fetched.books);
    StepFromStaysSane(job.asset, BookPriceOf(read, job.asset.minSources), job.fetched.samples, s);
  }

  lemma StepFromStaysSane(asset: Asset, book: Option<BookPrice>, samples: seq<Sample>, s: CycleState)
    requires SaneStore(s.store)
    ensures SaneStore(StepFrom(asset, book, samples, s).store)
  {
    if BookCached(book, s).Some? {
      CachedIsSane(InUsd(book.value, UsdtRate(s.cycle, s.store, book.value.time)));
    } else {
      RestStaysSane(asset, samples, s);
    }
  }

  lemma RestStaysSane(asset: Asset, samples: seq<Sample>, s: CycleState)
    requires SaneStore(s.store)
    ensures SaneStore(RestStep(asset, samples, s).store)
  {
    var a := AggregateOf(asset, RestPoints(asset, samples, s.cycle, s.store));
    if a.Some? && CachedOf(a.value).Some? {
      CachedIsSane(a.value);
    }
  }

  lemma CachedIsSane(a: Aggregate)
    requires CachedOf(a).Some?
    ensures SaneEntry(CachedOf(a).value)
  {
    FixedPointIsFaithful(Finite(a.price), 8);
    Pow10Values();
  }

  // ----- how far the published price can be from the honest ones -----

  lemma PriceIsASurvivor(asset: Asset, points: seq<Point>) returns (p: Point)
    requires AggregateOf(asset, points).Some?
    ensures p in WithoutOutliers(points, 3.0, asset.capBps)
    ensures p.price == AggregateOf(asset, points).value.price
  {
    var kept := WithoutTimeOutliers(WithoutOutliers(points, 3.0, asset.capBps));
    ResultIsWeightedMedian(kept);
    p :| p in kept && p.price == WeightedMedianOf(kept).value;
  }

  /** At least three samples, a strict majority of them priced in `[lo, hi]`: the aggregate is
      within both rejection limits of a median that lies in `[lo, hi]`, whatever the volumes,
      the clocks and the other prices are. */
  lemma AggregateNearMajority(asset: Asset, points: seq<Point>, lo: real, hi: real)
    requires |points| >= 3 && MajorityWithin(points, PriceOf, lo, hi)
    requires AggregateOf(asset, points).Some?
    ensures var m, price := MedianPrice(points), AggregateOf(asset, points).value.price;
            && lo <= m <= hi
            && 0.0 <= Mad(points) <= hi - lo
            && AtMost(Distance(price, m), CapLimit(asset.capBps, m))
            && AtMost(Distance(price, m), MadLimit(3.0, Mad(points)))
  {
    MajorityPinsMedianAndMad(points, lo, hi);
    var p := PriceIsASurvivor(asset, points);
    SurvivorsAreNear(points, 3.0, asset.capBps, p);
  }

  /** The cap as a fraction of the median. */
  ghost function CapFraction(asset: Asset): real {
    asset.capBps as real / 10_000.0
  }

  /** `[lo, hi]` widened by the fraction `c` on both ends. */
  ghost predicate InBand(price: real, lo: real, hi: real, c: real) {
    lo * (1.0 - c) <= price <= hi * (1.0 + c)
  }

  lemma CapArithmetic(price: real, m: real, cap: nat, c: real, lo: real, hi: real)
    requires 0.0 < lo <= m <= hi && price > 0.0 && cap != 0 && c == cap as real / 10_000.0
    requires AtMost(Distance(price, m), CapLimit(cap, m))
    ensures InBand(price, lo, hi, c)
  {
    assert m * (cap as real) / 10_000.0 == m * c;
    ScalingKeepsOrder(m, hi, 1.0 + c);
    if c <= 1.0 {
      ScalingKeepsOrder(lo, m, 1.0 - c);
    } else {
      assert lo * (1.0 - c) <= 0.0;
    }
  }

  lemma ScalingKeepsOrder(x: real, y: real, f: real)
    requires x <= y && f >= 0.0
    ensures x * f <= y * f
  {
  }

  /** The fixed-point form of a price in that band, to half a unit of 1e-8. */
  ghost predicate FixedInBand(fixed: nat, lo: real, hi: real, c: real) {
    lo * (1.0 - c) * 100_000_000.0 - 0.5 <= fixed as real <= hi * (1.0 + c) * 100_000_000.0 + 0.5
  }

  lemma FixedBand(human: real, fixed: nat, lo: real, hi: real, c: real)
    requires InBand(human, lo, hi, c) && Distance(fixed as real, human * 100_000_000.0) <= 0.5
    ensures FixedInBand(fixed, lo, hi, c)
  {
  }

  lemma AggregateIsBounded(asset: Asset, points: seq<Point>, lo: real, hi: real, a: Aggregate, cached: Cached)
    requires |points| >= 3 && MajorityWithin(points, PriceOf, lo, hi) && 0.0 < lo
    requires asset.capBps != 0
    requires AggregateOf(asset, points) == Some(a) && CachedOf(a) == Some(cached)
    ensures InBand(cached.human, lo, hi, CapFraction(asset)) && FixedInBand(cached.fixed, lo, hi, CapFraction(asset))
  {
    CachedKeepsPrice(a, cached);
    AggregateInBand(asset, points, lo, hi, a);
    FixedBand(cached.human, cached.fixed, lo, hi, CapFraction(asset));
  }

  lemma CachedKeepsPrice(a: Aggregate, cached: Cached)
    requires CachedOf(a) == Some(cached)
    ensures cached.human == a.price && SaneEntry(cached)
  {
    CachedIsSane(a);
  }

  lemma AggregateInBand(asset: Asset, points: seq<Point>, lo: real, hi: real, a: Aggregate)
    requires |points| >= 3 && MajorityWithin(points, PriceOf, lo, hi) && 0.0 < lo && asset.capBps != 0
    requires AggregateOf(asset, points) == Some(a) && a.price > 0.0
    ensures InBand(a.price, lo, hi, CapFraction(asset))
  {
    AggregateNearMajority(asset, points, lo, hi);
    CapArithmetic(a.price, MedianPrice(points), asset.capBps, CapFraction(asset), lo, hi);
  }

  lemma AppliedIsBounded(asset: Asset, points: seq<Point>, a: Aggregate, c: Cached, s: CycleState, lo: real, hi: real)
    requires AggregateOf(asset, points) == Some(a) && CachedOf(a) == Some(c)
    requires |points| >= 3 && MajorityWithin(points, PriceOf, lo, hi) && 0.0 < lo && asset.capBps != 0
    ensures StoredInBand(Applied(asset, Some(a), s).store, s.store, asset, lo, hi)
  {
    AggregateIsBounded(asset, points, lo, hi, a, c);
    AppliedStores(asset, a, c, s);
  }

  lemma AppliedKeeps(asset: Asset, a: Option<Aggregate>, s: CycleState)
    requires a.None? || CachedOf(a.value).None?
    ensures Applied(asset, a, s).store == s.store
  {
  }

  lemma RestIsBounded(asset: Asset, samples: seq<Sample>, s: CycleState, points: seq<Point>, lo: real, hi: real)
    requires points == RestPoints(asset, samples, s.cycle, s.store)
    requires |points| >= 3 && MajorityWithin(points, PriceOf, lo, hi) && 0.0 < lo && asset.capBps != 0
    ensures RestStep(asset, samples, s).store == s.store
            || StoredInBand(RestStep(asset, samples, s).store, s.store, asset, lo, hi)
  {
    var a := AggregateOf(asset, points);
    if a.None? || CachedOf(a.value).None? {
      AppliedKeeps(asset, a, s);
    } else {
      AppliedIsBounded(asset, points, a.value, CachedOf(a.value).value, s, lo, hi);
    }
  }

  lemma AppliedStores(asset: Asset, a: Aggregate, c: Cached, s: CycleState)
    requires CachedOf(a) == Some(c)
    ensures Applied(asset, Some(a), s).store == s.store[asset.symbol := c]
  {
  }

  /** The asset's entry, and no other, was replaced, by a price in the widened band. */
  ghost predicate StoredInBand(store: Store, before: Store, asset: Asset, lo: real, hi: real) {
    && asset.symbol in store && store == before[asset.symbol := store[asset.symbol]]
    && FixedInBand(store[asset.symbol].fixed, lo, hi, CapFraction(asset))
  }

  /** When the books yield nothing, at least three samples reach the outlier rejection and a strict
      majority of them is priced in `[lo, hi]`, the asset's step leaves the store as it was or
      stores, with a cap of `c`, the fixed-point form of a price in `[lo (1 - c), hi (1 + c)]`. */
  lemma PublishedPriceIsBounded(job: Job, s: CycleState, points: seq<Point>, lo: real, hi: real)
    requires BookCached(BookPriceOf(BooksRead(job.asset, job.fetched.books), job.asset.minSources), s).None?
    requires points == RestPoints(job.asset, job.fetched.samples, s.cycle, s.store)
    requires |points| >= 3 && MajorityWithin(points, PriceOf, lo, hi) && 0.0 < lo && job.asset.capBps != 0
    ensures AssetStep(job, s).store == s.store || StoredInBand(AssetStep(job, s).store, s.store, job.asset, lo, hi)
  {
    RestIsBounded(job.asset, job.fetched.samples, s, points, lo, hi);
  }

  // ----- what a book price is -----

  lemma BookIsStored(asset: Asset, book: BookPrice, samples: seq<Sample>, s: CycleState)
    requires BookCached(Some(book), s).Some?
    ensures var store := StepFrom(asset, Some(book), samples, s).store;
            && asset.symbol in store && store == s.store[asset.symbol := store[asset.symbol]]
            && EntryFor(store[asset.symbol], book, UsdtRate(s.cycle, s.store, book.time))
  {
    CachedIsSane(InUsd(book, UsdtRate(s.cycle, s.store, book.time)));
  }

  /** The entry holds the book price converted with the rate, encoded to half a unit. */
  ghost predicate EntryFor(entry: Cached, book: BookPrice, rate: real) {
    && entry.human == book.mid * rate && entry.signedTime == book.time && entry.sources == book.sources % 256
    && Distance(entry.fixed as real, entry.human * 100_000_000.0) <= 0.5
  }

  lemma ConsolidatedMeans(read: seq<OrderBook.Book>, minSources: nat, book: BookPrice)
    requires Consolidated(read, minSources) == Some(book)
    ensures GatedFairValue(read, minSources).Some? && OrderBook.FairValueOf(KeptBooks(read)).Some?
    ensures book.mid == GatedFairValue(read, minSources).value.price == OrderBook.FairValueOf(KeptBooks(read)).value.price
    ensures book.sources == |KeptBooks(read)| && SignedSecond(read) == Some(book.time)
  {
  }

  /** The entry stored from books is the gated, consolidated fair value of what was read from the
      state, converted with the rate in force, encoded to half a unit, and signed for the median
      second of the books read. */
  lemma StoredBook(job: Job, s: CycleState, read: seq<OrderBook.Book>, book: BookPrice)
    requires BooksRead(job.asset, job.fetched.books) == Some(read)
    requires Consolidated(read, job.asset.minSources) == Some(book) && BookCached(Some(book), s).Some?
    ensures var store := AssetStep(job, s).store;
            && job.asset.symbol in store && store == s.store[job.asset.symbol := store[job.asset.symbol]]
            && EntryFor(store[job.asset.symbol], book, UsdtRate(s.cycle, s.store, book.time))
    ensures OrderBook.FairValueOf(KeptBooks(read)).Some?
    ensures book.mid == OrderBook.FairValueOf(KeptBooks(read)).value.price && book.sources == |KeptBooks(read)|
    ensures SignedSecond(read) == Some(book.time)
  {
    ConsolidatedMeans(read, job.asset.minSources, book);
    BookIsStored(job.asset, book, job.fetched.samples, s);
  }

  /** In whole units that is the middle of the two keys marginal to the largest volume a single
      price can execute on the kept books. */
  lemma BookClosedForm(read: seq<OrderBook.Book>, minSources: nat, book: BookPrice, unit: real,
                       grid: real, sides: Clearing.Sides) returns (v: real, kb: int, ka: int)
    requires Consolidated(read, minSources) == Some(book)
    requires grid == KeptGrid(read) && sides == OrderBook.SidesOf(KeptBooks(read), grid)
    requires unit >= Clearing.DUST && Clearing.Quantized(sides.bids, unit) && Clearing.Quantized(sides.asks, unit)
    ensures Clearing.IsOptimum(sides, v) && OrderBook.Marginal(sides, v, kb, ka)
    ensures book.mid == OrderBook.Middle(kb, ka, grid)
  {
    ConsolidatedMeans(read, minSources, book);
    v, kb, ka := OrderBook.FairValueClosedForm(KeptBooks(read), unit, grid, sides);
  }

  /** And with one book per source, each in order, and a strict majority of the mids in `[lo, hi]`,
      a gate that is not open lets only a positive price in the survivors' band through. */
  lemma BookIsBounded(read: seq<OrderBook.Book>, minSources: nat, book: BookPrice, lo: real, hi: real)
    requires Consolidated(read, minSources) == Some(book)
    requires !Open(read) && MajorityWithin(Sanitize(Mids(read)), PriceOf, lo, hi) && DistinctSources(read)
    requires forall b | b in KeptBooks(read) :: OrderBook.InOrder(b, KeptGrid(read))
    ensures book.mid > 0.0 && InGateBand(book.mid, lo, hi, KeptSlack(read))
  {
    ConsolidatedMeans(read, minSources, book);
    GatedFairValueIsBounded(read, minSources, lo, hi);
  }

  /** A fixed-point price, to half a unit of 1e-8, between two prices times the rate. */
  ghost predicate FixedBetween(fixed: nat, low: real, high: real, rate: real) {
    low * rate * 100_000_000.0 - 0.5 <= fixed as real <= high * rate * 100_000_000.0 + 0.5
  }

  lemma ScaledBand(mid: real, low: real, high: real, rate: real, human: real)
    requires low <= mid <= high && mid > 0.0 && human == mid * rate && human > 0.0
    ensures rate > 0.0 && low * rate <= human <= high * rate
  {
    if rate <= 0.0 {
      ProductNotPositive(mid, rate);
    } else {
      ScalingKeepsOrder(low, mid, rate);
      ScalingKeepsOrder(mid, high, rate);
    }
  }

  lemma ProductNotPositive(x: real, y: real)
    requires x > 0.0 && y <= 0.0
    ensures x * y <= 0.0
  {
  }

  lemma EntryIsPositive(book: BookPrice, s: CycleState)
    requires BookCached(Some(book), s).Some?
    ensures BookCached(Some(book), s).value.human > 0.0
  {
    CachedIsSane(InUsd(book, UsdtRate(s.cycle, s.store, book.time)));
  }

  /** So the price stored from books, under the same conditions, is the fixed-point form of one in
      the survivors' band times the rate in force. */
  lemma PublishedBookIsBounded(job: Job, s: CycleState, read: seq<OrderBook.Book>, book: BookPrice, lo: real, hi: real)
    requires BooksRead(job.asset, job.fetched.books) == Some(read)
    requires Consolidated(read, job.asset.minSources) == Some(book) && BookCached(Some(book), s).Some?
    requires !Open(read) && MajorityWithin(Sanitize(Mids(read)), PriceOf, lo, hi) && DistinctSources(read)
    requires forall b | b in KeptBooks(read) :: OrderBook.InOrder(b, KeptGrid(read))
    ensures var store, rate := AssetStep(job, s).store, UsdtRate(s.cycle, s.store, book.time);
            && job.asset.symbol in store && store == s.store[job.asset.symbol := store[job.asset.symbol]]
            && rate > 0.0 && FixedBetween(store[job.asset.symbol].fixed, GateLow(lo, hi, KeptSlack(read)),
                                          GateHigh(lo, hi, KeptSlack(read)), rate)
  {
    StoredBook(job, s, read, book);
    BookIsBounded(read, job.asset.minSources, book, lo, hi);
    EntryIsPositive(book, s);
    EntryBetween(AssetStep(job, s).store[job.asset.symbol], book, GateLow(lo, hi, KeptSlack(read)),
                 GateHigh(lo, hi, KeptSlack(read)), UsdtRate(s.cycle, s.store, book.time));
  }

  lemma EntryBetween(entry: Cached, book: BookPrice, low: real, high: real, rate: real)
    requires EntryFor(entry, book, rate) && book.mid > 0.0 && entry.human > 0.0 && low <= book.mid <= high
    ensures rate > 0.0 && FixedBetween(entry.fixed, low, high, rate)
  {
    ScaledBand(book.mid, low, high, rate, entry.human);
    EncodedBetween(entry.fixed, low * rate, entry.human, high * rate);
  }

  lemma EncodedBetween(fixed: nat, low: real, human: real, high: real)
    requires low <= human <= high && Distance(fixed as real, human * 100_000_000.0) <= 0.5
    ensures low * 100_000_000.0 - 0.5 <= fixed as real <= high * 100_000_000.0 + 0.5
  {
  }

  // ----- one rate per cycle -----

  lemma OtherStepKeepsRate(job: Job, s: CycleState)
    requires !IsUsdt(job)
    ensures AssetStep(job, s).cycle == s.cycle
  {
  }

  /** The cycle's rate is still `rate`. */
  ghost function RateIs(rate: Option<real>): CycleState -> bool {
    (s: CycleState) => s.cycle == rate
  }

  /** Whatever the configured order, once the USDT/USD jobs are done every other asset of the cycle
      finds the same cycle rate, the one they left or none. */
  lemma OneRatePerCycle(jobs: seq<Job>, store: Store, i: nat)
    requires i <= |Retain(jobs, IsOther)|
    ensures Ordered(jobs) == Retain(jobs, IsUsdt) + Retain(jobs, IsOther)
    ensures Fold(AssetStep, Retain(jobs, IsUsdt) + Retain(jobs, IsOther)[..i], CycleState(store, None)).cycle ==
            Fold(AssetStep, Retain(jobs, IsUsdt), CycleState(store, None)).cycle
  {
    var rest := Retain(jobs, IsOther)[..i];
    var s := Fold(AssetStep, Retain(jobs, IsUsdt), CycleState(store, None));
    FoldConcat(AssetStep, Retain(jobs, IsUsdt), rest, CycleState(store, None));
    OthersKeepRate(rest, s);
  }

  lemma OthersKeepRate(rest: seq<Job>, s: CycleState)
    requires forall job | job in rest :: !IsUsdt(job)
    ensures Fold(AssetStep, rest, s).cycle == s.cycle
  {
    forall job, t | job in rest && RateIs(s.cycle)(t) ensures RateIs(s.cycle)(AssetStep(job, t)) {
      OtherStepKeepsRate(job, t);
    }
    FoldKeeps(AssetStep, RateIs(s.cycle), rest, s);
  }
}
