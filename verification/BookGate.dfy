/** The gate in front of the consolidation: each source's own mid must survive the same
    outlier rejection the REST path uses. */
module BookGate {
  import opened Wrappers
  import opened OrderStats
  import opened Aggregator
  import opened Grid
  import opened OrderBook
  import opened BookReader

  // ----- per-source mids -----

  /** Top-of-book middle as an aggregator sample; a one-sided book has none. */
  function TopMid(book: Book): real
    requires TwoSided(book)
  {
    (book.bids[0].price + book.asks[0].price) / 2.0
  }

  function MidSample(book: Book): Sample
    requires TwoSided(book)
  {
    Sample(Finite(TopMid(book)), Finite(0.0), book.source,
           if book.timestampMs / 1000 < 0 then 0 else book.timestampMs / 1000)
  }

  function Mids(books: seq<Book>): seq<Sample> {
    if books == [] then []
    else
      var front := Mids(books[..|books| - 1]);
      var last := books[|books| - 1];
      if TwoSided(last) then front + [MidSample(last)] else front
  }

  function Survivors(books: seq<Book>): seq<Point> {
    WithoutOutliers(Sanitize(Mids(books)), 3.0, 0)
  }

  predicate HasSource(points: seq<Point>, source: string) {
    exists i :: 0 <= i < |points| && points[i].source == source
  }

  function FromSurvivor(points: seq<Point>): Book -> bool {
    (book: Book) => HasSource(points, book.source)
  }

  function KeptBooks(books: seq<Book>): seq<Book> {
    Retain(books, FromSurvivor(Survivors(books)))
  }

  /** `gated_consolidated_order_book`. */
  function GatedFairValue(books: seq<Book>, minSources: nat): Option<FairValue> {
    if |books| < minSources then None
    else if |Survivors(books)| < minSources then None
    else FairValueOf(KeptBooks(books))
  }

  method GatedConsolidatedOrderBook(books: seq<Book>, minSources: nat) returns (r: Option<FairValue>)
    ensures r == GatedFairValue(books, minSources)
  {
    if |books| < minSources {
      return None;
    }
    var cleaned := WithoutOutliers(Sanitize(Mids(books)), 3.0, 0);
    if |cleaned| < minSources {
      return None;
    }
    r := ConsolidatedOrderBook(Retain(books, FromSurvivor(cleaned)));
  }

  /** The book's own mid reached the survivors. */
  ghost predicate Passed(books: seq<Book>, book: Book) {
    && TwoSided(book) && Usable(MidSample(book))
    && Cleaned(MidSample(book)) in Survivors(books)
  }

  lemma {:induction false} SampleOfBook(books: seq<Book>, p: Point) returns (book: Book)
    requires p in Sanitize(Mids(books))
    ensures book in books && TwoSided(book) && Usable(MidSample(book)) && p == Cleaned(MidSample(book))
  {
    var n := |books| - 1;
    var samples := Mids(books);
    if TwoSided(books[n]) {
      assert samples[..|samples| - 1] == Mids(books[..n]);
      if Usable(MidSample(books[n])) && p == Cleaned(MidSample(books[n])) {
        return books[n];
      }
    }
    book := SampleOfBook(books[..n], p);
  }

  lemma SurvivorsAreSamples(books: seq<Book>)
    ensures forall p | p in Survivors(books) :: p in Sanitize(Mids(books))
  {
  }

  /** The filter keeps books by name: a book is consolidated exactly when some book of its
      source passed. */
  lemma KeptByName(books: seq<Book>, book: Book)
    requires book in books
    ensures book in KeptBooks(books) <==> exists b :: b in books && b.source == book.source && Passed(books, b)
  {
    var points := Survivors(books);
    SurvivorsAreSamples(books);
    if HasSource(points, book.source) {
      var i :| 0 <= i < |points| && points[i].source == book.source;
      assert points[i] in points;
      var b := SampleOfBook(books, points[i]);
      assert b in books && b.source == book.source && Passed(books, b);
    }
    if b :| b in books && b.source == book.source && Passed(books, b) {
      var p := Cleaned(MidSample(b));
      var i :| 0 <= i < |points| && points[i] == p;
      assert points[i].source == book.source;
    }
  }

  /** So every consolidated book passed on its own mid whenever no source appears twice. */
  lemma DistinctSourcesAreGated(books: seq<Book>, book: Book)
    requires forall i, j | 0 <= i < j < |books| :: books[i].source != books[j].source
    requires book in books
    ensures book in KeptBooks(books) <==> Passed(books, book)
  {
    KeptByName(books, book);
    var i :| 0 <= i < |books| && books[i] == book;
    forall b | b in books && b.source == book.source ensures b == book {
      var j :| 0 <= j < |books| && books[j] == b;
      assert !(i < j) && !(j < i);
    }
  }

  // ----- when the gate is open, and what it bounds when it is not -----

  /** Too few mids, or mids that deviate too little, for anything to be rejected. */
  ghost predicate Open(books: seq<Book>) {
    var points := Sanitize(Mids(books));
    |points| < 3 || Mad(points) < MAD_FLOOR
  }

  /** An open gate rejects nothing: it sets no cap, so an outlier is consolidated with the rest. */
  lemma OpenGateKeepsAll(books: seq<Book>)
    requires Open(books)
    ensures Survivors(books) == Sanitize(Mids(books))
    ensures forall b | b in books && TwoSided(b) && Usable(MidSample(b)) :: b in KeptBooks(books)
  {
    var points := Sanitize(Mids(books));
    forall b | b in books && TwoSided(b) && Usable(MidSample(b)) ensures b in KeptBooks(books) {
      BookHasSample(books, b);
      assert Passed(books, b);
      KeptByName(books, b);
    }
  }

  /** In particular when a strict majority of the mids lies in a band narrower than the floor. */
  lemma AgreementOpensGate(books: seq<Book>, lo: real, hi: real)
    requires MajorityWithin(Sanitize(Mids(books)), PriceOf, lo, hi) && hi - lo < MAD_FLOOR
    ensures Open(books)
  {
    MajorityPinsMedianAndMad(Sanitize(Mids(books)), lo, hi);
  }

  lemma {:induction false} BookHasSample(books: seq<Book>, b: Book)
    requires b in books && TwoSided(b) && Usable(MidSample(b))
    ensures Cleaned(MidSample(b)) in Sanitize(Mids(books))
  {
    var n := |books| - 1;
    var samples := Mids(books);
    if TwoSided(books[n]) {
      assert samples[..|samples| - 1] == Mids(books[..n]);
    }
    if b != books[n] {
      BookHasSample(books[..n], b);
    }
  }

  /** A gate that is not open keeps every surviving mid within 3 * 1.4826 deviations of the median
      of all, which a majority pins, together with the deviation, to its own price window. */
  lemma GateBoundsMids(books: seq<Book>, lo: real, hi: real, p: Point)
    requires !Open(books) && MajorityWithin(Sanitize(Mids(books)), PriceOf, lo, hi)
    requires p in Survivors(books)
    ensures lo - 4.4478 * (hi - lo) <= p.price <= hi + 4.4478 * (hi - lo)
  {
    var points := Sanitize(Mids(books));
    MajorityPinsMedianAndMad(points, lo, hi);
    SurvivorsAreNear(points, 3.0, 0, p);
  }

  /** The band of the survivors' mids, widened by what rounding to the grid may add. */
  ghost predicate InGateBand(price: real, lo: real, hi: real, slack: real) {
    GateLow(lo, hi, slack) <= price <= GateHigh(lo, hi, slack)
  }

  ghost function GateLow(lo: real, hi: real, slack: real): real {
    lo - 4.4478 * (hi - lo) - slack
  }

  ghost function GateHigh(lo: real, hi: real, slack: real): real {
    hi + 4.4478 * (hi - lo) + slack
  }

  lemma KeptMidsAreBounded(books: seq<Book>, lo: real, hi: real, b: Book)
    requires !Open(books) && MajorityWithin(Sanitize(Mids(books)), PriceOf, lo, hi)
    requires DistinctSources(books) && b in KeptBooks(books)
    ensures TwoSided(b) && InGateBand(TopMid(b), lo, hi, 0.0)
  {
    DistinctSourcesAreGated(books, b);
    GateBoundsMids(books, lo, hi, Cleaned(MidSample(b)));
  }

  /** A gate that is not open keeps at least half of the mids, and so a book. */
  lemma ClosedGateKeepsABook(books: seq<Book>)
    requires !Open(books)
    ensures Survivors(books) != [] && KeptBooks(books) != []
  {
    HalfSurvives(Sanitize(Mids(books)), 3.0);
    var p := Survivors(books)[0];
    SurvivorsAreSamples(books);
    var b := SampleOfBook(books, p);
    assert Passed(books, b);
    KeptByName(books, b);
  }

  /** The grid of the books that are consolidated. */
  ghost function KeptGrid(books: seq<Book>): (grid: real)
    ensures grid > 0.0
  {
    CommonGrid(Ticks(KeptBooks(books)))
  }

  ghost function KeptSlack(books: seq<Book>): real {
    Slack(KeptBooks(books), KeptGrid(books))
  }

  /** What the gate is for: with one book per source, each in order, and a strict majority of the
      mids in `[lo, hi]`, a gate that is not open lets no venue carry the consolidated fair value
      out of the survivors' band, and there is one exactly when the quorum survives. */
  lemma GatedFairValueIsBounded(books: seq<Book>, minSources: nat, lo: real, hi: real)
    requires !Open(books) && MajorityWithin(Sanitize(Mids(books)), PriceOf, lo, hi) && DistinctSources(books)
    requires forall b | b in KeptBooks(books) :: InOrder(b, KeptGrid(books))
    ensures GatedFairValue(books, minSources).Some? <==> |books| >= minSources && |Survivors(books)| >= minSources
    ensures GatedFairValue(books, minSources).Some? ==>
              GatedFairValue(books, minSources).value.price > 0.0
              && InGateBand(GatedFairValue(books, minSources).value.price, lo, hi, KeptSlack(books))
  {
    var kept, grid := KeptBooks(books), KeptGrid(books);
    forall b | b in kept
      ensures Uncrossed(b, grid) && KeyMid(b, grid) > 0.0 && InGateBand(KeyMid(b, grid), lo, hi, KeptSlack(books))
    {
      InOrderIsUncrossed(b, grid, KeptSlack(books));
      KeptMidsAreBounded(books, lo, hi, b);
    }
    ClosedGateKeepsABook(books);
    var i, j := FairValueWithinMids(kept, grid);
    assert kept[i] in kept && kept[j] in kept;
  }
}
