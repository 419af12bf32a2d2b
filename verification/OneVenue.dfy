/** What an open gate lets through: when a single best bid is deeper than everything asked at it and
    below, it decides the consolidated price, whatever the other venues agree on. */
module OneVenue {
  import opened Wrappers
  import opened Numbers
  import opened Sums
  import opened OrderStats
  import opened Ladders
  import opened Clearing
  import opened Grid
  import opened Aggregator
  import OB = OrderBook
  import opened BookReader
  import opened BookGate

  type Book = OB.Book

  // ----- depth, from the levels -----

  /** The quantity a level asks at the key or below. */
  ghost function UpTo(grid: real, k: int): OB.Level -> real
    requires grid > 0.0
  {
    (l: OB.Level) => if l.price > 0.0 && l.quantity > 0.0 && KeyOf(l.price, grid) <= k then l.quantity else 0.0
  }

  ghost function BookUpTo(grid: real, k: int): Book -> real
    requires grid > 0.0
  {
    (b: Book) => Sum(b.asks, UpTo(grid, k))
  }

  /** All that the books ask at the key or below. */
  ghost function AskedUpTo(books: seq<Book>, grid: real, k: int): real
    requires grid > 0.0
  {
    Sum(books, BookUpTo(grid, k))
  }

  lemma {:induction false} AddLevelsDepth(m: Ladder, levels: seq<OB.Level>, grid: real, k: int)
    requires grid > 0.0 && WellFormed(m)
    ensures DepthTo(OB.AddLevels(m, levels, grid), k) == DepthTo(m, k) + Sum(levels, UpTo(grid, k))
  {
    if levels != [] {
      var n := |levels| - 1;
      AddLevelsDepth(m, levels[..n], grid, k);
      OB.AddLevelsQuantity(m, levels[..n], grid);
      AddLevelDepth(OB.AddLevels(m, levels[..n], grid), levels[n], grid, k);
    }
  }

  lemma AddLevelDepth(m: Ladder, level: OB.Level, grid: real, k: int)
    requires grid > 0.0
    ensures DepthTo(OB.AddLevel(m, level, grid), k) == DepthTo(m, k) + UpTo(grid, k)(level)
  {
    if level.price > 0.0 && level.quantity > 0.0 {
      VolumeChange(m, OB.AddLevel(m, level, grid), KeyOf(level.price, grid), I64_MIN, k + 1);
    }
  }

  lemma {:induction false} AskedIsDepth(books: seq<Book>, grid: real, k: int)
    requires grid > 0.0
    ensures DepthTo(OB.Project(books, OB.Ask, grid), k) == AskedUpTo(books, grid, k)
  {
    if books == [] {
      VolumeOfGap(map[], I64_MIN, k + 1);
    } else {
      var n := |books| - 1;
      AskedIsDepth(books[..n], grid, k);
      OB.ProjectWellFormed(books[..n], OB.Ask, grid);
      AddLevelsDepth(OB.Project(books[..n], OB.Ask, grid), books[n].asks, grid, k);
    }
  }

  // ----- an open gate consolidates everything -----

  /** Every book has a mid that is not sanitised away. */
  ghost predicate AllUsable(books: seq<Book>) {
    forall b | b in books :: TwoSided(b) && Usable(MidSample(b))
  }

  lemma NextMid(front: seq<Book>, b: Book)
    requires TwoSided(b) && Usable(MidSample(b))
    ensures Sanitize(Mids(front + [b])) == Sanitize(Mids(front)) + [Cleaned(MidSample(b))]
  {
    assert (front + [b])[..|front|] == front;
    var samples := Mids(front + [b]);
    assert samples[..|samples| - 1] == Mids(front);
  }

  lemma {:induction false} AllMidsCount(books: seq<Book>)
    requires AllUsable(books)
    ensures |Sanitize(Mids(books))| == |books|
  {
    if books != [] {
      var front, last := books[..|books| - 1], books[|books| - 1];
      assert books == front + [last] && last in books;
      AllMidsCount(front);
      NextMid(front, last);
    }
  }

  lemma OpenKeepsEverything(books: seq<Book>)
    requires Open(books) && AllUsable(books)
    ensures KeptBooks(books) == books && |Survivors(books)| == |books|
  {
    OpenGateKeepsAll(books);
    AllMidsCount(books);
    RetainAll(books, FromSurvivor(Survivors(books)));
  }

  // ----- when the best bid decides -----

  lemma MiddleExactly(kb: int, ka: int, top: int, next: int, grid: real)
    requires grid > 0.0 && kb <= top && ka <= next
    ensures OB.Middle(kb, ka, grid) == OB.Middle(top, next, grid) <==> kb == top && ka == next
  {
    assert OB.Middle(top, next, grid) - OB.Middle(kb, ka, grid) == (top - kb + (next - ka)) as real * grid / 2.0;
    OB.ScaleBoth(0.0, (top - kb + (next - ka)) as real, grid);
    if kb < top || ka < next {
      OB.ScaleBoth(1.0, (top - kb + (next - ka)) as real, grid);
    }
  }

  /** The fair value is the middle of the best bid and the first ask above it. */
  ghost predicate DecidedBy(r: Option<OB.FairValue>, top: int, ka: int, grid: real) {
    r.Some? && r.value.price == OB.Middle(top, ka, grid)
  }

  lemma FairValueDecided(books: seq<Book>, unit: real, grid: real, s: Sides, ka: int)
    requires books != [] && grid == CommonGrid(OB.Ticks(books)) && s == OB.SidesOf(books, grid) && FirstAskAbove(s, ka)
    requires unit >= DUST && Quantized(s.bids, unit) && Quantized(s.asks, unit)
    ensures DecidedBy(OB.FairValueOf(books), LastKey(s.bids), ka, grid) <==>
            s.bids[LastKey(s.bids)] > DepthTo(s.asks, LastKey(s.bids))
  {
    BestBidDecides(s, unit, ka);
    var left := Clear(s);
    if left.bids != map[] {
      ClearOnlyRemoves(s);
      assert LastKey(left.bids) in s.bids.Keys;
      MiddleExactly(LastKey(left.bids), FirstKey(left.asks), LastKey(s.bids), ka, grid);
    }
  }

  /** With an open gate, whole units and an ask above every bid, the gated fair value is the middle
      of the best bid and the first ask above it exactly when that bid is deeper than all the books
      ask at it and below: one venue can decide the price against any number that agree. */
  lemma BestBidDecidesGated(books: seq<Book>, minSources: nat, unit: real, grid: real, s: Sides, ka: int)
    requires books != [] && Open(books) && AllUsable(books) && minSources <= |books|
    requires grid == CommonGrid(OB.Ticks(books)) && s == OB.SidesOf(books, grid) && FirstAskAbove(s, ka)
    requires unit >= DUST && OB.WholeUnits(books, OB.Bid, unit) && OB.WholeUnits(books, OB.Ask, unit)
    ensures DecidedBy(GatedFairValue(books, minSources), LastKey(s.bids), ka, grid) <==>
            s.bids[LastKey(s.bids)] > AskedUpTo(books, grid, LastKey(s.bids))
  {
    OpenKeepsEverything(books);
    OB.ProjectQuantized(books, OB.Bid, grid, unit);
    OB.ProjectQuantized(books, OB.Ask, grid, unit);
    FairValueDecided(books, unit, grid, s, ka);
    AskedIsDepth(books, grid, LastKey(s.bids));
  }

  // ----- four books, three of which agree -----

  lemma {:induction false} AgreeingMids(books: seq<Book>, m: real)
    requires AllUsable(books) && forall b | b in books :: TopMid(b) == m
    ensures forall p | p in Sanitize(Mids(books)) :: p.price == m
  {
    if books != [] {
      var front, last := books[..|books| - 1], books[|books| - 1];
      assert books == front + [last] && last in books;
      AgreeingMids(front, m);
      NextMid(front, last);
    }
  }

  /** Two or more books that agree open the gate for one that does not. */
  lemma AgreeingBooksOpen(agreed: seq<Book>, venue: Book, m: real)
    requires |agreed| >= 2 && AllUsable(agreed + [venue]) && forall b | b in agreed :: TwoSided(b) && TopMid(b) == m
    ensures Open(agreed + [venue])
  {
    var books := agreed + [venue];
    assert venue in books && forall b | b in agreed :: b in books;
    AgreeingMids(agreed, m);
    AllMidsCount(agreed);
    NextMid(agreed, venue);
    var mids, last := Sanitize(Mids(agreed)), Cleaned(MidSample(venue));
    CountAll(mids, PriceOf, m, m);
    CountConcat(mids, [last], PriceOf, m, m);
    AgreementOpensGate(books, m, m);
  }

  ghost function Ask3(price: real): seq<OB.Level> {
    [OB.Level(price, 1.0), OB.Level(price + 1.0, 1.0), OB.Level(price + 2.0, 1.0)]
  }

  ghost function Bid3(price: real, top: real): seq<OB.Level> {
    [OB.Level(price, top), OB.Level(price - 1.0, 1.0), OB.Level(price - 2.0, 1.0)]
  }

  /** Three quotes a side, a tick of 1, at second 1000. */
  ghost function Quoted(source: string, bid: real, top: real, ask: real): Book {
    OB.Book(source, Bid3(bid, top), Ask3(ask), 1.0, 1_000_000)
  }

  ghost function Agreed(): seq<Book> {
    [Quoted("a", 9999.0, 1.0, 10001.0), Quoted("b", 9999.0, 1.0, 10001.0), Quoted("c", 9999.0, 1.0, 10001.0)]
  }

  ghost function Venue(): Book {
    Quoted("d", 20000.0, 10.0, 20001.0)
  }

  lemma QuotedIsSane(source: string, bid: real, top: real, ask: real)
    requires 9999.0 <= bid < ask <= bid + 2.0
    ensures var b := Quoted(source, bid, top, ask);
            SaneQuotes(b, 20.0) && TwoSided(b) && Usable(MidSample(b)) && TopMid(b) == (bid + ask) / 2.0
  {
    assert (ask - bid) / ((bid + ask) / 2.0) <= 2.0 / 9999.0;
  }

  lemma GridOfOnes(ticks: seq<real>)
    requires ticks != [] && forall t | t in ticks :: t == 1.0
    ensures CommonGrid(ticks) == 1.0
  {
    UnitsRoundTrip(10_000_000_000);
    assert FromUnits(10_000_000_000) == 1.0;
    assert ScaledTick(1.0);
    var one := [1.0];
    forall t ensures t in ticks <==> t in one {
      assert ticks[0] in ticks && ticks[0] == one[0];
    }
    GridOrderIndependent(ticks, one);
    assert one[..0] == [];
  }

  // ----- tops of the projected books -----

  lemma LevelIsOffered(books: seq<Book>, side: OB.Side, grid: real, i: nat, l: OB.Level)
    requires grid > 0.0 && i < |books| && l in OB.LevelsOf(books[i], side) && l.price > 0.0 && l.quantity > 0.0
    ensures KeyOf(l.price, grid) in OB.Project(books, side, grid)
  {
    var k := KeyOf(l.price, grid);
    OB.LadderKeysAre(OB.LevelsOf(books[i], side), grid, k);
    assert k in OB.BookLadder(books[i], side, grid);
    OB.ProjectKeys(books, side, grid, k);
  }

  lemma OfferedIsLevel(books: seq<Book>, side: OB.Side, grid: real, k: int) returns (b: Book, l: OB.Level)
    requires grid > 0.0 && k in OB.Project(books, side, grid)
    ensures b in books && l in OB.LevelsOf(b, side) && KeyOf(l.price, grid) == k
  {
    OB.ProjectKeys(books, side, grid, k);
    var i :| 0 <= i < |books| && k in OB.BookLadder(books[i], side, grid);
    b := books[i];
    OB.LadderKeysAre(OB.LevelsOf(b, side), grid, k);
    l :| l in OB.LevelsOf(b, side) && l.price > 0.0 && l.quantity > 0.0 && KeyOf(l.price, grid) == k;
  }

  /** The highest bid of any book is the last key. */
  lemma HighestBid(books: seq<Book>, grid: real, i: nat, l: OB.Level)
    requires grid > 0.0 && i < |books| && l in books[i].bids && l.price > 0.0 && l.quantity > 0.0
    requires forall b, x | b in books && x in b.bids :: x.price <= l.price
    ensures var bids := OB.Project(books, OB.Bid, grid); bids != map[] && LastKey(bids) == KeyOf(l.price, grid)
  {
    var bids := OB.Project(books, OB.Bid, grid);
    LevelIsOffered(books, OB.Bid, grid, i, l);
    var b, x := OfferedIsLevel(books, OB.Bid, grid, LastKey(bids));
    OB.KeyGrows(x.price, l.price, grid);
  }

  /** A key holds at least what one level brings to it. */
  lemma KeyHoldsLevel(books: seq<Book>, side: OB.Side, grid: real, i: nat, j: nat)
    requires grid > 0.0 && i < |books| && j < |OB.LevelsOf(books[i], side)|
    requires var l := OB.LevelsOf(books[i], side)[j]; l.price > 0.0 && l.quantity > 0.0
    ensures var l := OB.LevelsOf(books[i], side)[j];
            Quantity(OB.Project(books, side, grid), KeyOf(l.price, grid)) >= l.quantity
  {
    var levels := OB.LevelsOf(books[i], side);
    var k := KeyOf(levels[j].price, grid);
    OB.ProjectHoldsTotals(books, side, grid);
    forall b | b in books ensures OB.BookQuantityAt(side, grid, k)(b) >= 0.0 {
      SumNonNegative(OB.LevelsOf(b, side), OB.QuantityAt(grid, k));
    }
    SumIncludes(books, i, OB.BookQuantityAt(side, grid, k));
    SumIncludes(levels, j, OB.QuantityAt(grid, k));
  }

  lemma WholeKey(n: int)
    requires I64_MIN <= n < I64_END
    ensures KeyOf(n as real, 1.0) == n
  {
    RoundOfInteger(n);
  }

  // ----- the four books consolidated -----

  ghost function Four(): seq<Book> {
    Agreed() + [Venue()]
  }

  lemma FourAreUsable()
    ensures AllUsable(Four()) && DistinctSources(Four()) && forall b | b in Four() :: SaneQuotes(b, 20.0)
    ensures forall b | b in Agreed() :: TwoSided(b) && TopMid(b) == 10000.0
  {
    QuotedIsSane("a", 9999.0, 1.0, 10001.0);
    QuotedIsSane("b", 9999.0, 1.0, 10001.0);
    QuotedIsSane("c", 9999.0, 1.0, 10001.0);
    QuotedIsSane("d", 20000.0, 10.0, 20001.0);
  }

  lemma FourInWholeUnits()
    ensures OB.WholeUnits(Four(), OB.Bid, 1.0) && OB.WholeUnits(Four(), OB.Ask, 1.0)
  {
    QuotedInUnits("a", 9999.0, 1, 10001.0);
    QuotedInUnits("b", 9999.0, 1, 10001.0);
    QuotedInUnits("c", 9999.0, 1, 10001.0);
    QuotedInUnits("d", 20000.0, 10, 20001.0);
  }

  lemma QuotedInUnits(source: string, bid: real, top: int, ask: real)
    ensures var b := Quoted(source, bid, top as real, ask);
            forall l | l in b.bids || l in b.asks :: Multiple(l.quantity, 1.0)
  {
    assert 1.0 == Units(1, 1.0) && top as real == Units(top, 1.0);
  }

  lemma VenueBidIsBest()
    ensures var bids := OB.Project(Four(), OB.Bid, 1.0); bids != map[] && LastKey(bids) == 20000 && bids[20000] >= 10.0
  {
    var top := OB.Level(20000.0, 10.0);
    assert Four()[3].bids[0] == top;
    WholeKey(20000);
    HighestBid(Four(), 1.0, 3, top);
    KeyHoldsLevel(Four(), OB.Bid, 1.0, 3, 0);
  }

  lemma LittleIsAsked()
    ensures AskedUpTo(Four(), 1.0, 20000) <= 9.0
  {
    AgreedAskLittle();
    VenueAsksAbove();
    assert Four()[..3] == Agreed();
  }

  lemma AgreedAskLittle()
    ensures AskedUpTo(Agreed(), 1.0, 20000) <= 9.0
  {
    var f := BookUpTo(1.0, 20000);
    forall b | b in Agreed() ensures f(b) <= 3.0 {
      SumAtMost(b.asks, UpTo(1.0, 20000), 1.0);
    }
    SumAtMost(Agreed(), f, 3.0);
  }

  lemma VenueAsksAbove()
    ensures BookUpTo(1.0, 20000)(Venue()) <= 0.0
  {
    WholeKey(20001);
    WholeKey(20002);
    WholeKey(20003);
    SumAtMost(Venue().asks, UpTo(1.0, 20000), 0.0);
  }

  lemma VenueAskIsNext()
    ensures 20001 in OB.Project(Four(), OB.Ask, 1.0)
  {
    WholeKey(20001);
    assert Four()[3].asks[0] == OB.Level(20001.0, 1.0);
    LevelIsOffered(Four(), OB.Ask, 1.0, 3, OB.Level(20001.0, 1.0));
  }

  lemma FourBooks() returns (agreed: seq<Book>, venue: Book)
    ensures |agreed| == 3 && AllUsable(agreed + [venue]) && DistinctSources(agreed + [venue])
    ensures forall b | b in agreed + [venue] :: SaneQuotes(b, 20.0)
    ensures forall b | b in agreed :: TwoSided(b) && TopMid(b) == 10000.0
    ensures OB.WholeUnits(agreed + [venue], OB.Bid, 1.0) && OB.WholeUnits(agreed + [venue], OB.Ask, 1.0)
    ensures CommonGrid(OB.Ticks(agreed + [venue])) == 1.0
    ensures var bids := OB.Project(agreed + [venue], OB.Bid, 1.0);
            bids != map[] && LastKey(bids) == 20000 && bids[20000] >= 10.0
    ensures AskedUpTo(agreed + [venue], 1.0, 20000) <= 9.0 && 20001 in OB.Project(agreed + [venue], OB.Ask, 1.0)
  {
    agreed, venue := Agreed(), Venue();
    FourAreUsable();
    FourInWholeUnits();
    GridOfOnes(OB.Ticks(Four()));
    VenueBidIsBest();
    VenueAskIsNext();
    LittleIsAsked();
  }

  /** Three well-quoted venues agree on a mid of 10000, and the fourth, whose bid of 10 units at
      20000 exceeds all they ask, sets the gated fair value to 20000.5. */
  lemma OneVenueDoublesThePrice() returns (agreed: seq<Book>, venue: Book)
    ensures |agreed| == 3 && DistinctSources(agreed + [venue])
    ensures forall b | b in agreed + [venue] :: SaneQuotes(b, 20.0)
    ensures forall b | b in agreed :: TwoSided(b) && TopMid(b) == 10000.0
    ensures var r := GatedFairValue(agreed + [venue], 3); r.Some? && r.value.price == 20000.5
  {
    agreed, venue := FourBooks();
    assert forall b | b in agreed :: b in agreed + [venue];
    AgreeingBooksOpen(agreed, venue, 10000.0);
    DecidedByStep(agreed + [venue], 3, 20000);
  }

  /** On a grid of 1, with the first ask one step above the best bid. */
  lemma DecidedByStep(books: seq<Book>, minSources: nat, top: int)
    requires books != [] && Open(books) && AllUsable(books) && minSources <= |books|
    requires OB.WholeUnits(books, OB.Bid, 1.0) && OB.WholeUnits(books, OB.Ask, 1.0)
    requires CommonGrid(OB.Ticks(books)) == 1.0
    requires OB.Project(books, OB.Bid, 1.0) != map[] && LastKey(OB.Project(books, OB.Bid, 1.0)) == top
    requires OB.Project(books, OB.Bid, 1.0)[top] > AskedUpTo(books, 1.0, top)
    requires top + 1 in OB.Project(books, OB.Ask, 1.0)
    ensures var r := GatedFairValue(books, minSources); r.Some? && r.value.price == top as real + 0.5
  {
    BestBidDecidesGated(books, minSources, 1.0, 1.0, OB.SidesOf(books, 1.0), top + 1);
  }

  // ----- a book that crosses itself on the grid -----

  lemma TwoLevels(a: OB.Level, b: OB.Level, ka: int, kb: int)
    requires a.price > 0.0 && b.price > 0.0 && a.quantity == 1.0 && b.quantity == 1.0
    requires KeyOf(a.price, 1.0) == ka && KeyOf(b.price, 1.0) == kb && ka != kb
    ensures OB.AddLevels(map[], [a, b], 1.0) == map[ka := 1.0, kb := 1.0]
  {
    assert [a, b][..1] == [a] && [a][..0] == [];
    assert OB.AddLevels(map[], [a], 1.0) == map[ka := 1.0];
    assert OB.AddLevels(map[], [a, b], 1.0) == OB.AddLevel(map[ka := 1.0], b, 1.0);
  }

  lemma OneKey(m: Ladder, k: int)
    requires m.Keys == {k}
    ensures m != map[] && LastKey(m) == k && FirstKey(m) == k
  {
    assert k in m;
  }

  lemma TwoKeys(m: Ladder, lo: int, hi: int)
    requires m.Keys == {lo, hi} && lo < hi
    ensures m != map[] && LastKey(m) == hi && FirstKey(m) == lo
  {
    assert lo in m && hi in m;
  }

  lemma MatchAtOneKey(k: int, bid: int, ask: int)
    requires I64_MIN <= bid < k < ask < I64_END
    ensures var s := Sides(map[k := 1.0, bid := 1.0], map[k := 1.0, ask := 1.0]);
            Valid(s) && Clear(s) == Sides(map[bid := 1.0], map[ask := 1.0])
  {
    var s := Sides(map[k := 1.0, bid := 1.0], map[k := 1.0, ask := 1.0]);
    TwoKeys(s.bids, bid, k);
    TwoKeys(s.asks, k, ask);
    var t := Sides(map[bid := 1.0], map[ask := 1.0]);
    assert Round1(s) == t;
    OneKey(t.bids, bid);
    OneKey(t.asks, ask);
  }

  lemma ProjectOne(b: Book, side: OB.Side)
    ensures OB.Project([b], side, 1.0) == OB.AddLevels(map[], OB.LevelsOf(b, side), 1.0)
  {
    assert [b][..0] == [];
    assert OB.Project([], side, 1.0) == map[];
  }

  lemma TouchingFairValue(b: Book, k: int, bid: int, ask: int)
    requires I64_MIN <= bid < k < ask < I64_END && CommonGrid(OB.Ticks([b])) == 1.0
    requires OB.AddLevels(map[], b.bids, 1.0) == map[k := 1.0, bid := 1.0]
    requires OB.AddLevels(map[], b.asks, 1.0) == map[k := 1.0, ask := 1.0]
    ensures OB.FairValueOf([b]).Some? && OB.FairValueOf([b]).value.price == (bid + ask) as real / 2.0
  {
    ProjectOne(b, OB.Bid);
    ProjectOne(b, OB.Ask);
    assert OB.SidesOf([b], 1.0) == Sides(map[k := 1.0, bid := 1.0], map[k := 1.0, ask := 1.0]);
    MatchAtOneKey(k, bid, ask);
    OneKey(map[bid := 1.0], bid);
    OneKey(map[ask := 1.0], ask);
  }

  /** The condition of `GatedFairValueIsBounded` that the top levels fall on different keys is
      needed: on a grid of 1 a bid of 100.2 and an ask of 100.4 meet at key 100 and clear each other,
      and the fair value is the middle of the levels behind them, 50 and 101. */
  lemma TouchingTopsLeaveTheMid() returns (b: Book)
    ensures OB.BestFirst(b) && TwoSided(b) && TopMid(b) == 100.3
    ensures KeyOf(b.bids[0].price, 1.0) == KeyOf(b.asks[0].price, 1.0) && CommonGrid(OB.Ticks([b])) == 1.0
    ensures OB.FairValueOf([b]).Some? && OB.FairValueOf([b]).value.price == 75.5
  {
    var b1, b2, a1, a2 := OB.Level(100.2, 1.0), OB.Level(50.0, 1.0), OB.Level(100.4, 1.0), OB.Level(101.0, 1.0);
    b := OB.Book("a", [b1, b2], [a1, a2], 1.0, 1_000_000);
    GridOfOnes(OB.Ticks([b]));
    TwoLevels(b1, b2, 100, 50);
    TwoLevels(a1, a2, 100, 101);
    TouchingFairValue(b, 100, 50, 101);
  }
}
