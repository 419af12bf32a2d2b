/** The consolidated order book: every venue's levels projected on the common grid,
    crossing volume cleared, and the middle of what is left. */
module OrderBook {
  import opened Wrappers
  import opened Numbers
  import opened Ladders
  import opened Clearing
  import opened Grid
  import opened Sums
  import GridOrder
  import OrderStats

  datatype Level = Level(price: real, quantity: real)

  datatype Book = Book(source: string, bids: seq<Level>, asks: seq<Level>, tick: real, timestampMs: int)

  datatype FairValue = FairValue(price: real, bestBid: real, bestAsk: real, spreadBps: real, sources: nat)

  function Ticks(books: seq<Book>): (ticks: seq<real>)
    ensures |ticks| == |books| && forall i | 0 <= i < |books| :: ticks[i] == books[i].tick
  {
    seq(|books|, i requires 0 <= i < |books| => books[i].tick)
  }

  datatype Side = Bid | Ask

  function LevelsOf(book: Book, side: Side): seq<Level> {
    match side
    case Bid => book.bids
    case Ask => book.asks
  }

  // ----- projection -----

  /** A level without a positive price and quantity is skipped. */
  function AddLevel(m: Ladder, level: Level, grid: real): Ladder
    requires grid > 0.0
  {
    if level.price <= 0.0 || level.quantity <= 0.0 then m
    else
      var key := KeyOf(level.price, grid);
      m[key := (if key in m then m[key] else 0.0) + level.quantity]
  }

  function AddLevels(m: Ladder, levels: seq<Level>, grid: real): Ladder
    requires grid > 0.0
  {
    if levels == [] then m
    else AddLevel(AddLevels(m, levels[..|levels| - 1], grid), levels[|levels| - 1], grid)
  }

  function Project(books: seq<Book>, side: Side, grid: real): Ladder
    requires grid > 0.0
  {
    if books == [] then map[]
    else AddLevels(Project(books[..|books| - 1], side, grid), LevelsOf(books[|books| - 1], side), grid)
  }

  method ProjectLevels(start: Ladder, levels: seq<Level>, grid: real) returns (m: Ladder)
    requires grid > 0.0
    ensures m == AddLevels(start, levels, grid)
  {
    m := start;
    for i := 0 to |levels|
      invariant m == AddLevels(start, levels[..i], grid)
    {
      assert levels[..i + 1][..i] == levels[..i];
      var level := levels[i];
      if level.price <= 0.0 || level.quantity <= 0.0 {
        continue;
      }
      var key := KeyOf(level.price, grid);
      if key !in m {
        m := m[key := 0.0 + level.quantity];
      } else {
        m := m[key := m[key] + level.quantity];
      }
    }
    assert levels[..|levels|] == levels;
  }

  /** The consolidated order book, run as the source runs it. */
  method ConsolidatedOrderBook(books: seq<Book>) returns (r: Option<FairValue>)
    ensures r == FairValueOf(books)
  {
    if books == [] {
      return None;
    }
    var grid := ComputeCommonGrid(Ticks(books));
    var bids, asks := map[], map[];
    for i := 0 to |books|
      invariant bids == Project(books[..i], Bid, grid) && asks == Project(books[..i], Ask, grid)
    {
      assert books[..i + 1][..i] == books[..i];
      bids := ProjectLevels(bids, books[i].bids, grid);
      asks := ProjectLevels(asks, books[i].asks, grid);
    }
    assert books[..|books|] == books;
    ProjectWellFormed(books, Bid, grid);
    ProjectWellFormed(books, Ask, grid);
    var left := ClearCrossing(Sides(bids, asks));
    r := MidOf(left, grid, |books|);
  }

  // ----- its specification -----

  function SidesOf(books: seq<Book>, grid: real): (s: Sides)
    requires grid > 0.0
    ensures Valid(s)
  {
    ProjectWellFormed(books, Bid, grid);
    ProjectWellFormed(books, Ask, grid);
    Sides(Project(books, Bid, grid), Project(books, Ask, grid))
  }

  function Middle(kb: int, ka: int, grid: real): real {
    (kb as real * grid + ka as real * grid) / 2.0
  }

  function MidOf(left: Sides, grid: real, sources: nat): Option<FairValue> {
    if left.bids == map[] || left.asks == map[] then None
    else
      var bestBid := LastKey(left.bids) as real * grid;
      var bestAsk := FirstKey(left.asks) as real * grid;
      var mid := Middle(LastKey(left.bids), FirstKey(left.asks), grid);
      var spread := if mid > 0.0 then (bestAsk - bestBid) / mid * 10_000.0 else 0.0;
      Some(FairValue(mid, bestBid, bestAsk, spread, sources))
  }

  function FairValueOf(books: seq<Book>): Option<FairValue> {
    if books == [] then None
    else
      var grid := CommonGrid(Ticks(books));
      MidOf(Clear(SidesOf(books, grid)), grid, |books|)
  }

  // ----- what the projection holds -----

  ghost function QuantityAt(grid: real, key: int): Level -> real
    requires grid > 0.0
  {
    (level: Level) =>
      if level.price > 0.0 && level.quantity > 0.0 && KeyOf(level.price, grid) == key then level.quantity else 0.0
  }

  ghost function BookQuantityAt(side: Side, grid: real, key: int): Book -> real
    requires grid > 0.0
  {
    (book: Book) => Sum(LevelsOf(book, side), QuantityAt(grid, key))
  }

  /** Total quantity the books offer on one side at one grid key. */
  ghost function BookSum(books: seq<Book>, side: Side, grid: real, key: int): real
    requires grid > 0.0
  {
    Sum(books, BookQuantityAt(side, grid, key))
  }

  lemma {:induction false} AddLevelsQuantity(m: Ladder, levels: seq<Level>, grid: real)
    requires grid > 0.0 && WellFormed(m)
    ensures WellFormed(AddLevels(m, levels, grid))
    ensures forall k :: Quantity(AddLevels(m, levels, grid), k) == Quantity(m, k) + Sum(levels, QuantityAt(grid, k))
  {
    if levels != [] {
      AddLevelsQuantity(m, levels[..|levels| - 1], grid);
    }
  }

  lemma {:induction false} ProjectWellFormed(books: seq<Book>, side: Side, grid: real)
    requires grid > 0.0
    ensures WellFormed(Project(books, side, grid))
  {
    if books != [] {
      var front := books[..|books| - 1];
      ProjectWellFormed(front, side, grid);
      AddLevelsQuantity(Project(front, side, grid), LevelsOf(books[|books| - 1], side), grid);
    }
  }

  /** The projected ladder holds, on every key, exactly the books' total there. */
  lemma {:induction false} ProjectHoldsTotals(books: seq<Book>, side: Side, grid: real)
    requires grid > 0.0
    ensures forall k :: Quantity(Project(books, side, grid), k) == BookSum(books, side, grid, k)
  {
    if books != [] {
      var front := books[..|books| - 1];
      ProjectHoldsTotals(front, side, grid);
      ProjectWellFormed(front, side, grid);
      AddLevelsQuantity(Project(front, side, grid), LevelsOf(books[|books| - 1], side), grid);
    }
  }

  // ----- what the fair value depends on -----

  /** Book lists of one length and grid with the same totals per key, however cut into
      books and levels, have the same fair value. */
  lemma FairValueDependsOnTotals(books: seq<Book>, other: seq<Book>)
    requires |books| == |other|
    requires CommonGrid(Ticks(books)) == CommonGrid(Ticks(other))
    requires forall side, k :: BookSum(books, side, CommonGrid(Ticks(books)), k)
                               == BookSum(other, side, CommonGrid(Ticks(books)), k)
    ensures FairValueOf(books) == FairValueOf(other)
  {
    if books != [] {
      var grid := CommonGrid(Ticks(books));
      forall side ensures Project(books, side, grid) == Project(other, side, grid) {
        ProjectHoldsTotals(books, side, grid);
        ProjectHoldsTotals(other, side, grid);
        ProjectWellFormed(books, side, grid);
        ProjectWellFormed(other, side, grid);
        forall k ensures Quantity(Project(books, side, grid), k) == Quantity(Project(other, side, grid), k) {
          assert BookSum(books, side, grid, k) == BookSum(other, side, grid, k);
        }
        SameQuantities(Project(books, side, grid), Project(other, side, grid));
      }
    }
  }

  /** Reordering the books never changes the fair value, on the ticks whose grid does not depend on
      the order (`GridOrder.GridIsOrderFree`). */
  lemma FairValueOrderIndependent(books: seq<Book>, other: seq<Book>)
    requires multiset(books) == multiset(other)
    requires GridOrder.Steady(Ticks(books))
    ensures FairValueOf(books) == FairValueOf(other)
  {
    assert |multiset(books)| == |books| && |multiset(other)| == |other|;
    TicksOfPermutation(books, other);
    GridOrder.SteadyGrid(Ticks(books), Ticks(other));
    var grid := CommonGrid(Ticks(books));
    forall side, k ensures BookSum(books, side, grid, k) == BookSum(other, side, grid, k) {
      SumPermutes(books, other, BookQuantityAt(side, grid, k));
    }
    FairValueDependsOnTotals(books, other);
  }

  /** Splitting a level in two at the same grid key never changes the fair value. */
  lemma FairValueSplitIndependent(books: seq<Book>, i: nat, pre: seq<Level>, whole: Level, a: Level, b: Level,
                                  post: seq<Level>, side: Side)
    requires i < |books|
    requires LevelsOf(books[i], side) == pre + [whole] + post
    requires a.quantity > 0.0 && b.quantity > 0.0 && whole.quantity == a.quantity + b.quantity
    requires a.price > 0.0 && b.price > 0.0 && whole.price > 0.0
    requires var grid := CommonGrid(Ticks(books));
             KeyOf(a.price, grid) == KeyOf(b.price, grid) == KeyOf(whole.price, grid)
    ensures FairValueOf(books) == FairValueOf(books[i := WithLevels(books[i], side, pre + [a, b] + post)])
  {
    var grid := CommonGrid(Ticks(books));
    var book := WithLevels(books[i], side, pre + [a, b] + post);
    var other := books[i := book];
    assert Ticks(other) == Ticks(books);
    forall s, k ensures BookSum(books, s, grid, k) == BookSum(other, s, grid, k) {
      SplitKeepsTotal(pre, whole, a, b, post, QuantityAt(grid, k));
      SumReplace(books, i, book, BookQuantityAt(s, grid, k));
    }
    FairValueDependsOnTotals(books, other);
  }

  function WithLevels(book: Book, side: Side, levels: seq<Level>): Book {
    match side
    case Bid => book.(bids := levels)
    case Ask => book.(asks := levels)
  }

  lemma SplitKeepsTotal(pre: seq<Level>, whole: Level, a: Level, b: Level, post: seq<Level>, f: Level -> real)
    requires f(whole) == f(a) + f(b)
    ensures Sum(pre + [whole] + post, f) == Sum(pre + [a, b] + post, f)
  {
    SumConcat(pre + [whole], post, f);
    SumConcat(pre, [whole], f);
    SumConcat(pre + [a, b], post, f);
    SumConcat(pre, [a, b], f);
    assert [a, b][..1] == [a] && [whole][..0] == [] && [a][..0] == [];
  }

  lemma TicksOfPermutation(books: seq<Book>, other: seq<Book>)
    requires multiset(books) == multiset(other)
    ensures multiset(Ticks(books)) == multiset(Ticks(other))
  {
    var tick := (b: Book) => b.tick;
    OrderStats.KeysPermute(books, other, tick);
    assert Ticks(books) == OrderStats.Keys(books, tick) && Ticks(other) == OrderStats.Keys(other, tick);
  }

  // ----- where the fair value lies -----

  lemma MidIsBetween(left: Sides, grid: real, sources: nat)
    requires grid > 0.0
    requires left.bids != map[] && left.asks != map[] && !Crossed(left)
    ensures var fv := MidOf(left, grid, sources).value; fv.bestBid < fv.price < fv.bestAsk
  {
    var kb, ka := LastKey(left.bids) as real, FirstKey(left.asks) as real;
    assert kb * grid < ka * grid;
  }

  /** The published middle lies strictly between an uncrossed best bid and best ask. */
  lemma FairValueIsUncrossed(books: seq<Book>)
    requires FairValueOf(books).Some?
    ensures var fv := FairValueOf(books).value; fv.bestBid < fv.price < fv.bestAsk
  {
    var grid := CommonGrid(Ticks(books));
    ClearTerminates(SidesOf(books, grid));
    MidIsBetween(Clear(SidesOf(books, grid)), grid, |books|);
  }

  /** `kb` and `ka` are the two keys next to the volume `v`: the highest with more than
      `v` bid at it and up, and the lowest with more than `v` asked at it and down. */
  ghost predicate Marginal(s: Sides, v: real, kb: int, ka: int) {
    && (forall k | k < I64_END :: k <= kb <==> DepthFrom(s.bids, k) > v)
    && (forall k | I64_MIN <= k :: ka <= k <==> DepthTo(s.asks, k) > v)
  }

  lemma MarginalKeys(s: Sides, unit: real)
    requires Valid(s) && Clear(s).bids != map[] && Clear(s).asks != map[]
    requires unit >= DUST && Quantized(s.bids, unit) && Quantized(s.asks, unit)
    ensures IsOptimum(s, Matched(s))
    ensures Marginal(s, Matched(s), LastKey(Clear(s).bids), FirstKey(Clear(s).asks))
  {
    ClearingIsOptimal(s, unit);
    QuantizedConservation(s, unit);
    var v, kb, ka := Matched(s), LastKey(Clear(s).bids), FirstKey(Clear(s).asks);
    forall k | k < I64_END ensures k <= kb <==> DepthFrom(s.bids, k) > v { BestBidLeft(s, k); }
    forall k | I64_MIN <= k ensures ka <= k <==> DepthTo(s.asks, k) > v { BestAskLeft(s, k); }
  }

  /** With quantities in whole units, the fair value is the middle of the two keys
      marginal to the largest volume a single price can execute. */
  lemma FairValueClosedForm(books: seq<Book>, unit: real, grid: real, s: Sides) returns (v: real, kb: int, ka: int)
    requires FairValueOf(books).Some?
    requires grid == CommonGrid(Ticks(books)) && s == SidesOf(books, grid)
    requires unit >= DUST && Quantized(s.bids, unit) && Quantized(s.asks, unit)
    ensures IsOptimum(s, v) && Marginal(s, v, kb, ka)
    ensures FairValueOf(books).value.price == Middle(kb, ka, grid)
  {
    MarginalKeys(s, unit);
    v, kb, ka := Matched(s), LastKey(Clear(s).bids), FirstKey(Clear(s).asks);
  }

  lemma OptimumIsUnique(s: Sides, v: real, w: real)
    requires IsOptimum(s, v) && IsOptimum(s, w)
    ensures v == w
  {
  }

  /** In whole units there is a fair value exactly when the largest executable volume exhausts
      neither side. */
  lemma FairValueExists(books: seq<Book>, unit: real, grid: real, s: Sides, v: real)
    requires books != [] && grid == CommonGrid(Ticks(books)) && s == SidesOf(books, grid) && IsOptimum(s, v)
    requires unit >= DUST && Quantized(s.bids, unit) && Quantized(s.asks, unit)
    ensures FairValueOf(books).Some? <==> DepthFrom(s.bids, I64_MIN) > v && DepthTo(s.asks, I64_END) > v
  {
    ClearingIsOptimal(s, unit);
    QuantizedConservation(s, unit);
    OptimumIsUnique(s, v, Matched(s));
    ClearTerminates(s);
    BestBidLeft(s, I64_MIN);
    BestAskLeft(s, I64_END);
  }

  // ----- whole units, from the levels -----

  /** Every level's quantity is a whole number of units. */
  ghost predicate WholeUnits(books: seq<Book>, side: Side, unit: real) {
    forall b, l | b in books && l in LevelsOf(b, side) :: Multiple(l.quantity, unit)
  }

  lemma MultipleSum(x: real, y: real, unit: real)
    requires Multiple(x, unit) && Multiple(y, unit)
    ensures Multiple(x + y, unit)
  {
    var a :| x == Units(a, unit);
    var b :| y == Units(b, unit);
    assert x + y == Units(a + b, unit);
  }

  lemma {:induction false} AddLevelsQuantized(m: Ladder, levels: seq<Level>, grid: real, unit: real)
    requires grid > 0.0 && Quantized(m, unit) && forall l | l in levels :: Multiple(l.quantity, unit)
    ensures Quantized(AddLevels(m, levels, grid), unit)
  {
    if levels != [] {
      var n := |levels| - 1;
      AddLevelsQuantized(m, levels[..n], grid, unit);
      var front, key := AddLevels(m, levels[..n], grid), KeyOf(levels[n].price, grid);
      assert levels[n] in levels;
      if key in front {
        MultipleSum(front[key], levels[n].quantity, unit);
      }
    }
  }

  lemma {:induction false} ProjectQuantized(books: seq<Book>, side: Side, grid: real, unit: real)
    requires grid > 0.0 && WholeUnits(books, side, unit)
    ensures Quantized(Project(books, side, grid), unit)
  {
    if books != [] {
      var n := |books| - 1;
      ProjectQuantized(books[..n], side, grid, unit);
      assert books[n] in books;
      AddLevelsQuantized(Project(books[..n], side, grid), LevelsOf(books[n], side), grid, unit);
    }
  }

  // ----- between the books' own mids -----

  /** One book's own ladder. */
  ghost function BookLadder(book: Book, side: Side, grid: real): Ladder
    requires grid > 0.0
  {
    AddLevels(map[], LevelsOf(book, side), grid)
  }

  lemma {:induction false} AddLevelsKeys(m: Ladder, levels: seq<Level>, grid: real)
    requires grid > 0.0
    ensures AddLevels(m, levels, grid).Keys == m.Keys + AddLevels(map[], levels, grid).Keys
  {
    if levels != [] {
      AddLevelsKeys(m, levels[..|levels| - 1], grid);
    }
  }

  /** Some book has a level at the key. */
  ghost predicate Offered(books: seq<Book>, side: Side, grid: real, k: int)
    requires grid > 0.0
  {
    exists i :: 0 <= i < |books| && k in BookLadder(books[i], side, grid)
  }

  lemma OfferedLast(books: seq<Book>, side: Side, grid: real, k: int)
    requires grid > 0.0 && books != []
    ensures Offered(books, side, grid, k) <==>
            Offered(books[..|books| - 1], side, grid, k) || k in BookLadder(books[|books| - 1], side, grid)
  {
    var n := |books| - 1;
    if i :| 0 <= i < n && k in BookLadder(books[..n][i], side, grid) {
      assert k in BookLadder(books[i], side, grid);
    }
    if i :| 0 <= i < |books| && k in BookLadder(books[i], side, grid) {
      assert i < n ==> k in BookLadder(books[..n][i], side, grid);
    }
  }

  /** The projected keys are those of the books. */
  lemma {:induction false} ProjectKeys(books: seq<Book>, side: Side, grid: real, k: int)
    requires grid > 0.0
    ensures k in Project(books, side, grid) <==> Offered(books, side, grid, k)
  {
    if books != [] {
      var n := |books| - 1;
      ProjectKeys(books[..n], side, grid, k);
      AddLevelsKeys(Project(books[..n], side, grid), LevelsOf(books[n], side), grid);
      OfferedLast(books, side, grid, k);
    }
  }

  /** On the grid, the book has both sides and every bid is below every ask. */
  ghost predicate Uncrossed(book: Book, grid: real)
    requires grid > 0.0
  {
    Apart(BookLadder(book, Bid, grid), BookLadder(book, Ask, grid))
  }

  ghost predicate Apart(bids: Ladder, asks: Ladder) {
    bids != map[] && asks != map[] && LastKey(bids) < FirstKey(asks)
  }

  /** The middle of the book's own bests on the grid. */
  ghost function KeyMid(book: Book, grid: real): real
    requires grid > 0.0 && Uncrossed(book, grid)
  {
    Middle(LastKey(BookLadder(book, Bid, grid)), FirstKey(BookLadder(book, Ask, grid)), grid)
  }

  /** The book that holds the lowest ask: its best bid is out of reach of every ask. */
  lemma LowestAskBook(books: seq<Book>, grid: real) returns (i: nat)
    requires grid > 0.0 && books != [] && forall b | b in books :: Uncrossed(b, grid)
    ensures i < |books| && Uncrossed(books[i], grid) && Project(books, Ask, grid) != map[]
    ensures FirstKey(BookLadder(books[i], Ask, grid)) == FirstKey(Project(books, Ask, grid))
    ensures LastKey(BookLadder(books[i], Bid, grid)) in Project(books, Bid, grid)
  {
    var asks := Project(books, Ask, grid);
    assert Uncrossed(books[0], grid);
    ProjectKeys(books, Ask, grid, FirstKey(BookLadder(books[0], Ask, grid)));
    ProjectKeys(books, Ask, grid, FirstKey(asks));
    i :| 0 <= i < |books| && FirstKey(asks) in BookLadder(books[i], Ask, grid);
    assert books[i] in books;
    ProjectKeys(books, Ask, grid, FirstKey(BookLadder(books[i], Ask, grid)));
    ProjectKeys(books, Bid, grid, LastKey(BookLadder(books[i], Bid, grid)));
  }

  lemma HighestBidBook(books: seq<Book>, grid: real) returns (j: nat)
    requires grid > 0.0 && books != [] && forall b | b in books :: Uncrossed(b, grid)
    ensures j < |books| && Uncrossed(books[j], grid) && Project(books, Bid, grid) != map[]
    ensures LastKey(BookLadder(books[j], Bid, grid)) == LastKey(Project(books, Bid, grid))
    ensures FirstKey(BookLadder(books[j], Ask, grid)) in Project(books, Ask, grid)
  {
    var bids := Project(books, Bid, grid);
    assert Uncrossed(books[0], grid);
    ProjectKeys(books, Bid, grid, LastKey(BookLadder(books[0], Bid, grid)));
    ProjectKeys(books, Bid, grid, LastKey(bids));
    j :| 0 <= j < |books| && LastKey(bids) in BookLadder(books[j], Bid, grid);
    assert books[j] in books;
    ProjectKeys(books, Bid, grid, LastKey(BookLadder(books[j], Bid, grid)));
    ProjectKeys(books, Ask, grid, FirstKey(BookLadder(books[j], Ask, grid)));
  }

  lemma MiddleGrows(kb: int, ka: int, kb': int, ka': int, grid: real)
    requires grid > 0.0 && kb <= kb' && ka <= ka'
    ensures Middle(kb, ka, grid) <= Middle(kb', ka', grid)
  {
    assert kb as real * grid <= kb' as real * grid;
    assert ka as real * grid <= ka' as real * grid;
  }

  /** Of books that are each uncrossed the fair value exists, and lies between the mid of the
      book with the lowest ask and the mid of the book with the highest bid: however much the
      books cross each other, clearing cannot carry it outside their own mids. */
  lemma FairValueWithinMids(books: seq<Book>, grid: real) returns (i: nat, j: nat)
    requires books != [] && grid == CommonGrid(Ticks(books))
    requires forall b | b in books :: Uncrossed(b, grid)
    ensures i < |books| && j < |books| && Uncrossed(books[i], grid) && Uncrossed(books[j], grid)
    ensures FairValueOf(books).Some?
    ensures KeyMid(books[i], grid) <= FairValueOf(books).value.price <= KeyMid(books[j], grid)
  {
    var s := SidesOf(books, grid);
    i := LowestAskBook(books, grid);
    j := HighestBidBook(books, grid);
    assert books[i] in books && books[j] in books;
    var kb, ka := LastKey(BookLadder(books[i], Bid, grid)), FirstKey(BookLadder(books[j], Ask, grid));
    BestsStayBetween(s, kb, ka);
    var left := Clear(s);
    MiddleGrows(kb, FirstKey(s.asks), LastKey(left.bids), FirstKey(left.asks), grid);
    MiddleGrows(LastKey(left.bids), FirstKey(left.asks), LastKey(s.bids), ka, grid);
  }

  // ----- books in order -----

  /** The key was not clamped to the range of `i64`. */
  ghost predicate Unclamped(price: real, grid: real)
    requires grid > 0.0
  {
    KeyOf(price, grid) == Round(price * (1.0 / grid))
  }

  /** Levels best first, the top ones with a price and a quantity. */
  ghost predicate BestFirst(book: Book) {
    && book.bids != [] && book.asks != [] && 0.0 < book.bids[0].price && 0.0 < book.asks[0].price
    && book.bids[0].quantity > 0.0 && book.asks[0].quantity > 0.0
    && (forall l | l in book.bids :: l.price <= book.bids[0].price)
    && (forall l | l in book.asks :: l.price >= book.asks[0].price)
  }

  /** Two prices that fall on different keys, unclamped. */
  ghost predicate KeysApart(bid: real, ask: real, grid: real)
    requires grid > 0.0
  {
    Unclamped(bid, grid) && Unclamped(ask, grid) && KeyOf(bid, grid) < KeyOf(ask, grid)
  }

  /** Levels best first, and the top ones apart on the grid. */
  ghost predicate InOrder(book: Book, grid: real)
    requires grid > 0.0
  {
    BestFirst(book) && KeysApart(book.bids[0].price, book.asks[0].price, grid)
  }

  /** A price that its own key stands for exactly. */
  ghost predicate OnGrid(price: real, grid: real)
    requires grid > 0.0
  {
    KeyOf(price, grid) as real * grid == price
  }

  ghost predicate TopsOnGrid(book: Book, grid: real)
    requires grid > 0.0
  {
    book.bids != [] && book.asks != [] && OnGrid(book.bids[0].price, grid) && OnGrid(book.asks[0].price, grid)
  }

  lemma KeyGrows(p: real, q: real, grid: real)
    requires grid > 0.0 && p <= q
    ensures KeyOf(p, grid) <= KeyOf(q, grid)
  {
    assert p * (1.0 / grid) <= q * (1.0 / grid);
    RoundGrows(p * (1.0 / grid), q * (1.0 / grid));
  }

  lemma {:induction false} LadderKeysAre(levels: seq<Level>, grid: real, k: int)
    requires grid > 0.0
    ensures k in AddLevels(map[], levels, grid) <==>
            exists l :: l in levels && l.price > 0.0 && l.quantity > 0.0 && KeyOf(l.price, grid) == k
  {
    if levels != [] {
      var n := |levels| - 1;
      LadderKeysAre(levels[..n], grid, k);
      if l :| l in levels && l.price > 0.0 && l.quantity > 0.0 && KeyOf(l.price, grid) == k {
        assert l != levels[n] ==> l in levels[..n];
      }
    }
  }

  /** Rounding to the grid moves a price by at most half a step. */
  lemma KeyIsNear(price: real, grid: real)
    requires grid > 0.0 && Unclamped(price, grid)
    ensures -grid / 2.0 <= KeyOf(price, grid) as real * grid - price <= grid / 2.0
  {
    var x, k := price * (1.0 / grid), KeyOf(price, grid) as real;
    assert x * grid == price by { InverseCancels(price, grid); }
    ScaleBoth(x - 0.5, k, grid);
    ScaleBoth(k, x + 0.5, grid);
    assert (x - 0.5) * grid == x * grid - grid / 2.0 && (x + 0.5) * grid == x * grid + grid / 2.0;
  }

  lemma InverseCancels(x: real, y: real)
    requires y > 0.0
    ensures x * (1.0 / y) * y == x
  {
    assert (1.0 / y) * y == 1.0;
  }

  lemma ScaleBoth(x: real, y: real, f: real)
    requires x <= y && f > 0.0
    ensures x * f <= y * f
  {
  }

  /** How far the mid on the grid can be from the mid of the top levels. */
  ghost function Slack(books: seq<Book>, grid: real): (slack: real)
    requires grid > 0.0
    ensures slack >= 0.0
  {
    if forall b | b in books :: TopsOnGrid(b, grid) then 0.0 else grid / 2.0
  }

  /** Such a book is uncrossed on the grid, and its mid there is positive and within the slack of
      the mid of its top levels. */
  lemma InOrderIsUncrossed(book: Book, grid: real, slack: real)
    requires grid > 0.0 && InOrder(book, grid) && (slack >= grid / 2.0 || (slack >= 0.0 && TopsOnGrid(book, grid)))
    ensures Uncrossed(book, grid) && KeyMid(book, grid) > 0.0
    ensures var mid := (book.bids[0].price + book.asks[0].price) / 2.0;
            mid - slack <= KeyMid(book, grid) <= mid + slack
  {
    TopBid(book, grid);
    TopAsk(book, grid);
    MiddleIsNear(book.bids[0].price, book.asks[0].price, grid, slack);
    PositiveMiddle(KeyOf(book.bids[0].price, grid), KeyOf(book.asks[0].price, grid), book.bids[0].price, grid);
  }

  lemma MiddleIsNear(bid: real, ask: real, grid: real, slack: real)
    requires grid > 0.0 && KeysApart(bid, ask, grid)
    requires slack >= grid / 2.0 || (slack >= 0.0 && OnGrid(bid, grid) && OnGrid(ask, grid))
    ensures (bid + ask) / 2.0 - slack <= Middle(KeyOf(bid, grid), KeyOf(ask, grid), grid) <= (bid + ask) / 2.0 + slack
  {
    KeyWithin(bid, grid, slack);
    KeyWithin(ask, grid, slack);
    MiddleOfNear(KeyOf(bid, grid), KeyOf(ask, grid), bid, ask, grid, slack);
  }

  lemma KeyWithin(price: real, grid: real, slack: real)
    requires grid > 0.0 && Unclamped(price, grid)
    requires slack >= grid / 2.0 || (slack >= 0.0 && OnGrid(price, grid))
    ensures -slack <= KeyOf(price, grid) as real * grid - price <= slack
  {
    if !OnGrid(price, grid) {
      KeyIsNear(price, grid);
    }
  }

  lemma MiddleOfNear(kb: int, ka: int, bid: real, ask: real, grid: real, slack: real)
    requires -slack <= kb as real * grid - bid <= slack && -slack <= ka as real * grid - ask <= slack
    ensures (bid + ask) / 2.0 - slack <= Middle(kb, ka, grid) <= (bid + ask) / 2.0 + slack
  {
  }

  lemma PositiveMiddle(kb: int, ka: int, price: real, grid: real)
    requires grid > 0.0 && price > 0.0 && kb == KeyOf(price, grid) && kb < ka
    ensures Middle(kb, ka, grid) > 0.0
  {
    assert price * (1.0 / grid) >= 0.0;
    assert kb as real * grid >= 0.0 && ka as real * grid > 0.0;
  }

  /** Top levels at least one grid step apart fall on different keys. */
  lemma StepApart(bid: real, ask: real, grid: real)
    requires grid > 0.0 && ask - bid >= grid && Unclamped(bid, grid) && Unclamped(ask, grid)
    ensures KeysApart(bid, ask, grid)
  {
    StepsApart(bid, ask, grid, 1.0 / grid);
    RoundsApart(bid * (1.0 / grid), ask * (1.0 / grid));
  }

  lemma StepsApart(bid: real, ask: real, grid: real, f: real)
    requires f > 0.0 && grid * f == 1.0 && ask - bid >= grid
    ensures bid * f + 1.0 <= ask * f
  {
    ScaleBoth(bid + grid, ask, f);
    assert (bid + grid) * f == bid * f + grid * f;
  }

  lemma RoundsApart(x: real, y: real)
    requires x + 1.0 <= y
    ensures Round(x) < Round(y)
  {
  }

  /** And so do different prices on the grid. */
  lemma OnGridApart(bid: real, ask: real, grid: real)
    requires grid > 0.0 && bid < ask && OnGrid(bid, grid) && OnGrid(ask, grid)
    ensures KeysApart(bid, ask, grid)
  {
    KeyGrows(bid, ask, grid);
    OnGridUnclamped(bid, grid, KeyOf(bid, grid));
    OnGridUnclamped(ask, grid, KeyOf(ask, grid));
  }

  lemma OnGridUnclamped(price: real, grid: real, k: int)
    requires grid > 0.0 && k == KeyOf(price, grid) && k as real * grid == price
    ensures Unclamped(price, grid)
  {
    ProductCancels(k as real, grid);
    RoundOfInteger(k);
  }

  lemma ProductCancels(x: real, y: real)
    requires y > 0.0
    ensures x * y * (1.0 / y) == x
  {
    assert y * (1.0 / y) == 1.0;
  }

  lemma TopBid(book: Book, grid: real)
    requires grid > 0.0 && BestFirst(book)
    ensures BookLadder(book, Bid, grid) != map[]
    ensures LastKey(BookLadder(book, Bid, grid)) == KeyOf(book.bids[0].price, grid)
  {
    var ladder, top := BookLadder(book, Bid, grid), KeyOf(book.bids[0].price, grid);
    LadderKeysAre(book.bids, grid, top);
    assert book.bids[0] in book.bids;
    LadderKeysAre(book.bids, grid, LastKey(ladder));
    var l :| l in book.bids && l.price > 0.0 && l.quantity > 0.0 && KeyOf(l.price, grid) == LastKey(ladder);
    KeyGrows(l.price, book.bids[0].price, grid);
  }

  lemma TopAsk(book: Book, grid: real)
    requires grid > 0.0 && BestFirst(book)
    ensures BookLadder(book, Ask, grid) != map[]
    ensures FirstKey(BookLadder(book, Ask, grid)) == KeyOf(book.asks[0].price, grid)
  {
    var ladder, top := BookLadder(book, Ask, grid), KeyOf(book.asks[0].price, grid);
    LadderKeysAre(book.asks, grid, top);
    assert book.asks[0] in book.asks;
    LadderKeysAre(book.asks, grid, FirstKey(ladder));
    var l :| l in book.asks && l.price > 0.0 && l.quantity > 0.0 && KeyOf(l.price, grid) == FirstKey(ladder);
    KeyGrows(book.asks[0].price, l.price, grid);
  }
}
