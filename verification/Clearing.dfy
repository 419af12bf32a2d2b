/** The arbitrage-clearing loop of the consolidated order book: while the best bid
    reaches the best ask, both give up the smaller of their quantities, and a level
    left with less than `DUST` is deleted. */
module Clearing {
  import opened Numbers
  import opened Ladders

  const DUST: real := 1.0 / 1_000_000_000_000_000.0

  datatype Sides = Sides(bids: Ladder, asks: Ladder)

  ghost predicate Valid(s: Sides) {
    WellFormed(s.bids) && WellFormed(s.asks)
  }

  predicate Crossed(s: Sides) {
    s.bids != map[] && s.asks != map[] && LastKey(s.bids) >= FirstKey(s.asks)
  }

  /** The quantity one round matches. */
  function Crossing(s: Sides): (v: real)
    requires Crossed(s)
  {
    Least(s.bids[LastKey(s.bids)], s.asks[FirstKey(s.asks)])
  }

  /** Take `v` off level `k`, deleting the level when less than `DUST` is left. */
  function Reduce(m: Ladder, k: int, v: real): Ladder
    requires k in m
  {
    if m[k] - v < DUST && v - m[k] < DUST then m - {k} else m[k := m[k] - v]
  }

  function Round1(s: Sides): Sides
    requires Crossed(s)
  {
    var v := Crossing(s);
    Sides(Reduce(s.bids, LastKey(s.bids), v), Reduce(s.asks, FirstKey(s.asks), v))
  }

  /** What a round takes off the best bid: the match plus the dust it deletes. */
  ghost function BidTaken(s: Sides): real
    requires Crossed(s)
  {
    var k := LastKey(s.bids);
    s.bids[k] - Quantity(Round1(s).bids, k)
  }

  ghost function AskTaken(s: Sides): real
    requires Crossed(s)
  {
    var k := FirstKey(s.asks);
    s.asks[k] - Quantity(Round1(s).asks, k)
  }

  lemma RoundFacts(s: Sides)
    requires Valid(s) && Crossed(s)
    ensures Valid(Round1(s))
    ensures |Round1(s).bids| + |Round1(s).asks| < |s.bids| + |s.asks|
    ensures 0.0 < Crossing(s) <= BidTaken(s) <= s.bids[LastKey(s.bids)]
    ensures 0.0 < Crossing(s) <= AskTaken(s) <= s.asks[FirstKey(s.asks)]
    ensures BidTaken(s) < Crossing(s) + DUST && AskTaken(s) < Crossing(s) + DUST
    ensures BidTaken(s) == Crossing(s) || AskTaken(s) == Crossing(s)
    ensures forall j | j != LastKey(s.bids) :: Quantity(Round1(s).bids, j) == Quantity(s.bids, j)
    ensures forall j | j != FirstKey(s.asks) :: Quantity(Round1(s).asks, j) == Quantity(s.asks, j)
  {
    ReduceSize(s.bids, LastKey(s.bids), Crossing(s));
    ReduceSize(s.asks, FirstKey(s.asks), Crossing(s));
  }

  lemma ReduceSize(m: Ladder, k: int, v: real)
    requires k in m
    ensures |Reduce(m, k, v)| <= |m|
    ensures m[k] == v ==> |Reduce(m, k, v)| < |m|
  {
    assert (m - {k}).Keys == m.Keys - {k};
    assert m[k := m[k] - v].Keys == m.Keys;
  }

  /** The books the loop ends with. */
  function Clear(s: Sides): Sides
    requires Valid(s)
    decreases |s.bids| + |s.asks|
  {
    if Crossed(s) then
      RoundFacts(s);
      Clear(Round1(s))
    else s
  }

  /** Total volume matched on the way. */
  ghost function Matched(s: Sides): real
    requires Valid(s)
    decreases |s.bids| + |s.asks|
  {
    if Crossed(s) then
      RoundFacts(s);
      Crossing(s) + Matched(Round1(s))
    else 0.0
  }

  ghost function Rounds(s: Sides): nat
    requires Valid(s)
    decreases |s.bids| + |s.asks|
  {
    if Crossed(s) then
      RoundFacts(s);
      1 + Rounds(Round1(s))
    else 0
  }

  method ClearCrossing(start: Sides) returns (s: Sides)
    requires Valid(start)
    ensures s == Clear(start)
    ensures Valid(s) && !Crossed(s)
  {
    s := start;
    while Crossed(s)
      invariant Valid(s) && Clear(s) == Clear(start)
      decreases |s.bids| + |s.asks|
    {
      RoundFacts(s);
      var kb, ka := LastKey(s.bids), FirstKey(s.asks);
      var vb, va := s.bids[kb], s.asks[ka];
      var v := Least(vb, va);
      var bids := if vb - v < DUST then s.bids - {kb} else s.bids[kb := vb - v];
      var asks := if va - v < DUST then s.asks - {ka} else s.asks[ka := va - v];
      assert bids == Reduce(s.bids, kb, v) && asks == Reduce(s.asks, ka, v);
      s := Sides(bids, asks);
    }
  }

  // ----- depth seen through one round -----

  lemma BidDepthAfterRound(s: Sides, p: int)
    requires Valid(s) && Crossed(s)
    ensures DepthFrom(s.bids, p) ==
            if p <= LastKey(s.bids) then DepthFrom(Round1(s).bids, p) + BidTaken(s) else 0.0
  {
    RoundFacts(s);
    var k := LastKey(s.bids);
    if p <= k {
      VolumeChange(s.bids, Round1(s).bids, k, p, I64_END);
    } else {
      VolumeOfGap(s.bids, p, I64_END);
    }
  }

  lemma AskDepthAfterRound(s: Sides, p: int)
    requires Valid(s) && Crossed(s)
    ensures DepthTo(s.asks, p) ==
            if p >= FirstKey(s.asks) then DepthTo(Round1(s).asks, p) + AskTaken(s) else 0.0
  {
    RoundFacts(s);
    var k := FirstKey(s.asks);
    if p >= k {
      VolumeChange(s.asks, Round1(s).asks, k, I64_MIN, p + 1);
    } else {
      VolumeOfGap(s.asks, I64_MIN, p + 1);
    }
  }

  // ----- the matched volume is the optimum -----

  /** Volume that could trade at the single price `p`. */
  ghost function Executable(s: Sides, p: int): real {
    Least(DepthFrom(s.bids, p), DepthTo(s.asks, p))
  }

  /** No single price executes more than the loop matched, up to the deleted dust. */
  lemma {:induction false} NoPriceBeatsClearing(s: Sides, p: int)
    requires Valid(s)
    ensures Executable(s, p) <= Matched(s) + Rounds(s) as real * DUST
    decreases |s.bids| + |s.asks|
  {
    if Crossed(s) {
      RoundFacts(s);
      NoPriceBeatsClearing(Round1(s), p);
      BidDepthAfterRound(s, p);
      AskDepthAfterRound(s, p);
      MatchedNonNegative(Round1(s));
      assert Rounds(s) as real * DUST == Rounds(Round1(s)) as real * DUST + DUST;
    } else if s.bids == map[] || LastKey(s.bids) < p {
      VolumeOfGap(s.bids, p, I64_END);
    } else {
      VolumeOfGap(s.asks, I64_MIN, p + 1);
    }
  }

  lemma {:induction false} MatchedNonNegative(s: Sides)
    requires Valid(s)
    ensures Matched(s) >= 0.0
    ensures Crossed(s) ==> Matched(s) > 0.0
    decreases |s.bids| + |s.asks|
  {
    if Crossed(s) {
      RoundFacts(s);
      MatchedNonNegative(Round1(s));
    }
  }

  /** Some single price executes all the loop matched: the last crossing bid. */
  lemma {:induction false} SomePriceExecutesAll(s: Sides) returns (p: int)
    requires Valid(s) && Crossed(s)
    ensures FirstKey(s.asks) <= p <= LastKey(s.bids)
    ensures Matched(s) <= Executable(s, p)
    decreases |s.bids| + |s.asks|
  {
    RoundFacts(s);
    p := LastKey(s.bids);
    if Crossed(Round1(s)) {
      p := SomePriceExecutesAll(Round1(s));
      BestsMoveApart(s);
    }
    RoundExecutes(s, p);
  }

  lemma BestsMoveApart(s: Sides)
    requires Valid(s) && Crossed(s) && Crossed(Round1(s))
    ensures LastKey(Round1(s).bids) <= LastKey(s.bids) && FirstKey(s.asks) <= FirstKey(Round1(s).asks)
  {
    RoundFacts(s);
  }

  /** At every price between the two bests a round executes what it matched, and what can be
      executed after it is never negative. */
  lemma RoundExecutes(s: Sides, p: int)
    requires Valid(s) && Crossed(s) && FirstKey(s.asks) <= p <= LastKey(s.bids)
    ensures Executable(s, p) >= Executable(Round1(s), p) + Crossing(s)
    ensures Executable(Round1(s), p) >= 0.0
  {
    RoundFacts(s);
    BidDepthAfterRound(s, p);
    AskDepthAfterRound(s, p);
    VolumeNonNegative(Round1(s).bids, p, I64_END);
    VolumeNonNegative(Round1(s).asks, I64_MIN, p + 1);
  }

  /** The loop ends uncrossed, within one round per level. */
  lemma {:induction false} ClearTerminates(s: Sides)
    requires Valid(s)
    ensures Valid(Clear(s)) && !Crossed(Clear(s))
    ensures Rounds(s) <= |s.bids| + |s.asks|
    decreases |s.bids| + |s.asks|
  {
    if Crossed(s) {
      RoundFacts(s);
      ClearTerminates(Round1(s));
    }
  }

  // ----- the residual books -----

  ghost function BidRemoved(s: Sides): real
    requires Valid(s)
  {
    DepthFrom(s.bids, I64_MIN) - DepthFrom(Clear(s).bids, I64_MIN)
  }

  ghost function AskRemoved(s: Sides): real
    requires Valid(s)
  {
    DepthTo(s.asks, I64_END) - DepthTo(Clear(s).asks, I64_END)
  }

  /** Both sides lose what was matched, and no more than the dust of the rounds beyond it. */
  lemma {:induction false} Conservation(s: Sides)
    requires Valid(s)
    ensures Matched(s) <= BidRemoved(s) <= Matched(s) + Rounds(s) as real * DUST
    ensures Matched(s) <= AskRemoved(s) <= Matched(s) + Rounds(s) as real * DUST
    decreases |s.bids| + |s.asks|
  {
    if Crossed(s) {
      RoundFacts(s);
      Conservation(Round1(s));
      BidDepthAfterRound(s, I64_MIN);
      AskDepthAfterRound(s, I64_END);
      assert Rounds(s) as real * DUST == Rounds(Round1(s)) as real * DUST + DUST;
    }
  }

  /** What is left of a level of quantity `q` with cumulative depth `depth`, once
      `removed` is taken from the front of the queue. */
  function Remainder(q: real, depth: real, removed: real): real {
    if depth <= removed then 0.0 else Least(q, depth - removed)
  }

  // ----- levels out of reach -----

  /** A bid below every ask is never matched. */
  lemma {:induction false} BidOutOfReach(s: Sides, k: int)
    requires Valid(s) && k in s.bids && forall a | a in s.asks :: k < a
    ensures k in Clear(s).bids && Clear(s).bids[k] == s.bids[k]
    decreases |s.bids| + |s.asks|
  {
    if Crossed(s) {
      RoundFacts(s);
      BidOutOfReach(Round1(s), k);
    }
  }

  /** An ask above every bid is never matched. */
  lemma {:induction false} AskOutOfReach(s: Sides, k: int)
    requires Valid(s) && k in s.asks && forall b | b in s.bids :: b < k
    ensures k in Clear(s).asks && Clear(s).asks[k] == s.asks[k]
    decreases |s.bids| + |s.asks|
  {
    if Crossed(s) {
      RoundFacts(s);
      AskOutOfReach(Round1(s), k);
    }
  }

  /** Clearing adds no level. */
  lemma {:induction false} ClearOnlyRemoves(s: Sides)
    requires Valid(s)
    ensures Clear(s).bids.Keys <= s.bids.Keys && Clear(s).asks.Keys <= s.asks.Keys
    decreases |s.bids| + |s.asks|
  {
    if Crossed(s) {
      RoundFacts(s);
      ClearOnlyRemoves(Round1(s));
    }
  }

  /** With a bid below every ask and an ask above every bid, both sides keep a level, and each
      best that is left lies between that level and the best there was. */
  lemma BestsStayBetween(s: Sides, kb: int, ka: int)
    requires Valid(s) && kb in s.bids && ka in s.asks
    requires (forall a | a in s.asks :: kb < a) && (forall b | b in s.bids :: b < ka)
    ensures Clear(s).bids != map[] && Clear(s).asks != map[]
    ensures kb <= LastKey(Clear(s).bids) <= LastKey(s.bids)
    ensures FirstKey(s.asks) <= FirstKey(Clear(s).asks) <= ka
  {
    BidOutOfReach(s, kb);
    AskOutOfReach(s, ka);
    ClearOnlyRemoves(s);
    assert LastKey(Clear(s).bids) in s.bids.Keys && FirstKey(Clear(s).asks) in s.asks.Keys;
  }

  /** The residual bids are the original ones with the removed volume taken from the
      highest keys first. */
  lemma {:induction false} ResidualBids(s: Sides, k: int)
    requires Valid(s)
    ensures Quantity(Clear(s).bids, k) == Remainder(Quantity(s.bids, k), DepthFrom(s.bids, k), BidRemoved(s))
    decreases |s.bids| + |s.asks|
  {
    if Crossed(s) {
      RoundFacts(s);
      ResidualBids(Round1(s), k);
      BidRemovedByRound(s);
      BidDepthAfterRound(s, k);
      if k == LastKey(s.bids) {
        NothingAbove(s.bids, k);
        NothingAbove(Round1(s).bids, k);
      }
    } else if k in s.bids {
      DepthFromStep(s.bids, k);
      VolumeNonNegative(s.bids, k + 1, I64_END);
    }
  }

  lemma BidRemovedByRound(s: Sides)
    requires Valid(s) && Crossed(s) && Valid(Round1(s))
    ensures BidRemoved(s) == BidRemoved(Round1(s)) + BidTaken(s) && BidRemoved(Round1(s)) >= 0.0
  {
    BidDepthAfterRound(s, I64_MIN);
    Conservation(Round1(s));
    MatchedNonNegative(Round1(s));
  }

  lemma NothingAbove(m: Ladder, k: int)
    requires k < I64_END && forall j | j > k :: j !in m
    ensures DepthFrom(m, k) == Quantity(m, k)
  {
    DepthFromStep(m, k);
    VolumeOfGap(m, k + 1, I64_END);
  }

  lemma NothingBelow(m: Ladder, k: int)
    requires k >= I64_MIN && forall j | j < k :: j !in m
    ensures DepthTo(m, k) == Quantity(m, k)
  {
    DepthToStep(m, k);
    VolumeOfGap(m, I64_MIN, k);
  }

  /** The residual asks are the original ones with the removed volume taken from the
      lowest keys first. */
  lemma {:induction false} ResidualAsks(s: Sides, k: int)
    requires Valid(s)
    ensures Quantity(Clear(s).asks, k) == Remainder(Quantity(s.asks, k), DepthTo(s.asks, k), AskRemoved(s))
    decreases |s.bids| + |s.asks|
  {
    if Crossed(s) {
      RoundFacts(s);
      var t := Round1(s);
      ResidualAsks(t, k);
      AskDepthAfterRound(s, k);
      AskDepthAfterRound(s, I64_END);
      Conservation(t);
      MatchedNonNegative(t);
      if k == FirstKey(s.asks) {
        NothingBelow(s.asks, k);
        NothingBelow(t.asks, k);
      }
    } else if k in s.asks {
      DepthToStep(s.asks, k);
      VolumeNonNegative(s.asks, I64_MIN, k);
    }
  }

  // ----- where the residual spread sits -----

  /** The best bid left is the highest key whose depth exceeds the removed volume:
      `k` is at or below it exactly when more than that stands at `k` and up. */
  lemma {:induction false} BestBidLeft(s: Sides, k: int)
    requires Valid(s)
    requires k < I64_END
    ensures (Clear(s).bids != map[] && k <= LastKey(Clear(s).bids)) <==> DepthFrom(s.bids, k) > BidRemoved(s)
    decreases |s.bids| + |s.asks|
  {
    if Crossed(s) {
      RoundFacts(s);
      var t := Round1(s);
      BestBidLeft(t, k);
      BidDepthAfterRound(s, k);
      BidDepthAfterRound(s, I64_MIN);
      Conservation(t);
      MatchedNonNegative(t);
      if LastKey(s.bids) < k {
        VolumeOfGap(t.bids, k, I64_END);
      }
    } else if s.bids == map[] || LastKey(s.bids) < k {
      VolumeOfGap(s.bids, k, I64_END);
    } else {
      DepthPositive(s.bids, LastKey(s.bids));
      DepthMonotone(s.bids, k, LastKey(s.bids));
    }
  }

  lemma DepthPositive(m: Ladder, k: int)
    requires WellFormed(m) && k in m
    ensures DepthFrom(m, k) > 0.0 && DepthTo(m, k) > 0.0
  {
    DepthFromStep(m, k);
    VolumeNonNegative(m, k + 1, I64_END);
    DepthToStep(m, k);
    VolumeNonNegative(m, I64_MIN, k);
  }

  /** The best ask left is the lowest key whose depth exceeds the removed volume. */
  lemma {:induction false} BestAskLeft(s: Sides, k: int)
    requires Valid(s)
    requires I64_MIN <= k
    ensures (Clear(s).asks != map[] && FirstKey(Clear(s).asks) <= k) <==> DepthTo(s.asks, k) > AskRemoved(s)
    decreases |s.bids| + |s.asks|
  {
    if Crossed(s) {
      RoundFacts(s);
      var t := Round1(s);
      BestAskLeft(t, k);
      AskDepthAfterRound(s, k);
      AskDepthAfterRound(s, I64_END);
      Conservation(t);
      MatchedNonNegative(t);
      if k < FirstKey(s.asks) {
        VolumeOfGap(t.asks, I64_MIN, k + 1);
      }
    } else if s.asks == map[] || FirstKey(s.asks) > k {
      VolumeOfGap(s.asks, I64_MIN, k + 1);
    } else {
      DepthPositive(s.asks, FirstKey(s.asks));
      DepthMonotone(s.asks, FirstKey(s.asks), k);
    }
  }

  // ----- whole units: the loop is exact -----

  ghost function Units(n: int, unit: real): real {
    n as real * unit
  }

  ghost predicate Multiple(x: real, unit: real) {
    exists n :: x == Units(n, unit)
  }

  /** Every quantity is a whole number of `unit`s. */
  ghost predicate Quantized(m: Ladder, unit: real) {
    forall k | k in m :: Multiple(m[k], unit)
  }

  lemma MultipleDifference(x: real, y: real, unit: real)
    requires Multiple(x, unit) && Multiple(y, unit)
    ensures Multiple(x - y, unit)
  {
    var a :| x == Units(a, unit);
    var b :| y == Units(b, unit);
    assert x - y == Units(a - b, unit);
  }

  lemma {:induction false} UnitsGrow(n: int, unit: real)
    requires unit > 0.0
    ensures n >= 1 ==> Units(n, unit) >= unit
    ensures n <= -1 ==> Units(n, unit) <= -unit
  {
    assert n >= 1 ==> (n - 1) as real * unit >= 0.0;
    assert n <= -1 ==> (-1 - n) as real * unit >= 0.0;
  }

  lemma SmallMultipleIsZero(x: real, unit: real)
    requires Multiple(x, unit) && unit >= DUST
    requires 0.0 <= x < DUST
    ensures x == 0.0
  {
    var n :| x == Units(n, unit);
    UnitsGrow(n, unit);
  }

  /** In whole units of at least `DUST`, deleting a level never discards volume. */
  lemma QuantizedRound(s: Sides, unit: real)
    requires Valid(s) && Crossed(s)
    requires unit >= DUST && Quantized(s.bids, unit) && Quantized(s.asks, unit)
    ensures BidTaken(s) == Crossing(s) == AskTaken(s)
    ensures Quantized(Round1(s).bids, unit) && Quantized(Round1(s).asks, unit)
  {
    RoundFacts(s);
    var vb, va, v := s.bids[LastKey(s.bids)], s.asks[FirstKey(s.asks)], Crossing(s);
    MultipleDifference(vb, va, unit);
    MultipleDifference(va, vb, unit);
    MultipleDifference(vb, vb, unit);
    MultipleDifference(va, va, unit);
    if vb - v < DUST { SmallMultipleIsZero(vb - v, unit); }
    if va - v < DUST { SmallMultipleIsZero(va - v, unit); }
  }

  lemma {:induction false} QuantizedConservation(s: Sides, unit: real)
    requires Valid(s)
    requires unit >= DUST && Quantized(s.bids, unit) && Quantized(s.asks, unit)
    ensures BidRemoved(s) == Matched(s) == AskRemoved(s)
    decreases |s.bids| + |s.asks|
  {
    if Crossed(s) {
      RoundFacts(s);
      QuantizedRound(s, unit);
      QuantizedConservation(Round1(s), unit);
      BidDepthAfterRound(s, I64_MIN);
      AskDepthAfterRound(s, I64_END);
    }
  }

  lemma {:induction false} QuantizedNoPriceBeatsClearing(s: Sides, unit: real, p: int)
    requires Valid(s)
    requires unit >= DUST && Quantized(s.bids, unit) && Quantized(s.asks, unit)
    ensures Executable(s, p) <= Matched(s)
    decreases |s.bids| + |s.asks|
  {
    if Crossed(s) {
      RoundFacts(s);
      QuantizedRound(s, unit);
      QuantizedNoPriceBeatsClearing(Round1(s), unit, p);
      BidDepthAfterRound(s, p);
      AskDepthAfterRound(s, p);
      MatchedNonNegative(Round1(s));
    } else {
      NoPriceBeatsClearing(s, p);
    }
  }

  ghost predicate IsOptimum(s: Sides, v: real) {
    && (forall p :: Executable(s, p) <= v)
    && exists p :: Executable(s, p) == v
  }

  /** In whole units the loop matches exactly the largest volume one price can
      execute, and leaves the original books with exactly that volume taken from the
      highest bids and the lowest asks. */
  lemma ClearingIsOptimal(s: Sides, unit: real)
    requires Valid(s)
    requires unit >= DUST && Quantized(s.bids, unit) && Quantized(s.asks, unit)
    ensures IsOptimum(s, Matched(s))
    ensures forall k :: Quantity(Clear(s).bids, k) == Remainder(Quantity(s.bids, k), DepthFrom(s.bids, k), Matched(s))
    ensures forall k :: Quantity(Clear(s).asks, k) == Remainder(Quantity(s.asks, k), DepthTo(s.asks, k), Matched(s))
  {
    QuantizedConservation(s, unit);
    forall p ensures Executable(s, p) <= Matched(s) { QuantizedNoPriceBeatsClearing(s, unit, p); }
    forall k ensures Quantity(Clear(s).bids, k) == Remainder(Quantity(s.bids, k), DepthFrom(s.bids, k), Matched(s)) {
      ResidualBids(s, k);
    }
    forall k ensures Quantity(Clear(s).asks, k) == Remainder(Quantity(s.asks, k), DepthTo(s.asks, k), Matched(s)) {
      ResidualAsks(s, k);
    }
    if Crossed(s) {
      var p := SomePriceExecutesAll(s);
      assert Executable(s, p) <= Matched(s);
    } else {
      VolumeNonNegative(s.asks, I64_MIN, I64_END + 1);
      assert Executable(s, I64_END) == 0.0;
    }
  }

  // ----- when the best bid decides -----

  /** `ka` is the lowest ask above every bid. */
  ghost predicate FirstAskAbove(s: Sides, ka: int) {
    && s.bids != map[] && ka in s.asks && LastKey(s.bids) < ka
    && forall k | k in s.asks :: k <= LastKey(s.bids) || ka <= k
  }

  lemma {:induction false} DepthAcrossGap(m: Ladder, p: int, q: int)
    requires WellFormed(m) && I64_MIN <= p + 1 <= q + 1 && forall k | p < k <= q :: k !in m
    ensures DepthTo(m, q) == DepthTo(m, p)
  {
    VolumeSplit(m, I64_MIN, p + 1, q + 1);
    VolumeOfGap(m, p + 1, q + 1);
  }

  /** No more is executed than is asked at the best bid and below, and no less than the smaller of
      that and the best bid itself. */
  lemma OptimumAtBestBid(s: Sides, v: real)
    requires Valid(s) && s.bids != map[] && IsOptimum(s, v)
    ensures var top := LastKey(s.bids);
            && DepthFrom(s.bids, top) == s.bids[top]
            && Least(s.bids[top], DepthTo(s.asks, top)) <= v <= DepthTo(s.asks, top)
  {
    var top := LastKey(s.bids);
    NothingAbove(s.bids, top);
    assert Executable(s, top) <= v;
    var p :| Executable(s, p) == v;
    if p <= top {
      DepthMonotone(s.asks, p, top);
    } else {
      VolumeOfGap(s.bids, p, I64_END);
      VolumeNonNegative(s.asks, I64_MIN, top + 1);
    }
  }

  /** In whole units the best bid and the first ask above it are the two bests left exactly when
      the best bid exceeds all that is asked at it and below; the ask left is never higher. */
  lemma BestBidDecides(s: Sides, unit: real, ka: int)
    requires Valid(s) && FirstAskAbove(s, ka)
    requires unit >= DUST && Quantized(s.bids, unit) && Quantized(s.asks, unit)
    ensures Clear(s).asks != map[] && FirstKey(Clear(s).asks) <= ka
    ensures var top := LastKey(s.bids);
            (Clear(s).bids != map[] && LastKey(Clear(s).bids) == top && FirstKey(Clear(s).asks) == ka)
            <==> s.bids[top] > DepthTo(s.asks, top)
  {
    ClearingIsOptimal(s, unit);
    QuantizedConservation(s, unit);
    OptimumAtBestBid(s, Matched(s));
    AskOutOfReach(s, ka);
    BestBidSurvives(s);
    FirstAskLeft(s, ka);
  }

  lemma FirstAskLeft(s: Sides, ka: int)
    requires Valid(s) && FirstAskAbove(s, ka) && ka in Clear(s).asks
    ensures FirstKey(Clear(s).asks) <= ka
    ensures FirstKey(Clear(s).asks) == ka <==> DepthTo(s.asks, LastKey(s.bids)) <= AskRemoved(s)
  {
    DepthAcrossGap(s.asks, LastKey(s.bids), ka - 1);
    BestAskLeft(s, ka - 1);
  }

  lemma BestBidSurvives(s: Sides)
    requires Valid(s) && s.bids != map[]
    ensures var top := LastKey(s.bids);
            (Clear(s).bids != map[] && LastKey(Clear(s).bids) == top) <==> DepthFrom(s.bids, top) > BidRemoved(s)
  {
    BestBidLeft(s, LastKey(s.bids));
    ClearOnlyRemoves(s);
    assert Clear(s).bids != map[] ==> LastKey(Clear(s).bids) in s.bids.Keys;
  }

  /** For any quantities, the same holds up to the dust the rounds delete. */
  lemma ClearingIsNearOptimal(s: Sides)
    requires Valid(s)
    ensures forall p :: Executable(s, p) <= Matched(s) + (|s.bids| + |s.asks|) as real * DUST
    ensures exists p :: Executable(s, p) >= Matched(s)
    ensures Matched(s) <= BidRemoved(s) <= Matched(s) + (|s.bids| + |s.asks|) as real * DUST
    ensures Matched(s) <= AskRemoved(s) <= Matched(s) + (|s.bids| + |s.asks|) as real * DUST
  {
    ClearTerminates(s);
    Conservation(s);
    assert Rounds(s) as real * DUST <= (|s.bids| + |s.asks|) as real * DUST;
    forall p ensures Executable(s, p) <= Matched(s) + (|s.bids| + |s.asks|) as real * DUST {
      NoPriceBeatsClearing(s, p);
    }
    if Crossed(s) {
      var p := SomePriceExecutesAll(s);
    } else {
      VolumeNonNegative(s.asks, I64_MIN, I64_END + 1);
      assert Executable(s, I64_END) == 0.0;
    }
  }
}
