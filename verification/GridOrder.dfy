/** Exactly when the common grid does not depend on the order of the books. A positive tick below
    half of 1e-10 counts as zero units, and a grid of zero units is replaced by the next tick, not
    rounded; both matter only for the ticks named by `Steady`. */
module GridOrder {
  import opened Numbers
  import opened Grid
  import opened OrderStats

  predicate Tiny(tick: real) {
    tick > 0.0 && TickUnits(tick) == 0
  }

  predicate Coarse(tick: real) {
    tick > 0.0 && TickUnits(tick) > 0
  }

  ghost function Tinies(ticks: seq<real>): nat {
    |Retain(ticks, Tiny)|
  }

  ghost function Coarses(ticks: seq<real>): nat {
    |Retain(ticks, Coarse)|
  }

  // ----- the value of the loop, in any order -----

  /** What `g` is after the ticks. */
  ghost predicate GridShape(g: real, ticks: seq<real>) {
    var z, c := Tinies(ticks), Coarses(ticks);
    && (c == 0 ==> if z % 2 == 0 then g == 0.0 else Tiny(g) && g in ticks)
    && (c > 0 ==> Coarse(g) && GreatestUnits(TickUnits(g), ticks))
    && (c == 1 && z == 0 ==> g in ticks)
    && (c == 1 && z % 2 == 0 ==> g in ticks || ScaledTick(g))
    && ((c == 1 && z % 2 == 1) || c > 1 ==> ScaledTick(g))
  }

  lemma {:induction false} RawGridShape(ticks: seq<real>)
    ensures GridShape(RawGrid(ticks), ticks)
  {
    if ticks != [] {
      var n := |ticks| - 1;
      var front, tick := ticks[..n], ticks[n];
      assert ticks == front + [tick];
      RawGridShape(front);
      if tick <= 0.0 {
        SkipShape(RawGrid(front), front, tick);
      } else if Tiny(tick) {
        TinyShape(RawGrid(front), front, tick);
      } else {
        CoarseShape(RawGrid(front), front, tick);
      }
    }
  }

  lemma Appended(front: seq<real>, tick: real)
    ensures Tinies(front + [tick]) == Tinies(front) + if Tiny(tick) then 1 else 0
    ensures Coarses(front + [tick]) == Coarses(front) + if Coarse(tick) then 1 else 0
  {
    assert (front + [tick])[..|front|] == front;
  }

  lemma SkipShape(g: real, front: seq<real>, tick: real)
    requires GridShape(g, front) && tick <= 0.0
    ensures GridShape(g, front + [tick])
  {
    Appended(front, tick);
    var ticks := front + [tick];
    forall t | t > 0.0 ensures t in ticks <==> t in front {}
    assert forall d :: CommonDivisor(d, ticks) <==> CommonDivisor(d, front);
  }

  lemma FromUnitsIsScaled(u: nat)
    requires 0 < u < U64_END
    ensures ScaledTick(FromUnits(u)) && FromUnits(u) > 0.0 && TickUnits(FromUnits(u)) == u
  {
    UnitsRoundTrip(u);
  }

  lemma TinyShape(g: real, front: seq<real>, tick: real)
    requires GridShape(g, front) && Tiny(tick)
    ensures GridShape(AddTick(g, tick), front + [tick])
  {
    Appended(front, tick);
    if Coarses(front) > 0 {
      FromUnitsIsScaled(TickUnits(g));
      NextUnits(TickUnits(g), tick, front, front + [tick]);
    }
  }

  lemma NoCoarse(ticks: seq<real>)
    requires Coarses(ticks) == 0
    ensures GreatestUnits(0, ticks)
  {
    forall t | t in ticks && t > 0.0 ensures TickUnits(t) == 0 {
      assert Coarse(t) ==> t in Retain(ticks, Coarse);
    }
    forall d ensures Divides(d, 0) {
      DividesItselfAndZero(d);
    }
  }

  lemma CoarseShape(g: real, front: seq<real>, tick: real)
    requires GridShape(g, front) && Coarse(tick)
    ensures GridShape(AddTick(g, tick), front + [tick])
  {
    Appended(front, tick);
    if Coarses(front) == 0 {
      NoCoarse(front);
    }
    var u := if Coarses(front) == 0 then 0 else TickUnits(g);
    NextUnits(u, tick, front, front + [tick]);
    GcdBounds(u, TickUnits(tick));
    FromUnitsIsScaled(Gcd(u, TickUnits(tick)));
  }

  // ----- when the order matters -----

  /** Excluded are the two ways the order can matter: a single coarse tick, not a whole number of
      1e-10, among a positive even number of tiny ones; and an odd number of tiny ticks, not all
      equal, without a coarse one. */
  ghost predicate Steady(ticks: seq<real>) {
    && (Coarses(ticks) == 1 && Tinies(ticks) > 0 && Tinies(ticks) % 2 == 0 ==>
          forall t | t in ticks && Coarse(t) :: ScaledTick(t))
    && (Coarses(ticks) == 0 && Tinies(ticks) % 2 == 1 ==>
          forall t, u | t in ticks && u in ticks && Tiny(t) && Tiny(u) :: t == u)
  }

  lemma SteadyGrid(ticks: seq<real>, other: seq<real>)
    requires Steady(ticks) && multiset(ticks) == multiset(other)
    ensures CommonGrid(ticks) == CommonGrid(other)
  {
    RawGridShape(ticks);
    RawGridShape(other);
    SameCounts(ticks, other);
    SameElements(ticks, other);
    var g, h := RawGrid(ticks), RawGrid(other);
    if Coarses(ticks) > 0 {
      SameUnits(g, h, ticks, other);
      if Coarses(ticks) == 1 && g in ticks && h in ticks {
        OnlyCoarse(ticks, g, h);
      }
    }
  }

  lemma SameCounts(ticks: seq<real>, other: seq<real>)
    requires multiset(ticks) == multiset(other)
    ensures Tinies(ticks) == Tinies(other) && Coarses(ticks) == Coarses(other)
  {
    RetainPermutes(ticks, other, Tiny);
    RetainPermutes(ticks, other, Coarse);
    SameLength(Retain(ticks, Tiny), Retain(other, Tiny));
    SameLength(Retain(ticks, Coarse), Retain(other, Coarse));
  }

  lemma SameElements(ticks: seq<real>, other: seq<real>)
    requires multiset(ticks) == multiset(other)
    ensures forall t :: t in ticks <==> t in other
  {
    forall t ensures t in ticks <==> t in other {
      assert t in multiset(ticks) <==> t in multiset(other);
    }
  }

  lemma SameUnits(g: real, h: real, ticks: seq<real>, other: seq<real>)
    requires Coarse(g) && Coarse(h)
    requires GreatestUnits(TickUnits(g), ticks) && GreatestUnits(TickUnits(h), other)
    requires forall t :: t in ticks <==> t in other
    ensures TickUnits(g) == TickUnits(h)
  {
    assert CommonDivisor(TickUnits(g), other) && CommonDivisor(TickUnits(h), ticks);
    DividesAntisymmetric(TickUnits(g), TickUnits(h));
  }

  lemma OnlyCoarse(ticks: seq<real>, t: real, u: real)
    requires Coarses(ticks) == 1 && t in ticks && u in ticks && Coarse(t) && Coarse(u)
    ensures t == u
  {
    assert t in Retain(ticks, Coarse) && u in Retain(ticks, Coarse);
  }

  /** The same ticks with one of them moved to the end. */
  lemma MoveLast(ticks: seq<real>, tick: real) returns (rest: seq<real>)
    requires tick in ticks
    ensures multiset(rest + [tick]) == multiset(ticks)
    ensures RawGrid(rest + [tick]) == AddTick(RawGrid(rest), tick) && GridShape(RawGrid(rest), rest)
    ensures Tinies(rest) == Tinies(ticks) - if Tiny(tick) then 1 else 0
    ensures Coarses(rest) == Coarses(ticks) - if Coarse(tick) then 1 else 0
  {
    var i :| 0 <= i < |ticks| && ticks[i] == tick;
    rest := ticks[..i] + ticks[i + 1..];
    assert ticks == ticks[..i] + [tick] + ticks[i + 1..];
    assert (rest + [tick])[..|rest|] == rest;
    Appended(rest, tick);
    SameCounts(rest + [tick], ticks);
    RawGridShape(rest);
  }

  /** Some order ends on `tick` with a grid of zero units before it, and so takes it unrounded. */
  lemma EndsUnrounded(ticks: seq<real>, tick: real) returns (other: seq<real>)
    requires tick in ticks
    requires (Tiny(tick) && Coarses(ticks) == 0 && Tinies(ticks) % 2 == 1)
          || (Coarse(tick) && Coarses(ticks) == 1 && Tinies(ticks) % 2 == 0)
    ensures multiset(other) == multiset(ticks) && CommonGrid(other) == tick
  {
    var rest := MoveLast(ticks, tick);
    other := rest + [tick];
  }

  /** Some order ends on a tiny tick and so rounds the only coarse one. */
  lemma EndsRounded(ticks: seq<real>) returns (other: seq<real>)
    requires Coarses(ticks) == 1 && Tinies(ticks) > 0 && Tinies(ticks) % 2 == 0
    ensures multiset(other) == multiset(ticks) && ScaledTick(CommonGrid(other))
  {
    var tick := Retain(ticks, Tiny)[0];
    assert tick in Retain(ticks, Tiny);
    var rest := MoveLast(ticks, tick);
    FromUnitsIsScaled(TickUnits(RawGrid(rest)));
    other := rest + [tick];
  }

  lemma UnsteadyGrid(ticks: seq<real>) returns (one: seq<real>, other: seq<real>)
    requires !Steady(ticks)
    ensures multiset(one) == multiset(ticks) == multiset(other)
    ensures CommonGrid(one) != CommonGrid(other)
  {
    if Coarses(ticks) == 1 {
      var n :| n in ticks && Coarse(n) && !ScaledTick(n);
      one := EndsUnrounded(ticks, n);
      other := EndsRounded(ticks);
    } else {
      var t, u :| t in ticks && u in ticks && Tiny(t) && Tiny(u) && t != u;
      one := EndsUnrounded(ticks, t);
      other := EndsUnrounded(ticks, u);
    }
  }

  /** The grid is the same in every order of the books exactly when the ticks are steady. */
  lemma GridIsOrderFree(ticks: seq<real>)
    ensures (forall other | multiset(other) == multiset(ticks) :: CommonGrid(other) == CommonGrid(ticks)) <==>
            Steady(ticks)
  {
    if Steady(ticks) {
      forall other | multiset(other) == multiset(ticks) ensures CommonGrid(other) == CommonGrid(ticks) {
        SteadyGrid(ticks, other);
      }
    } else {
      var one, other := UnsteadyGrid(ticks);
      assert CommonGrid(one) != CommonGrid(ticks) || CommonGrid(other) != CommonGrid(ticks);
    }
  }

  /** In particular when no positive tick is below half of 1e-10. */
  lemma NoTinyIsSteady(ticks: seq<real>)
    requires forall t | t in ticks :: !Tiny(t)
    ensures Steady(ticks)
  {
    if Tinies(ticks) > 0 {
      assert Retain(ticks, Tiny)[0] in Retain(ticks, Tiny);
    }
  }
}
