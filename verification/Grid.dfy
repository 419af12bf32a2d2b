/** The common price grid of a set of order books: the greatest common divisor of
    their tick sizes, computed on ticks scaled to integers. */
module Grid {
  import opened Numbers

  const SCALE: real := 10_000_000_000.0

  // ----- divisibility -----

  ghost function Times(k: int, d: int): int {
    k * d
  }

  ghost predicate Divides(d: int, n: int) {
    exists k :: n == Times(k, d)
  }

  lemma DividesSum(d: int, a: int, b: int, q: int)
    requires Divides(d, a) && Divides(d, b)
    ensures Divides(d, a * q + b)
  {
    var i :| a == Times(i, d);
    var j :| b == Times(j, d);
    assert a * q + b == Times(i * q + j, d) by {
      assert (i * d) * q == (i * q) * d;
    }
  }

  lemma DividesTransitive(a: int, b: int, c: int)
    requires Divides(a, b) && Divides(b, c)
    ensures Divides(a, c)
  {
    var i :| b == Times(i, a);
    var j :| c == Times(j, b);
    assert c == Times(j * i, a) by {
      assert j * (i * a) == (j * i) * a;
    }
  }

  lemma DividesAntisymmetric(a: int, b: int)
    requires a > 0 && b > 0
    requires Divides(a, b) && Divides(b, a)
    ensures a == b
  {
    var i :| b == Times(i, a);
    var j :| a == Times(j, b);
    assert i <= 0 ==> i * a <= 0;
    assert j <= 0 ==> j * b <= 0;
    assert (i - 1) * a >= 0 && (j - 1) * b >= 0;
  }

  lemma DividesItselfAndZero(n: int)
    ensures Divides(n, n) && Divides(n, 0)
  {
    assert n == Times(1, n) && 0 == Times(0, n);
  }

  // ----- Euclid -----

  function Gcd(a: nat, b: nat): nat
    decreases b
  {
    if b == 0 then a else Gcd(b, a % b)
  }

  method GcdU64(x: nat, y: nat) returns (a: nat)
    ensures a == Gcd(x, y)
  {
    a := x;
    var b: nat := y;
    while b != 0
      invariant Gcd(a, b) == Gcd(x, y)
      decreases b
    {
      a, b := b, a % b;
    }
  }

  lemma {:induction false} GcdDividesBoth(a: nat, b: nat)
    ensures Divides(Gcd(a, b), a) && Divides(Gcd(a, b), b)
    decreases b
  {
    if b == 0 {
      DividesItselfAndZero(a);
    } else {
      GcdDividesBoth(b, a % b);
      DividesSum(Gcd(a, b), b, a % b, a / b);
    }
  }

  lemma {:induction false} GcdIsGreatest(a: nat, b: nat, d: int)
    requires Divides(d, a) && Divides(d, b)
    ensures Divides(d, Gcd(a, b))
    decreases b
  {
    if b != 0 {
      DividesSum(d, b, a, -(a / b));
      assert b * -(a / b) + a == a % b;
      GcdIsGreatest(b, a % b, d);
    }
  }

  lemma {:induction false} GcdBounds(a: nat, b: nat)
    ensures a > 0 || b > 0 ==> Gcd(a, b) > 0
    ensures Gcd(a, b) <= a || Gcd(a, b) <= b
    decreases b
  {
    if b != 0 {
      GcdBounds(b, a % b);
    }
  }

  // ----- ticks -----

  function TickUnits(tick: real): nat {
    SaturateU64(Round(tick * SCALE))
  }

  function FromUnits(n: nat): real {
    n as real / SCALE
  }

  lemma UnitsRoundTrip(n: nat)
    requires n < U64_END
    ensures TickUnits(FromUnits(n)) == n
  {
    assert FromUnits(n) * SCALE == n as real;
    RoundOfInteger(n);
  }

  /** A positive tick that is a whole number of 1e-10. */
  predicate ScaledTick(tick: real) {
    0 < TickUnits(tick) && tick == FromUnits(TickUnits(tick))
  }

  /** `gcd_f64`. */
  function GcdReal(a: real, b: real): real {
    FromUnits(Gcd(TickUnits(a), TickUnits(b)))
  }

  /** One iteration of the grid loop; a non-positive tick is skipped. */
  function AddTick(g: real, tick: real): real {
    if tick <= 0.0 then g else if g == 0.0 then tick else GcdReal(g, tick)
  }

  function RawGrid(ticks: seq<real>): real {
    if ticks == [] then 0.0 else AddTick(RawGrid(ticks[..|ticks| - 1]), ticks[|ticks| - 1])
  }

  function CommonGrid(ticks: seq<real>): (g: real)
    ensures g > 0.0
  {
    var g := RawGrid(ticks);
    if g <= 0.0 then 0.0001 else g
  }

  method ComputeCommonGrid(ticks: seq<real>) returns (g: real)
    ensures g == CommonGrid(ticks)
  {
    g := 0.0;
    for i := 0 to |ticks|
      invariant g == RawGrid(ticks[..i])
    {
      var tick := ticks[i];
      assert ticks[..i + 1][..i] == ticks[..i];
      if tick <= 0.0 {
        continue;
      }
      if g == 0.0 {
        g := tick;
      } else {
        var units := GcdU64(TickUnits(g), TickUnits(tick));
        g := FromUnits(units);
      }
    }
    assert ticks[..|ticks|] == ticks;
    if g <= 0.0 {
      g := 0.0001;
    }
  }

  ghost predicate AllScaled(ticks: seq<real>) {
    forall t | t in ticks && t > 0.0 :: ScaledTick(t)
  }

  ghost predicate SomePositive(ticks: seq<real>) {
    exists t :: t in ticks && t > 0.0
  }

  /** `d` divides every positive tick, in units of 1e-10. */
  ghost predicate CommonDivisor(d: int, ticks: seq<real>) {
    forall t | t in ticks && t > 0.0 :: Divides(d, TickUnits(t))
  }

  /** `u` is a common divisor of the positive ticks, in units of 1e-10, that every other common
      divisor divides. */
  ghost predicate GreatestUnits(u: nat, ticks: seq<real>) {
    CommonDivisor(u, ticks) && forall d | CommonDivisor(d, ticks) :: Divides(d, u)
  }

  ghost predicate GreatestDivisor(g: real, ticks: seq<real>) {
    g > 0.0 && ScaledTick(g) && GreatestUnits(TickUnits(g), ticks)
  }

  /** On ticks that are whole numbers of 1e-10 the grid is their greatest common divisor. */
  lemma {:induction false} GridIsGcd(ticks: seq<real>)
    requires AllScaled(ticks)
    ensures if SomePositive(ticks) then GreatestDivisor(RawGrid(ticks), ticks) else RawGrid(ticks) == 0.0
  {
    if ticks != [] {
      var n := |ticks| - 1;
      var front, tick := ticks[..n], ticks[n];
      assert ticks == front + [tick];
      GridIsGcd(front);
      if tick <= 0.0 {
        SkippedTick(RawGrid(front), tick, front, ticks);
      } else if !SomePositive(front) {
        FirstTick(tick, front, ticks);
      } else {
        NextTick(RawGrid(front), tick, front, ticks);
      }
    }
  }

  lemma SkippedTick(g: real, tick: real, front: seq<real>, ticks: seq<real>)
    requires tick <= 0.0 && ticks == front + [tick]
    ensures SomePositive(ticks) <==> SomePositive(front)
    ensures GreatestDivisor(g, front) ==> GreatestDivisor(g, ticks)
  {
    forall t | t > 0.0 ensures t in ticks <==> t in front {}
    assert forall d :: CommonDivisor(d, ticks) <==> CommonDivisor(d, front);
  }

  lemma FirstTick(tick: real, front: seq<real>, ticks: seq<real>)
    requires ScaledTick(tick) && tick > 0.0 && ticks == front + [tick]
    requires !SomePositive(front)
    ensures SomePositive(ticks) && GreatestDivisor(tick, ticks)
  {
    assert tick in ticks;
    DividesItselfAndZero(TickUnits(tick));
    forall t | t in ticks && t > 0.0 ensures t == tick {
      if t in front { assert false; }
    }
  }

  lemma NextUnits(a: nat, tick: real, front: seq<real>, ticks: seq<real>)
    requires tick > 0.0 && ticks == front + [tick] && GreatestUnits(a, front)
    ensures GreatestUnits(Gcd(a, TickUnits(tick)), ticks)
  {
    var b := TickUnits(tick);
    assert tick in ticks;
    GcdDividesBoth(a, b);
    forall t | t in ticks && t > 0.0 ensures Divides(Gcd(a, b), TickUnits(t)) {
      if t != tick {
        assert t in front;
        DividesTransitive(Gcd(a, b), a, TickUnits(t));
      }
    }
    forall d | CommonDivisor(d, ticks) ensures Divides(d, Gcd(a, b)) {
      assert CommonDivisor(d, front);
      GcdIsGreatest(a, b, d);
    }
  }

  lemma NextTick(g: real, tick: real, front: seq<real>, ticks: seq<real>)
    requires ScaledTick(tick) && tick > 0.0 && ticks == front + [tick]
    requires GreatestDivisor(g, front)
    ensures SomePositive(ticks) && GreatestDivisor(GcdReal(g, tick), ticks)
  {
    assert tick in ticks;
    GcdBounds(TickUnits(g), TickUnits(tick));
    UnitsRoundTrip(Gcd(TickUnits(g), TickUnits(tick)));
    NextUnits(TickUnits(g), tick, front, ticks);
  }

  /** The grid does not depend on the order or the repetition of the books. */
  lemma GridOrderIndependent(ticks: seq<real>, other: seq<real>)
    requires AllScaled(ticks)
    requires forall t :: t in ticks <==> t in other
    ensures CommonGrid(ticks) == CommonGrid(other)
  {
    GridIsGcd(ticks);
    GridIsGcd(other);
    assert SomePositive(ticks) <==> SomePositive(other);
    if SomePositive(ticks) {
      var a, b := TickUnits(RawGrid(ticks)), TickUnits(RawGrid(other));
      assert CommonDivisor(a, other) && CommonDivisor(b, ticks);
      DividesAntisymmetric(a, b);
    }
  }

  // ----- projecting a price -----

  function KeyOf(price: real, grid: real): (k: int)
    requires grid > 0.0
    ensures I64_MIN <= k < I64_END
  {
    SaturateI64(Round(price * (1.0 / grid)))
  }

  /** A price on some book's tick lands on a key whose grid multiple is that price. */
  lemma OnTickPriceIsExact(ticks: seq<real>, tick: real, steps: int, price: real, g: real)
    requires AllScaled(ticks) && g == CommonGrid(ticks)
    requires tick in ticks && tick > 0.0
    requires price == steps as real * tick && InKeyRange(price, g)
    ensures KeyOf(price, g) as real * g == price
  {
    GridOfTicks(ticks, tick);
    OnGridPrice(g, ticks, tick, steps, price);
  }

  lemma GridOfTicks(ticks: seq<real>, tick: real)
    requires AllScaled(ticks) && tick in ticks && tick > 0.0
    ensures GreatestDivisor(CommonGrid(ticks), ticks) && ScaledTick(tick)
  {
    GridIsGcd(ticks);
  }

  /** The price is not so many grid steps away that the key saturates. */
  ghost predicate InKeyRange(price: real, g: real)
    requires g > 0.0
  {
    I64_MIN as real <= price / g < I64_END as real
  }

  lemma OnGridPrice(g: real, ticks: seq<real>, tick: real, steps: int, price: real)
    requires GreatestDivisor(g, ticks)
    requires tick in ticks && tick > 0.0 && ScaledTick(tick)
    requires price == steps as real * tick && InKeyRange(price, g)
    ensures KeyOf(price, g) as real * g == price
  {
    var n := WholeGridSteps(g, ticks, tick, steps, price);
    ExactKey(n, g, price);
  }

  lemma WholeGridSteps(g: real, ticks: seq<real>, tick: real, steps: int, price: real) returns (n: int)
    requires GreatestDivisor(g, ticks)
    requires tick in ticks && tick > 0.0 && ScaledTick(tick)
    requires price == steps as real * tick
    ensures price == n as real * g && price * (1.0 / g) == n as real
  {
    assert Divides(TickUnits(g), TickUnits(tick));
    var k :| TickUnits(tick) == Times(k, TickUnits(g));
    n := steps * k;
    ScaledProduct(steps, k, TickUnits(g), g, tick, price);
  }

  lemma ExactKey(n: int, g: real, price: real)
    requires g > 0.0 && price == n as real * g && price * (1.0 / g) == n as real
    requires InKeyRange(price, g)
    ensures KeyOf(price, g) == n
  {
    assert price / g == price * (1.0 / g);
    RoundOfInteger(n);
  }

  lemma ScaledProduct(steps: int, k: int, u: nat, g: real, tick: real, price: real)
    requires g == FromUnits(u) && g > 0.0
    requires tick == (k * u) as real / SCALE
    requires price == steps as real * tick
    ensures price == (steps * k) as real * g
    ensures price * (1.0 / g) == (steps * k) as real
  {
    assert (k * u) as real == k as real * u as real;
    assert tick == k as real * g;
    assert (steps * k) as real == steps as real * k as real;
    assert price == (steps as real * k as real) * g;
    assert g * (1.0 / g) == 1.0;
    var n := (steps * k) as real;
    assert (n * g) * (1.0 / g) == n * (g * (1.0 / g));
  }
}
