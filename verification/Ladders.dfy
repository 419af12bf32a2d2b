/** Price ladders of the consolidated order book (grid key -> quantity) and the
    volume standing on a range of keys. A ladder stands for the ordered map the
    clearing loop works on: the best bid is its last key, the best ask its first. */
module Ladders {
  import opened Collections
  import opened Numbers

  type Ladder = map<int, real>

  ghost predicate WellFormed(m: Ladder) {
    forall k | k in m :: I64_MIN <= k < I64_END && m[k] > 0.0
  }

  ghost function Quantity(m: Ladder, k: int): real {
    if k in m then m[k] else 0.0
  }

  /** Two well-formed ladders with the same quantity on every key are equal. */
  lemma SameQuantities(m: Ladder, n: Ladder)
    requires WellFormed(m) && WellFormed(n)
    requires forall k :: Quantity(m, k) == Quantity(n, k)
    ensures m == n
  {
    forall k ensures k in m <==> k in n {
      assert Quantity(m, k) == Quantity(n, k);
    }
    forall k | k in m ensures m[k] == n[k] {
      assert Quantity(m, k) == Quantity(n, k);
    }
  }

  // ----- extreme keys -----

  lemma {:induction false} SomeExtremes(keys: set<int>)
    requires keys != {}
    ensures exists k :: k in keys && forall j | j in keys :: j <= k
    ensures exists k :: k in keys && forall j | j in keys :: k <= j
  {
    var x := AnyElement(keys);
    var rest := keys - {x};
    assert keys == rest + {x};
    if rest != {} {
      SomeExtremes(rest);
      var hi :| hi in rest && forall j | j in rest :: j <= hi;
      var lo :| lo in rest && forall j | j in rest :: lo <= j;
      var top := if x > hi then x else hi;
      var bot := if x < lo then x else lo;
      assert top in keys && forall j | j in keys :: j <= top;
      assert bot in keys && forall j | j in keys :: bot <= j;
    }
  }

  /** `keys().next_back()`: the largest key. */
  function LastKey(m: Ladder): (k: int)
    requires m != map[]
    ensures k in m && forall j | j in m :: j <= k
  {
    assert m.Keys != {};
    SomeExtremes(m.Keys);
    var k :| k in m.Keys && forall j | j in m.Keys :: j <= k;
    k
  }

  /** `keys().next()`: the smallest key. */
  function FirstKey(m: Ladder): (k: int)
    requires m != map[]
    ensures k in m && forall j | j in m :: k <= j
  {
    assert m.Keys != {};
    SomeExtremes(m.Keys);
    var k :| k in m.Keys && forall j | j in m.Keys :: k <= j;
    k
  }

  // ----- volume on a range of keys -----

  ghost function Volume(m: Ladder, lo: int, hi: int): real
    decreases hi - lo
  {
    if lo >= hi then 0.0 else Quantity(m, lo) + Volume(m, lo + 1, hi)
  }

  /** Volume of all levels at keys `p` and up: what a seller at `p` can hit. */
  ghost function DepthFrom(m: Ladder, p: int): real {
    Volume(m, p, I64_END)
  }

  /** Volume of all levels at keys `p` and down: what a buyer at `p` can lift. */
  ghost function DepthTo(m: Ladder, p: int): real {
    Volume(m, I64_MIN, p + 1)
  }

  lemma {:induction false} VolumeSplit(m: Ladder, lo: int, mid: int, hi: int)
    requires lo <= mid <= hi
    ensures Volume(m, lo, hi) == Volume(m, lo, mid) + Volume(m, mid, hi)
    decreases mid - lo
  {
    if lo < mid {
      VolumeSplit(m, lo + 1, mid, hi);
    }
  }

  lemma {:induction false} VolumeNonNegative(m: Ladder, lo: int, hi: int)
    requires WellFormed(m)
    ensures Volume(m, lo, hi) >= 0.0
    decreases hi - lo
  {
    if lo < hi {
      VolumeNonNegative(m, lo + 1, hi);
    }
  }

  lemma {:induction false} VolumeOfGap(m: Ladder, lo: int, hi: int)
    requires forall k | lo <= k < hi :: k !in m
    ensures Volume(m, lo, hi) == 0.0
    decreases hi - lo
  {
    if lo < hi {
      VolumeOfGap(m, lo + 1, hi);
    }
  }

  /** Ladders that agree off `k` differ in volume by the difference at `k`. */
  lemma {:induction false} VolumeChange(m: Ladder, n: Ladder, k: int, lo: int, hi: int)
    requires forall j | j != k :: Quantity(m, j) == Quantity(n, j)
    ensures Volume(n, lo, hi) ==
            Volume(m, lo, hi) + if lo <= k < hi then Quantity(n, k) - Quantity(m, k) else 0.0
    decreases hi - lo
  {
    if lo < hi {
      VolumeChange(m, n, k, lo + 1, hi);
    }
  }

  lemma DepthFromStep(m: Ladder, p: int)
    requires p < I64_END
    ensures DepthFrom(m, p) == Quantity(m, p) + DepthFrom(m, p + 1)
  {
  }

  lemma DepthToStep(m: Ladder, p: int)
    requires p >= I64_MIN
    ensures DepthTo(m, p) == Quantity(m, p) + DepthTo(m, p - 1)
  {
    VolumeSplit(m, I64_MIN, p, p + 1);
    assert Volume(m, p, p + 1) == Quantity(m, p) + Volume(m, p + 1, p + 1);
  }

  /** Depth on the bid side never grows with the price, on the ask side never shrinks. */
  lemma DepthMonotone(m: Ladder, p: int, q: int)
    requires WellFormed(m)
    requires p <= q
    ensures DepthFrom(m, q) <= DepthFrom(m, p)
    ensures DepthTo(m, p) <= DepthTo(m, q)
  {
    if q <= I64_END {
      VolumeSplit(m, p, q, I64_END);
      VolumeNonNegative(m, p, q);
    } else {
      VolumeNonNegative(m, p, I64_END);
    }
    if I64_MIN <= p + 1 {
      VolumeSplit(m, I64_MIN, p + 1, q + 1);
      VolumeNonNegative(m, p + 1, q + 1);
    } else {
      VolumeNonNegative(m, I64_MIN, q + 1);
    }
  }
}
