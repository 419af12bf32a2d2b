/** Sizes of finite sets and of sequences without repetition, and folds over a sequence. */
module Collections {

  lemma AnyElement<T>(s: set<T>) returns (x: T)
    requires s != {}
    ensures x in s
  {
    x :| x in s;
  }

  ghost predicate Distinct<T>(s: seq<T>) {
    forall i, j | 0 <= i < j < |s| :: s[i] != s[j]
  }

  ghost function Elements<T>(s: seq<T>): set<T> {
    set x | x in s
  }

  lemma {:induction false} DistinctSize<T>(s: seq<T>)
    requires Distinct(s)
    ensures |Elements(s)| == |s|
  {
    if s != [] {
      var front, last := s[..|s| - 1], s[|s| - 1];
      DistinctSize(front);
      assert s == front + [last];
      assert Elements(s) == Elements(front) + {last};
    }
  }

  lemma {:induction false} ElementsSize<T>(s: seq<T>)
    ensures |Elements(s)| <= |s|
  {
    if s != [] {
      var front, last := s[..|s| - 1], s[|s| - 1];
      ElementsSize(front);
      assert s == front + [last];
      assert Elements(s) == Elements(front) + {last};
    }
  }

  lemma {:induction false} SubsetSize<T>(a: set<T>, b: set<T>)
    requires a <= b
    ensures |a| <= |b|
  {
    assert b == a + (b - a);
  }

  // ----- folds -----

  function Fold<E, S>(step: (E, S) -> S, items: seq<E>, s: S): S {
    if items == [] then s else step(items[|items| - 1], Fold(step, items[..|items| - 1], s))
  }

  lemma FoldNext<E, S>(step: (E, S) -> S, items: seq<E>, s: S, i: nat)
    requires i < |items|
    ensures Fold(step, items[..i + 1], s) == step(items[i], Fold(step, items[..i], s))
  {
    assert items[..i + 1][..i] == items[..i];
  }

  /** What every step keeps, the fold keeps. */
  lemma {:induction false} FoldKeeps<E(!new), S(!new)>(step: (E, S) -> S, inv: S -> bool, items: seq<E>, s: S)
    requires inv(s) && forall e, t | e in items && inv(t) :: inv(step(e, t))
    ensures inv(Fold(step, items, s))
  {
    if items != [] {
      FoldKeeps(step, inv, items[..|items| - 1], s);
    }
  }

  lemma {:induction false} FoldConcat<E, S>(step: (E, S) -> S, first: seq<E>, rest: seq<E>, s: S)
    ensures Fold(step, first + rest, s) == Fold(step, rest, Fold(step, first, s))
  {
    if rest == [] {
      assert first + rest == first;
    } else {
      var n := |rest| - 1;
      FoldConcat(step, first, rest[..n], s);
      assert (first + rest)[..|first + rest| - 1] == first + rest[..n];
    }
  }
}
