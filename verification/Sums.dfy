/** Sums of a real-valued weight over a sequence. */
module Sums {

  function Sum<T>(s: seq<T>, f: T -> real): real {
    if s == [] then 0.0 else Sum(s[..|s| - 1], f) + f(s[|s| - 1])
  }

  lemma {:induction false} SumConcat<T>(s: seq<T>, t: seq<T>, f: T -> real)
    ensures Sum(s + t, f) == Sum(s, f) + Sum(t, f)
  {
    if t == [] {
      assert s + t == s;
    } else {
      var n := |t| - 1;
      assert (s + t)[..|s + t| - 1] == s + t[..n];
      SumConcat(s, t[..n], f);
    }
  }

  lemma SumPrefix<T>(s: seq<T>, i: nat, f: T -> real)
    requires i < |s|
    ensures Sum(s[..i + 1], f) == Sum(s[..i], f) + f(s[i])
  {
    assert s[..i + 1][..i] == s[..i];
  }

  lemma {:induction false} SumRemove<T>(s: seq<T>, i: nat, f: T -> real)
    requires i < |s|
    ensures Sum(s, f) == Sum(s[..i] + s[i + 1..], f) + f(s[i])
  {
    SumConcat(s[..i], s[i + 1..], f);
    assert s == (s[..i] + [s[i]]) + s[i + 1..];
    SumConcat(s[..i] + [s[i]], s[i + 1..], f);
    assert (s[..i] + [s[i]])[..i] == s[..i];
  }

  lemma SumReplace<T>(s: seq<T>, i: nat, x: T, f: T -> real)
    requires i < |s|
    ensures Sum(s[i := x], f) == Sum(s, f) - f(s[i]) + f(x)
  {
    SumRemove(s, i, f);
    SumRemove(s[i := x], i, f);
    assert s[i := x][..i] + s[i := x][i + 1..] == s[..i] + s[i + 1..];
  }

  /** A sum does not depend on the order of the terms. */
  lemma {:induction false} SumPermutes<T>(s: seq<T>, t: seq<T>, f: T -> real)
    requires multiset(s) == multiset(t)
    ensures Sum(s, f) == Sum(t, f)
  {
    if s == [] {
      assert |multiset(t)| == 0;
    } else {
      var n := |s| - 1;
      assert s == s[..n] + [s[n]];
      assert s[n] in multiset(t);
      var i :| 0 <= i < |t| && t[i] == s[n];
      PermutationRest(s, t, i);
      SumPermutes(s[..n], t[..i] + t[i + 1..], f);
      SumRemove(t, i, f);
    }
  }

  /** Dropping one occurrence of the last element from both sides keeps them permutations. */
  lemma PermutationRest<T>(s: seq<T>, t: seq<T>, i: nat)
    requires s != [] && i < |t| && t[i] == s[|s| - 1]
    requires multiset(s) == multiset(t)
    ensures multiset(s[..|s| - 1]) == multiset(t[..i] + t[i + 1..])
  {
    MultisetLast(s);
    MultisetWithout(t, i);
    CancelElement(multiset(s[..|s| - 1]), multiset(t[..i] + t[i + 1..]), t[i]);
  }

  lemma MultisetLast<T>(s: seq<T>)
    requires s != []
    ensures multiset(s) == multiset(s[..|s| - 1]) + multiset{s[|s| - 1]}
  {
    assert s == s[..|s| - 1] + [s[|s| - 1]];
  }

  lemma MultisetMiddle<T>(a: seq<T>, b: seq<T>, c: seq<T>)
    ensures multiset(a + (b + c)) == multiset(a + c) + multiset(b)
  {
  }

  lemma SplitAt<T>(s: seq<T>, i: nat)
    requires i < |s|
    ensures s == s[..i] + ([s[i]] + s[i + 1..])
  {
  }

  lemma MultisetWithout<T>(s: seq<T>, i: nat)
    requires i < |s|
    ensures multiset(s) == multiset(s[..i] + s[i + 1..]) + multiset{s[i]}
  {
    SplitAt(s, i);
    MultisetMiddle(s[..i], [s[i]], s[i + 1..]);
  }

  lemma CancelElement<T>(a: multiset<T>, b: multiset<T>, x: T)
    requires a + multiset{x} == b + multiset{x}
    ensures a == b
  {
    assert a == (a + multiset{x}) - multiset{x};
    assert b == (b + multiset{x}) - multiset{x};
  }

  /** Term-by-term order carries over to the sums; equality everywhere gives equality. */
  lemma {:induction false} SumMonotone<T>(s: seq<T>, f: T -> real, g: T -> real)
    requires forall x | x in s :: f(x) <= g(x)
    ensures Sum(s, f) <= Sum(s, g)
  {
    if s != [] {
      SumMonotone(s[..|s| - 1], f, g);
    }
  }

  /** A sum of terms that are not negative is at least each of them. */
  lemma SumIncludes<T>(s: seq<T>, i: nat, f: T -> real)
    requires i < |s| && forall x | x in s :: f(x) >= 0.0
    ensures Sum(s, f) >= f(s[i])
  {
    SumRemove(s, i, f);
    SumNonNegative(s[..i] + s[i + 1..], f);
  }

  lemma {:induction false} SumAtMost<T>(s: seq<T>, f: T -> real, c: real)
    requires forall x | x in s :: f(x) <= c
    ensures Sum(s, f) <= |s| as real * c
  {
    if s != [] {
      SumAtMost(s[..|s| - 1], f, c);
      assert |s| as real * c == (|s| - 1) as real * c + c;
    }
  }

  lemma {:induction false} SumAtLeast<T>(s: seq<T>, f: T -> real, c: real)
    requires forall x | x in s :: f(x) >= c
    ensures Sum(s, f) >= |s| as real * c
  {
    if s != [] {
      SumAtLeast(s[..|s| - 1], f, c);
      assert |s| as real * c == (|s| - 1) as real * c + c;
    }
  }

  lemma {:induction false} SumNonNegative<T>(s: seq<T>, f: T -> real)
    requires forall x | x in s :: f(x) >= 0.0
    ensures Sum(s, f) >= 0.0
  {
    if s != [] {
      SumNonNegative(s[..|s| - 1], f);
    }
  }
}
