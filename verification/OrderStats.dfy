/** Stable sorting by a real key, the middle elements of a sorted sequence, and the
    counting facts that make a median resist a minority. */
module OrderStats {
  import opened Sums

  ghost predicate SortedBy<T>(s: seq<T>, key: T -> real) {
    forall i, j | 0 <= i < j < |s| :: key(s[i]) <= key(s[j])
  }

  /** Insert `x` after the elements that do not exceed it. */
  function Insert<T>(s: seq<T>, x: T, key: T -> real): seq<T> {
    if s == [] || key(s[|s| - 1]) <= key(x) then s + [x]
    else Insert(s[..|s| - 1], x, key) + [s[|s| - 1]]
  }

  function Sort<T>(s: seq<T>, key: T -> real): (r: seq<T>)
    ensures |r| == |s|
  {
    if s == [] then []
    else
      InsertLength(Sort(s[..|s| - 1], key), s[|s| - 1], key);
      Insert(Sort(s[..|s| - 1], key), s[|s| - 1], key)
  }

  lemma {:induction false} InsertLength<T>(s: seq<T>, x: T, key: T -> real)
    ensures |Insert(s, x, key)| == |s| + 1
  {
    if s != [] && key(s[|s| - 1]) > key(x) {
      InsertLength(s[..|s| - 1], x, key);
    }
  }

  lemma {:induction false} InsertPermutes<T>(s: seq<T>, x: T, key: T -> real)
    ensures multiset(Insert(s, x, key)) == multiset(s) + multiset{x}
  {
    if s != [] && key(s[|s| - 1]) > key(x) {
      InsertPermutes(s[..|s| - 1], x, key);
      assert s == s[..|s| - 1] + [s[|s| - 1]];
    }
  }

  lemma SortedAppend<T>(s: seq<T>, last: T, key: T -> real)
    requires SortedBy(s, key)
    requires forall i | 0 <= i < |s| :: key(s[i]) <= key(last)
    ensures SortedBy(s + [last], key)
  {
  }

  lemma {:induction false} InsertBounded<T>(s: seq<T>, x: T, key: T -> real, top: real)
    requires key(x) <= top && forall i | 0 <= i < |s| :: key(s[i]) <= top
    ensures forall i | 0 <= i < |Insert(s, x, key)| :: key(Insert(s, x, key)[i]) <= top
  {
    if s != [] && key(s[|s| - 1]) > key(x) {
      InsertBounded(s[..|s| - 1], x, key, top);
    }
  }

  lemma {:induction false} InsertSorts<T>(s: seq<T>, x: T, key: T -> real)
    requires SortedBy(s, key)
    ensures SortedBy(Insert(s, x, key), key)
  {
    if s == [] || key(s[|s| - 1]) <= key(x) {
      SortedAppend(s, x, key);
    } else {
      var front, last := s[..|s| - 1], s[|s| - 1];
      InsertSorts(front, x, key);
      InsertBounded(front, x, key, key(last));
      SortedAppend(Insert(front, x, key), last, key);
    }
  }

  /** Sorting yields a sorted permutation. */
  lemma {:induction false} SortSorts<T>(s: seq<T>, key: T -> real)
    ensures SortedBy(Sort(s, key), key)
    ensures multiset(Sort(s, key)) == multiset(s)
  {
    if s != [] {
      SortSorts(s[..|s| - 1], key);
      InsertSorts(Sort(s[..|s| - 1], key), s[|s| - 1], key);
      InsertPermutes(Sort(s[..|s| - 1], key), s[|s| - 1], key);
      assert s == s[..|s| - 1] + [s[|s| - 1]];
    }
  }

  // ----- sequences of numbers -----

  function Value(x: real): real {
    x
  }

  /** Sorted permutations of each other are equal. */
  lemma {:induction false} SortedUnique(s: seq<real>, t: seq<real>)
    requires SortedBy(s, Value) && SortedBy(t, Value)
    requires multiset(s) == multiset(t)
    ensures s == t
  {
    assert |s| == |multiset(s)| && |t| == |multiset(t)|;
    if s != [] {
      var n := |s| - 1;
      LastIsLargest(s, t[n]);
      LastIsLargest(t, s[n]);
      DropLast(s, t);
      SortedUnique(s[..n], t[..n]);
    }
  }

  lemma DropLast<T>(s: seq<T>, t: seq<T>)
    requires s != [] && t != [] && s[|s| - 1] == t[|t| - 1]
    requires multiset(s) == multiset(t)
    ensures multiset(s[..|s| - 1]) == multiset(t[..|t| - 1])
  {
    MultisetLast(s);
    MultisetLast(t);
    CancelElement(multiset(s[..|s| - 1]), multiset(t[..|t| - 1]), s[|s| - 1]);
  }

  lemma LastIsLargest(s: seq<real>, x: real)
    requires SortedBy(s, Value) && x in multiset(s)
    ensures s != [] && x <= s[|s| - 1]
  {
    var i :| 0 <= i < |s| && s[i] == x;
    assert i < |s| - 1 ==> Value(s[i]) <= Value(s[|s| - 1]);
  }

  lemma SortOfSorted(s: seq<real>)
    requires SortedBy(s, Value)
    ensures Sort(s, Value) == s
  {
    SortSorts(s, Value);
    SortedUnique(Sort(s, Value), s);
  }

  lemma SortPermutes(s: seq<real>, t: seq<real>)
    requires multiset(s) == multiset(t)
    ensures Sort(s, Value) == Sort(t, Value)
  {
    SortSorts(s, Value);
    SortSorts(t, Value);
    SortedUnique(Sort(s, Value), Sort(t, Value));
  }

  /** The middle value of a sorted sequence, or the mean of the two middle ones. */
  function Middle(s: seq<real>): real
    requires s != []
  {
    if |s| % 2 == 0 then (s[|s| / 2 - 1] + s[|s| / 2]) / 2.0 else s[|s| / 2]
  }

  /** `median_sorted`. */
  function Median(values: seq<real>): real
    requires values != []
  {
    Middle(Sort(values, Value))
  }

  // ----- counting -----

  /** How many elements have their key in `[lo, hi]`. */
  ghost function CountWithin<T>(s: seq<T>, key: T -> real, lo: real, hi: real): nat {
    if s == [] then 0
    else CountWithin(s[..|s| - 1], key, lo, hi) + if lo <= key(s[|s| - 1]) <= hi then 1 else 0
  }

  /** A strict majority of `s` has its key in `[lo, hi]`. */
  ghost predicate MajorityWithin<T>(s: seq<T>, key: T -> real, lo: real, hi: real) {
    2 * CountWithin(s, key, lo, hi) > |s|
  }

  lemma {:induction false} CountInsert<T>(s: seq<T>, x: T, key: T -> real, lo: real, hi: real)
    ensures CountWithin(Insert(s, x, key), key, lo, hi) ==
            CountWithin(s, key, lo, hi) + if lo <= key(x) <= hi then 1 else 0
  {
    if s == [] || key(s[|s| - 1]) <= key(x) {
      assert (s + [x])[..|s|] == s;
    } else {
      CountInsert(s[..|s| - 1], x, key, lo, hi);
      var front := Insert(s[..|s| - 1], x, key);
      assert (front + [s[|s| - 1]])[..|front|] == front;
    }
  }

  lemma {:induction false} CountSort<T>(s: seq<T>, key: T -> real, lo: real, hi: real)
    ensures CountWithin(Sort(s, key), key, lo, hi) == CountWithin(s, key, lo, hi)
  {
    if s != [] {
      CountSort(s[..|s| - 1], key, lo, hi);
      CountInsert(Sort(s[..|s| - 1], key), s[|s| - 1], key, lo, hi);
    }
  }

  /** The first `n` elements contribute nothing when all lie outside the window. */
  lemma {:induction false} CountAfterPrefix<T>(s: seq<T>, key: T -> real, lo: real, hi: real, n: nat)
    requires n <= |s|
    requires forall i | 0 <= i < n :: !(lo <= key(s[i]) <= hi)
    ensures CountWithin(s, key, lo, hi) <= |s| - n
  {
    if s != [] {
      CountAfterPrefix(s[..|s| - 1], key, lo, hi, if n == |s| then n - 1 else n);
    }
  }

  /** The elements from `n` on contribute nothing when all lie outside the window. */
  lemma {:induction false} CountBeforeSuffix<T>(s: seq<T>, key: T -> real, lo: real, hi: real, n: nat)
    requires n <= |s|
    requires forall i | n <= i < |s| :: !(lo <= key(s[i]) <= hi)
    ensures CountWithin(s, key, lo, hi) <= n
  {
    if s != [] {
      CountBeforeSuffix(s[..|s| - 1], key, lo, hi, if n == |s| then n - 1 else n);
    }
  }

  /** When a strict majority lies in the window, so do both middle elements. */
  lemma MiddlesWithin<T>(s: seq<T>, key: T -> real, lo: real, hi: real)
    requires MajorityWithin(s, key, lo, hi)
    ensures lo <= key(Sort(s, key)[(|s| - 1) / 2]) <= hi
    ensures lo <= key(Sort(s, key)[|s| / 2]) <= hi
  {
    SortSorts(s, key);
    CountSort(s, key, lo, hi);
    MiddleWithin(Sort(s, key), key, lo, hi, (|s| - 1) / 2);
    MiddleWithin(Sort(s, key), key, lo, hi, |s| / 2);
  }

  lemma MiddleWithin<T>(t: seq<T>, key: T -> real, lo: real, hi: real, m: nat)
    requires SortedBy(t, key) && MajorityWithin(t, key, lo, hi)
    requires m < |t| && |t| - 2 <= 2 * m <= |t|
    ensures lo <= key(t[m]) <= hi
  {
    if key(t[m]) < lo {
      CountAfterPrefix(t, key, lo, hi, m + 1);
    } else if key(t[m]) > hi {
      CountBeforeSuffix(t, key, lo, hi, m);
    }
  }

  /** The median of numbers of which a strict majority lies in the window is in it. */
  lemma MedianWithin(values: seq<real>, lo: real, hi: real)
    requires MajorityWithin(values, Value, lo, hi)
    ensures values != [] && lo <= Median(values) <= hi
  {
    MiddlesWithin(values, Value, lo, hi);
  }

  lemma MedianPermutes(s: seq<real>, t: seq<real>)
    requires s != [] && multiset(s) == multiset(t)
    ensures |t| == |s| && Median(s) == Median(t)
  {
    SortPermutes(s, t);
    assert |multiset(s)| == |s| && |multiset(t)| == |t|;
  }

  // ----- filtering -----

  /** `retain`. */
  function Retain<T>(s: seq<T>, keep: T -> bool): (r: seq<T>)
    ensures |r| <= |s|
    ensures forall x | x in r :: x in s && keep(x)
    ensures forall x | x in s && keep(x) :: x in r
  {
    if s == [] then []
    else
      var front := Retain(s[..|s| - 1], keep);
      if keep(s[|s| - 1]) then front + [s[|s| - 1]] else front
  }

  lemma {:induction false} RetainAll<T>(s: seq<T>, keep: T -> bool)
    requires forall x | x in s :: keep(x)
    ensures Retain(s, keep) == s
  {
    if s != [] {
      RetainAll(s[..|s| - 1], keep);
    }
  }

  /** Filtering that spares the window leaves the window's count as it was. */
  lemma {:induction false} RetainKeepsCount<T>(s: seq<T>, keep: T -> bool, key: T -> real, lo: real, hi: real)
    requires forall x | x in s && lo <= key(x) <= hi :: keep(x)
    ensures CountWithin(Retain(s, keep), key, lo, hi) == CountWithin(s, key, lo, hi)
  {
    if s != [] {
      RetainKeepsCount(s[..|s| - 1], keep, key, lo, hi);
      var front := Retain(s[..|s| - 1], keep);
      assert (front + [s[|s| - 1]])[..|front|] == front;
    }
  }

  /** A majority in the window is still a majority after such a filter. */
  lemma RetainKeepsMajority<T>(s: seq<T>, keep: T -> bool, key: T -> real, lo: real, hi: real)
    requires MajorityWithin(s, key, lo, hi)
    requires forall x | x in s && lo <= key(x) <= hi :: keep(x)
    ensures MajorityWithin(Retain(s, keep), key, lo, hi)
  {
    RetainKeepsCount(s, keep, key, lo, hi);
  }

  /** Counting through a map on the elements. */
  lemma {:induction false} CountMapped<T, U>(s: seq<T>, t: seq<U>, key: T -> real, key': U -> real,
                                             lo: real, hi: real, lo': real, hi': real)
    requires |s| == |t|
    requires forall i | 0 <= i < |s| :: lo <= key(s[i]) <= hi ==> lo' <= key'(t[i]) <= hi'
    ensures CountWithin(s, key, lo, hi) <= CountWithin(t, key', lo', hi')
  {
    if s != [] {
      CountMapped(s[..|s| - 1], t[..|t| - 1], key, key', lo, hi, lo', hi');
    }
  }

  // ----- permutations through maps and filters -----

  /** The keys of the elements, in order. */
  function Keys<T>(s: seq<T>, key: T -> real): (r: seq<real>)
    ensures |r| == |s| && forall i | 0 <= i < |s| :: r[i] == key(s[i])
  {
    if s == [] then [] else Keys(s[..|s| - 1], key) + [key(s[|s| - 1])]
  }

  lemma {:induction false} CountKeys<T>(s: seq<T>, key: T -> real, lo: real, hi: real)
    ensures CountWithin(Keys(s, key), Value, lo, hi) == CountWithin(s, key, lo, hi)
  {
    if s != [] {
      CountKeys(s[..|s| - 1], key, lo, hi);
      assert Keys(s, key)[..|s| - 1] == Keys(s[..|s| - 1], key);
    }
  }

  lemma {:induction false} KeysConcat<T>(s: seq<T>, t: seq<T>, key: T -> real)
    ensures Keys(s + t, key) == Keys(s, key) + Keys(t, key)
  {
  }

  lemma {:induction false} RetainConcat<T>(s: seq<T>, t: seq<T>, keep: T -> bool)
    ensures Retain(s + t, keep) == Retain(s, keep) + Retain(t, keep)
  {
    if t == [] {
      assert s + t == s;
    } else {
      var n := |t| - 1;
      assert (s + t)[..|s + t| - 1] == s + t[..n];
      RetainConcat(s, t[..n], keep);
    }
  }

  lemma KeysWithout<T>(s: seq<T>, i: nat, key: T -> real)
    requires i < |s|
    ensures multiset(Keys(s, key)) == multiset(Keys(s[..i] + s[i + 1..], key)) + multiset{key(s[i])}
  {
    SplitAt(s, i);
    KeysMiddle(s[..i], [s[i]], s[i + 1..], key);
    KeysOfOne(s[i], key);
  }

  lemma KeysOfOne<T>(x: T, key: T -> real)
    ensures Keys([x], key) == [key(x)]
  {
  }

  lemma KeysMiddle<T>(a: seq<T>, b: seq<T>, c: seq<T>, key: T -> real)
    ensures multiset(Keys(a + (b + c), key)) == multiset(Keys(a + c, key)) + multiset(Keys(b, key))
  {
    KeysConcat(a, b + c, key);
    KeysConcat(b, c, key);
    KeysConcat(a, c, key);
    MultisetMiddle(Keys(a, key), Keys(b, key), Keys(c, key));
  }

  lemma RetainWithout<T>(s: seq<T>, i: nat, keep: T -> bool)
    requires i < |s|
    ensures multiset(Retain(s, keep)) == multiset(Retain(s[..i] + s[i + 1..], keep)) + multiset(Retain([s[i]], keep))
  {
    SplitAt(s, i);
    RetainMiddle(s[..i], [s[i]], s[i + 1..], keep);
  }

  lemma RetainMiddle<T>(a: seq<T>, b: seq<T>, c: seq<T>, keep: T -> bool)
    ensures multiset(Retain(a + (b + c), keep)) == multiset(Retain(a + c, keep)) + multiset(Retain(b, keep))
  {
    RetainConcat(a, b + c, keep);
    RetainConcat(b, c, keep);
    RetainConcat(a, c, keep);
    MultisetMiddle(Retain(a, keep), Retain(b, keep), Retain(c, keep));
  }

  lemma MatchLast<T>(s: seq<T>, t: seq<T>) returns (i: nat)
    requires s != [] && multiset(s) == multiset(t)
    ensures i < |t| && t[i] == s[|s| - 1]
    ensures multiset(s[..|s| - 1]) == multiset(t[..i] + t[i + 1..])
  {
    assert s[|s| - 1] in multiset(t);
    i :| 0 <= i < |t| && t[i] == s[|s| - 1];
    PermutationRest(s, t, i);
  }

  /** Keys of permutations are permutations. */
  lemma {:induction false} KeysPermute<T>(s: seq<T>, t: seq<T>, key: T -> real)
    requires multiset(s) == multiset(t)
    ensures multiset(Keys(s, key)) == multiset(Keys(t, key))
  {
    if s == [] {
      assert |multiset(t)| == 0;
    } else {
      var i := MatchLast(s, t);
      KeysPermute(s[..|s| - 1], t[..i] + t[i + 1..], key);
      KeysWithout(t, i, key);
      KeysWithout(s, |s| - 1, key);
      assert s[..|s| - 1] + s[|s|..] == s[..|s| - 1];
    }
  }

  /** Filters of permutations are permutations. */
  lemma {:induction false} RetainPermutes<T>(s: seq<T>, t: seq<T>, keep: T -> bool)
    requires multiset(s) == multiset(t)
    ensures multiset(Retain(s, keep)) == multiset(Retain(t, keep))
  {
    if s == [] {
      assert |multiset(t)| == 0;
    } else {
      var i := MatchLast(s, t);
      RetainPermutes(s[..|s| - 1], t[..i] + t[i + 1..], keep);
      RetainWithout(t, i, keep);
      RetainWithout(s, |s| - 1, keep);
      assert s[..|s| - 1] + s[|s|..] == s[..|s| - 1];
    }
  }

  /** Counts in a window do not depend on the order. */
  lemma {:induction false} CountPermutes<T>(s: seq<T>, t: seq<T>, key: T -> real, lo: real, hi: real)
    requires multiset(s) == multiset(t)
    ensures CountWithin(s, key, lo, hi) == CountWithin(t, key, lo, hi)
  {
    KeysPermute(s, t, key);
    SortPermutes(Keys(s, key), Keys(t, key));
    CountKeys(s, key, lo, hi);
    CountKeys(t, key, lo, hi);
    CountSort(Keys(s, key), Value, lo, hi);
    CountSort(Keys(t, key), Value, lo, hi);
  }

  lemma SameLength<T>(s: seq<T>, t: seq<T>)
    requires multiset(s) == multiset(t)
    ensures |s| == |t|
  {
    assert |multiset(s)| == |s| && |multiset(t)| == |t|;
  }

  lemma {:induction false} CountConcat<T>(s: seq<T>, t: seq<T>, key: T -> real, lo: real, hi: real)
    ensures CountWithin(s + t, key, lo, hi) == CountWithin(s, key, lo, hi) + CountWithin(t, key, lo, hi)
  {
    if t == [] {
      assert s + t == s;
    } else {
      var n := |t| - 1;
      assert (s + t)[..|s + t| - 1] == s + t[..n];
      CountConcat(s, t[..n], key, lo, hi);
    }
  }

  lemma {:induction false} CountAll<T>(s: seq<T>, key: T -> real, lo: real, hi: real)
    requires forall x | x in s :: lo <= key(x) <= hi
    ensures CountWithin(s, key, lo, hi) == |s|
  {
    if s != [] {
      CountAll(s[..|s| - 1], key, lo, hi);
    }
  }

  // ----- ranks -----

  function KeyBelow<T>(key: T -> real, x: real): T -> bool {
    (e: T) => key(e) < x
  }

  function KeyAbove<T>(key: T -> real, x: real): T -> bool {
    (e: T) => key(e) > x
  }

  lemma {:induction false} RetainNone<T>(s: seq<T>, keep: T -> bool)
    requires forall x | x in s :: !keep(x)
    ensures Retain(s, keep) == []
  {
    if s != [] {
      RetainNone(s[..|s| - 1], keep);
    }
  }

  lemma RetainParts<T>(s: seq<T>, n: nat, keep: T -> bool)
    requires n <= |s|
    ensures |Retain(s, keep)| == |Retain(s[..n], keep)| + |Retain(s[n..], keep)|
  {
    assert s == s[..n] + s[n..];
    RetainConcat(s[..n], s[n..], keep);
  }

  lemma SortedAround<T>(t: seq<T>, key: T -> real, m: nat)
    requires SortedBy(t, key) && m < |t|
    ensures forall x | x in t[..m + 1] :: key(x) <= key(t[m])
    ensures forall x | x in t[m..] :: key(t[m]) <= key(x)
  {
    forall x | x in t[..m + 1] ensures key(x) <= key(t[m]) {
      var i :| 0 <= i <= m && t[i] == x;
      assert i < m ==> key(t[i]) <= key(t[m]);
    }
    forall x | x in t[m..] ensures key(t[m]) <= key(x) {
      var i :| m <= i < |t| && t[i] == x;
      assert m < i ==> key(t[m]) <= key(t[i]);
    }
  }

  /** The first `n` elements pass the filter and the rest do not, or the other way round. */
  lemma RetainPrefix<T>(t: seq<T>, n: nat, keep: T -> bool)
    requires n <= |t|
    ensures (forall x | x in t[..n] :: keep(x)) ==> |Retain(t, keep)| >= n
    ensures (forall x | x in t[..n] :: !keep(x)) ==> |Retain(t, keep)| <= |t| - n
    ensures (forall x | x in t[n..] :: keep(x)) ==> |Retain(t, keep)| >= |t| - n
    ensures (forall x | x in t[n..] :: !keep(x)) ==> |Retain(t, keep)| <= n
  {
    RetainParts(t, n, keep);
    if forall x | x in t[..n] :: keep(x) { RetainAll(t[..n], keep); }
    if forall x | x in t[..n] :: !keep(x) { RetainNone(t[..n], keep); }
    if forall x | x in t[n..] :: keep(x) { RetainAll(t[n..], keep); }
    if forall x | x in t[n..] :: !keep(x) { RetainNone(t[n..], keep); }
  }

  lemma SortedRankBelow<T>(t: seq<T>, key: T -> real, m: nat, lo: real)
    requires SortedBy(t, key) && m < |t|
    ensures lo <= key(t[m]) <==> |Retain(t, KeyBelow(key, lo))| <= m
  {
    SortedAround(t, key, m);
    if key(t[m]) < lo {
      RetainPrefix(t, m + 1, KeyBelow(key, lo));
    } else {
      RetainPrefix(t, m, KeyBelow(key, lo));
    }
  }

  lemma SortedRankAbove<T>(t: seq<T>, key: T -> real, m: nat, hi: real)
    requires SortedBy(t, key) && m < |t|
    ensures key(t[m]) <= hi <==> |Retain(t, KeyAbove(key, hi))| < |t| - m
  {
    SortedAround(t, key, m);
    if key(t[m]) > hi {
      RetainPrefix(t, m, KeyAbove(key, hi));
    } else {
      RetainPrefix(t, m + 1, KeyAbove(key, hi));
    }
  }

  /** The element of rank `m` lies in the window exactly when at most `m` elements are below it
      and fewer than `|s| - m` above. */
  lemma RankExactly<T>(s: seq<T>, key: T -> real, m: nat, lo: real, hi: real)
    requires m < |s|
    ensures lo <= key(Sort(s, key)[m]) <= hi <==>
            |Retain(s, KeyBelow(key, lo))| <= m && |Retain(s, KeyAbove(key, hi))| < |s| - m
  {
    var t := Sort(s, key);
    SortSorts(s, key);
    SortedRankBelow(t, key, m, lo);
    SortedRankAbove(t, key, m, hi);
    RetainPermutes(t, s, KeyBelow(key, lo));
    RetainPermutes(t, s, KeyAbove(key, hi));
    SameLength(Retain(t, KeyBelow(key, lo)), Retain(s, KeyBelow(key, lo)));
    SameLength(Retain(t, KeyAbove(key, hi)), Retain(s, KeyAbove(key, hi)));
  }

  lemma SortedKeys<T>(t: seq<T>, key: T -> real)
    requires SortedBy(t, key)
    ensures SortedBy(Keys(t, key), Value)
  {
  }

  /** The key of rank `m` does not depend on the order. */
  lemma RankPermutes<T>(s: seq<T>, t: seq<T>, key: T -> real, m: nat)
    requires multiset(s) == multiset(t) && m < |s|
    ensures |s| == |t| && key(Sort(s, key)[m]) == key(Sort(t, key)[m])
  {
    SameLength(s, t);
    SortSorts(s, key);
    SortSorts(t, key);
    SortedKeys(Sort(s, key), key);
    SortedKeys(Sort(t, key), key);
    KeysPermute(Sort(s, key), Sort(t, key), key);
    SortedUnique(Keys(Sort(s, key), key), Keys(Sort(t, key), key));
    assert Keys(Sort(s, key), key)[m] == Keys(Sort(t, key), key)[m];
  }
}
