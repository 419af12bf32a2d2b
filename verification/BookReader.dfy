/** Reading the shared book state without a host clock: the venues' own stamps decide which
    books are fresh, a sanity filter drops badly quoted ones, and what is left comes in order of
    source. */
module BookReader {
  import opened Wrappers
  import opened OrderStats
  import opened Sums
  import opened OrderBook

  const MAX_BOOK_AGE_MS: int := 5_000
  const MIN_BOOK_DEPTH: nat := 3
  const MAX_SPREAD_BPS_DEFAULT: real := 500.0

  function StampOf(book: Book): real { book.timestampMs as real }

  function IsStamped(book: Book): bool { book.timestampMs > 0 }

  predicate TwoSided(book: Book) {
    book.bids != [] && book.asks != []
  }

  function IsCandidate(book: Book): bool { TwoSided(book) && IsStamped(book) }

  // ----- clocks -----

  /** Upper median of the positive stamps. */
  function MedianStamp(books: seq<Book>): Option<int> {
    var stamped := Retain(books, IsStamped);
    if stamped == [] then None else Some(MiddleStamp(stamped))
  }

  function MiddleStamp(books: seq<Book>): int
    requires books != []
  {
    Sort(books, StampOf)[|books| / 2].timestampMs
  }

  function Fresh(reference: int): Book -> bool {
    (book: Book) => -MAX_BOOK_AGE_MS <= reference - book.timestampMs <= MAX_BOOK_AGE_MS
  }

  function Candidates(books: seq<Book>): seq<Book> {
    Retain(books, IsCandidate)
  }

  function FreshBooks(books: seq<Book>): seq<Book> {
    match MedianStamp(Candidates(books))
    case None => []
    case Some(reference) => Retain(Candidates(books), Fresh(reference))
  }

  /** The second a consolidated price is signed with. */
  function SignedSecond(books: seq<Book>): Option<nat> {
    match MedianStamp(books)
    case None => None
    case Some(t) => Some(if t / 1000 < 0 then 0 else t / 1000)
  }

  // ----- sanity -----

  function MaxSpreadBps(base: string): real {
    if base == "BTC" || base == "ETH" then 30.0
    else if base == "USDC" then 20.0
    else if base == "KAS" || base == "TAO" then 100.0
    else MAX_SPREAD_BPS_DEFAULT
  }

  /** Deep enough, positive and uncrossed at the top, and not too wide. */
  predicate SaneQuotes(book: Book, maxSpread: real) {
    && |book.bids| >= MIN_BOOK_DEPTH && |book.asks| >= MIN_BOOK_DEPTH
    && var bid, ask := book.bids[0].price, book.asks[0].price;
       0.0 < bid < ask && (ask - bid) / ((bid + ask) / 2.0) * 10_000.0 <= maxSpread
  }

  function WellQuoted(maxSpread: real): Book -> bool {
    (book: Book) => SaneQuotes(book, maxSpread)
  }

  function UsableBooks(books: seq<Book>, maxSpread: real): seq<Book> {
    Retain(FreshBooks(books), WellQuoted(maxSpread))
  }

  // ----- order -----

  /** Strings in order of their characters. */
  predicate LexLeq(a: string, b: string) {
    a == [] || (b != [] && (a[0] < b[0] || (a[0] == b[0] && LexLeq(a[1..], b[1..]))))
  }

  function InsertBySource(s: seq<Book>, x: Book): seq<Book> {
    if s == [] || LexLeq(s[|s| - 1].source, x.source) then s + [x]
    else InsertBySource(s[..|s| - 1], x) + [s[|s| - 1]]
  }

  function SortBySource(s: seq<Book>): seq<Book> {
    if s == [] then [] else InsertBySource(SortBySource(s[..|s| - 1]), s[|s| - 1])
  }

  /** `read_books_filtered`, on the books of one base asset in whatever order the state yields
      them. */
  function ReadBooks(books: seq<Book>, maxSpread: real): seq<Book> {
    SortBySource(UsableBooks(books, maxSpread))
  }

  // ----- what the clocks decide -----

  lemma MedianStampWithin(books: seq<Book>, lo: int, hi: int)
    requires MajorityWithin(Retain(books, IsStamped), StampOf, lo as real, hi as real)
    ensures MedianStamp(books).Some? && lo <= MedianStamp(books).value <= hi
  {
    MiddlesWithin(Retain(books, IsStamped), StampOf, lo as real, hi as real);
  }

  lemma CandidatesAreStamped(books: seq<Book>)
    ensures Retain(Candidates(books), IsStamped) == Candidates(books)
  {
    RetainAll(Candidates(books), IsStamped);
  }

  /** When a strict majority of the candidate books agree to within five seconds, the reference
      lies in their window and none of them is dropped as stale. */
  lemma BookClockMajorityDecides(books: seq<Book>, lo: int, hi: int)
    requires MajorityWithin(Candidates(books), StampOf, lo as real, hi as real)
    requires hi - lo <= MAX_BOOK_AGE_MS
    ensures MedianStamp(Candidates(books)).Some? && lo <= MedianStamp(Candidates(books)).value <= hi
    ensures forall b | b in Candidates(books) && lo <= b.timestampMs <= hi :: b in FreshBooks(books)
    ensures MajorityWithin(FreshBooks(books), StampOf, lo as real, hi as real)
  {
    CandidatesAreStamped(books);
    MedianStampWithin(Candidates(books), lo, hi);
    RetainKeepsMajority(Candidates(books), Fresh(MedianStamp(Candidates(books)).value), StampOf, lo as real, hi as real);
  }

  lemma {:induction false} InsertBySourcePermutes(s: seq<Book>, x: Book)
    ensures multiset(InsertBySource(s, x)) == multiset(s) + multiset{x}
  {
    if s != [] && !LexLeq(s[|s| - 1].source, x.source) {
      InsertBySourcePermutes(s[..|s| - 1], x);
      MultisetLast(s);
    }
  }

  lemma {:induction false} SortBySourcePermutes(s: seq<Book>)
    ensures multiset(SortBySource(s)) == multiset(s)
  {
    if s != [] {
      SortBySourcePermutes(s[..|s| - 1]);
      InsertBySourcePermutes(SortBySource(s[..|s| - 1]), s[|s| - 1]);
      MultisetLast(s);
    }
  }

  /** What is read are the fresh and well quoted candidates. */
  lemma ReadBooksAre(books: seq<Book>, maxSpread: real)
    ensures multiset(ReadBooks(books, maxSpread)) == multiset(UsableBooks(books, maxSpread))
    ensures forall b | b in ReadBooks(books, maxSpread) ::
              b in books && IsCandidate(b) && SaneQuotes(b, maxSpread) && b in FreshBooks(books)
    ensures Retain(ReadBooks(books, maxSpread), IsStamped) == ReadBooks(books, maxSpread)
  {
    var read := ReadBooks(books, maxSpread);
    SortBySourcePermutes(UsableBooks(books, maxSpread));
    forall b | b in read ensures b in books && IsCandidate(b) && SaneQuotes(b, maxSpread) && b in FreshBooks(books) {
      assert b in multiset(UsableBooks(books, maxSpread));
    }
    RetainAll(read, IsStamped);
  }

  /** The signed second is taken over the books that are read: a strict majority of those pins it. */
  lemma SignedSecondWithin(books: seq<Book>, maxSpread: real, lo: int, hi: int)
    requires 0 < lo && MajorityWithin(UsableBooks(books, maxSpread), StampOf, lo as real, hi as real)
    ensures SignedSecond(ReadBooks(books, maxSpread)).Some?
    ensures lo / 1000 <= SignedSecond(ReadBooks(books, maxSpread)).value <= hi / 1000
  {
    ReadBooksAre(books, maxSpread);
    SameLength(ReadBooks(books, maxSpread), UsableBooks(books, maxSpread));
    CountPermutes(ReadBooks(books, maxSpread), UsableBooks(books, maxSpread), StampOf, lo as real, hi as real);
    MedianStampWithin(ReadBooks(books, maxSpread), lo, hi);
  }

  function Earlier(t: int): Book -> bool { KeyBelow(StampOf, t as real) }

  function Later(t: int): Book -> bool { KeyAbove(StampOf, t as real) }

  /** The stamp behind the signed second lies in a window exactly when, of the `n` books that are
      fresh and well quoted, at most `n / 2` are earlier and fewer than `n - n / 2` later. */
  lemma SignedStampExactly(books: seq<Book>, maxSpread: real, lo: int, hi: int)
    requires UsableBooks(books, maxSpread) != []
    ensures var usable := UsableBooks(books, maxSpread); var n := |usable|;
            && MedianStamp(ReadBooks(books, maxSpread)).Some?
            && (lo <= MedianStamp(ReadBooks(books, maxSpread)).value <= hi <==>
                  |Retain(usable, Earlier(lo))| <= n / 2 && |Retain(usable, Later(hi))| < n - n / 2)
  {
    var read, usable := ReadBooks(books, maxSpread), UsableBooks(books, maxSpread);
    ReadBooksAre(books, maxSpread);
    SameLength(read, usable);
    RankExactly(read, StampOf, |read| / 2, lo as real, hi as real);
    RetainPermutes(read, usable, Earlier(lo));
    RetainPermutes(read, usable, Later(hi));
    SameLength(Retain(read, Earlier(lo)), Retain(usable, Earlier(lo)));
    SameLength(Retain(read, Later(hi)), Retain(usable, Later(hi)));
  }

  /** So a majority of the candidates pins the signed second when none of its own books is badly
      quoted. */
  lemma CandidateMajoritySuffices(books: seq<Book>, maxSpread: real, lo: int, hi: int)
    requires 0 < lo && hi - lo <= MAX_BOOK_AGE_MS
    requires MajorityWithin(Candidates(books), StampOf, lo as real, hi as real)
    requires forall b | b in Candidates(books) && lo <= b.timestampMs <= hi :: SaneQuotes(b, maxSpread)
    ensures SignedSecond(ReadBooks(books, maxSpread)).Some?
    ensures lo / 1000 <= SignedSecond(ReadBooks(books, maxSpread)).value <= hi / 1000
  {
    BookClockMajorityDecides(books, lo, hi);
    RetainKeepsMajority(FreshBooks(books), WellQuoted(maxSpread), StampOf, lo as real, hi as real);
    SignedSecondWithin(books, maxSpread, lo, hi);
  }

  /** All of the books carry this stamp. */
  ghost predicate StampedAt(books: seq<Book>, t: int) {
    forall b | b in books :: b.timestampMs == t
  }

  lemma ConcatMajority(s: seq<Book>, other: seq<Book>, t: int)
    requires StampedAt(s, t) && |s| > |other|
    ensures MajorityWithin(s + other, StampOf, t as real, t as real)
    ensures MajorityWithin(other + s, StampOf, t as real, t as real)
  {
    CountAll(s, StampOf, t as real, t as real);
    CountConcat(s, other, StampOf, t as real, t as real);
    CountConcat(other, s, StampOf, t as real, t as real);
  }

  lemma AllRead(books: seq<Book>, t: int)
    requires MedianStamp(Candidates(books)) == Some(t)
    requires forall b | b in books :: IsCandidate(b) && Fresh(t)(b)
    ensures FreshBooks(books) == books
  {
    RetainAll(books, IsCandidate);
    RetainAll(books, Fresh(t));
  }

  lemma KeepAppended(s: seq<Book>, t: seq<Book>, keep: Book -> bool)
    requires forall b | b in t :: keep(b)
    ensures Retain(s + t, keep) == Retain(s, keep) + t
  {
    RetainConcat(s, t, keep);
    RetainAll(t, keep);
  }

  lemma DropAppended(s: seq<Book>, t: seq<Book>, keep: Book -> bool)
    requires forall b | b in t :: !keep(b)
    ensures Retain(s + t, keep) == Retain(s, keep)
  {
    RetainConcat(s, t, keep);
    RetainNone(t, keep);
  }

  lemma DropMiddle(good: seq<Book>, bad: seq<Book>, late: seq<Book>, keep: Book -> bool)
    requires forall b | b in good :: keep(b)
    requires forall b | b in bad :: !keep(b)
    requires forall b | b in late :: keep(b)
    ensures Retain(good + bad + late, keep) == good + late
  {
    RetainAll(good, keep);
    DropAppended(good, bad, keep);
    KeepAppended(good + bad, late, keep);
  }

  /** All two-sided, with this stamp, and sane or all not. */
  ghost predicate Alike(books: seq<Book>, t: int, maxSpread: real, sane: bool) {
    forall b | b in books :: TwoSided(b) && b.timestampMs == t && SaneQuotes(b, maxSpread) == sane
  }

  lemma FreshUntilLater(books: seq<Book>, rest: seq<Book>, t: int, later: int)
    requires 0 < t < later <= t + MAX_BOOK_AGE_MS && |books| > |rest|
    requires forall b | b in books :: TwoSided(b) && b.timestampMs == t
    requires forall b | b in rest :: TwoSided(b) && b.timestampMs == later
    ensures Candidates(books + rest) == books + rest
    ensures MajorityWithin(Candidates(books + rest), StampOf, t as real, t as real)
    ensures MedianStamp(Candidates(books + rest)) == Some(t) && FreshBooks(books + rest) == books + rest
  {
    RetainAll(books + rest, IsCandidate);
    ConcatMajority(books, rest, t);
    AgreedAreFresh(books + rest, t);
  }

  lemma AgreedAreFresh(books: seq<Book>, t: int)
    requires MajorityWithin(Candidates(books), StampOf, t as real, t as real)
    requires forall b | b in books :: IsCandidate(b) && Fresh(t)(b)
    ensures MedianStamp(Candidates(books)) == Some(t) && FreshBooks(books) == books
  {
    BookClockMajorityDecides(books, t, t);
    AllRead(books, t);
  }

  /** A majority of the candidates alone does not pin the signed second: whenever badly quoted
      books make up its surplus over the well quoted later ones, all books are fresh, the reference
      is the majority's, and the second is taken from the later stamp. */
  lemma BadQuotesMoveTheClock(good: seq<Book>, bad: seq<Book>, late: seq<Book>, maxSpread: real, t: int, later: int)
    requires 0 < t < later <= t + MAX_BOOK_AGE_MS && |good| + |bad| > |late| > |good|
    requires Alike(good, t, maxSpread, true) && Alike(bad, t, maxSpread, false) && Alike(late, later, maxSpread, true)
    ensures var books := good + bad + late;
            && MajorityWithin(Candidates(books), StampOf, t as real, t as real)
            && MedianStamp(Candidates(books)) == Some(t) && FreshBooks(books) == books
            && MedianStamp(ReadBooks(books, maxSpread)) == Some(later)
  {
    FreshUntilLater(good + bad, late, t, later);
    DropMiddle(good, bad, late, WellQuoted(maxSpread));
    ConcatMajority(late, good, later);
    LaterMajority(good + bad + late, maxSpread, later);
  }

  /** Three quotes a side around 100, or one. */
  lemma ExampleBook(source: string, deep: bool, t: int) returns (b: Book)
    ensures TwoSided(b) && SaneQuotes(b, 30.0) == deep && b.timestampMs == t && b.source == source
  {
    if deep {
      b := Book(source, [Level(99.9, 1.0), Level(99.8, 1.0), Level(99.7, 1.0)],
                [Level(100.1, 1.0), Level(100.2, 1.0), Level(100.3, 1.0)], 0.1, t);
    } else {
      b := Book(source, [Level(99.9, 1.0)], [Level(100.1, 1.0)], 0.1, t);
    }
  }

  /** Such books of five sources exist: at second 1000 one deep book and two shallow ones, at second
      1005 two deep ones. */
  lemma BadQuotesExample() returns (good: seq<Book>, bad: seq<Book>, late: seq<Book>)
    ensures |good| == 1 && |bad| == 2 && |late| == 2 && DistinctSources(good + bad + late)
    ensures Alike(good, 1_000_000, 30.0, true) && Alike(bad, 1_000_000, 30.0, false) && Alike(late, 1_005_000, 30.0, true)
  {
    var a := ExampleBook("a", true, 1_000_000);
    var b := ExampleBook("b", false, 1_000_000);
    var c := ExampleBook("c", false, 1_000_000);
    var d := ExampleBook("d", true, 1_005_000);
    var e := ExampleBook("e", true, 1_005_000);
    good, bad, late := [a], [b, c], [d, e];
  }

  lemma LaterMajority(books: seq<Book>, maxSpread: real, t: int)
    requires MajorityWithin(UsableBooks(books, maxSpread), StampOf, t as real, t as real)
    ensures MedianStamp(ReadBooks(books, maxSpread)) == Some(t)
  {
    ReadBooksAre(books, maxSpread);
    SameLength(ReadBooks(books, maxSpread), UsableBooks(books, maxSpread));
    CountPermutes(ReadBooks(books, maxSpread), UsableBooks(books, maxSpread), StampOf, t as real, t as real);
    MedianStampWithin(ReadBooks(books, maxSpread), t, t);
  }

  // ----- the state's own order does not matter -----

  ghost predicate DistinctSources(books: seq<Book>) {
    forall i, j | 0 <= i < j < |books| :: books[i].source != books[j].source
  }

  lemma {:induction false} LexTotal(a: string, b: string)
    ensures LexLeq(a, b) || LexLeq(b, a)
  {
    if a != [] && b != [] { LexTotal(a[1..], b[1..]); }
  }

  lemma {:induction false} LexAntisymmetric(a: string, b: string)
    requires LexLeq(a, b) && LexLeq(b, a)
    ensures a == b
  {
    if a != [] {
      LexAntisymmetric(a[1..], b[1..]);
      assert a == [a[0]] + a[1..] && b == [b[0]] + b[1..];
    }
  }

  lemma {:induction false} LexTransitive(a: string, b: string, c: string)
    requires LexLeq(a, b) && LexLeq(b, c)
    ensures LexLeq(a, c)
  {
    if a != [] && a[0] == b[0] == c[0] { LexTransitive(a[1..], b[1..], c[1..]); }
  }

  /** No book's source comes after the last one's, throughout. */
  ghost predicate BySource(s: seq<Book>) {
    forall i, j | 0 <= i < j < |s| :: LexLeq(s[i].source, s[j].source)
  }

  lemma {:induction false} InsertBySourceSorts(s: seq<Book>, x: Book)
    requires BySource(s)
    ensures BySource(InsertBySource(s, x))
  {
    if s == [] || LexLeq(s[|s| - 1].source, x.source) {
      forall i | 0 <= i < |s| ensures LexLeq(s[i].source, x.source) {
        if i < |s| - 1 { LexTransitive(s[i].source, s[|s| - 1].source, x.source); }
      }
    } else {
      var front, last := s[..|s| - 1], s[|s| - 1];
      InsertBySourceSorts(front, x);
      InsertBySourcePermutes(front, x);
      LexTotal(last.source, x.source);
      var r := InsertBySource(front, x);
      forall i | 0 <= i < |r| ensures LexLeq(r[i].source, last.source) {
        assert r[i] in multiset(r);
        if r[i] != x { assert r[i] in front; }
      }
    }
  }

  lemma {:induction false} SortBySourceSorts(s: seq<Book>)
    ensures BySource(SortBySource(s))
  {
    if s != [] {
      SortBySourceSorts(s[..|s| - 1]);
      InsertBySourceSorts(SortBySource(s[..|s| - 1]), s[|s| - 1]);
    }
  }

  lemma LastBySource(s: seq<Book>, x: Book)
    requires BySource(s) && s != [] && x in s
    ensures LexLeq(x.source, s[|s| - 1].source)
  {
    var i :| 0 <= i < |s| && s[i] == x;
    LexTotal(x.source, x.source);
  }

  ghost predicate SourcesIdentify(s: seq<Book>) {
    forall x, y | x in s && y in s :: x.source == y.source ==> x == y
  }

  /** Books identified by their source have one order by source. */
  lemma {:induction false} BySourceUnique(s: seq<Book>, t: seq<Book>)
    requires BySource(s) && BySource(t) && multiset(s) == multiset(t) && SourcesIdentify(s)
    ensures s == t
  {
    SameLength(s, t);
    if s != [] {
      var n := |s| - 1;
      assert s[n] in multiset(t) && t[n] in multiset(s);
      LastBySource(t, s[n]);
      LastBySource(s, t[n]);
      LexAntisymmetric(s[n].source, t[n].source);
      DropLast(s, t);
      BySourceUnique(s[..n], t[..n]);
    }
  }

  lemma MedianStampPermutes(books: seq<Book>, other: seq<Book>)
    requires multiset(books) == multiset(other)
    ensures MedianStamp(books) == MedianStamp(other)
  {
    RetainPermutes(books, other, IsStamped);
    var s, t := Retain(books, IsStamped), Retain(other, IsStamped);
    SameLength(s, t);
    if s != [] { MiddleStampPermutes(s, t); }
  }

  lemma MiddleStampPermutes(s: seq<Book>, t: seq<Book>)
    requires s != [] && t != [] && multiset(s) == multiset(t)
    ensures MiddleStamp(s) == MiddleStamp(t)
  {
    RankPermutes(s, t, StampOf, |s| / 2);
    assert StampOf(Sort(s, StampOf)[|s| / 2]) == StampOf(Sort(t, StampOf)[|s| / 2]);
  }

  lemma UsablePermutes(books: seq<Book>, other: seq<Book>, maxSpread: real)
    requires multiset(books) == multiset(other)
    ensures multiset(UsableBooks(books, maxSpread)) == multiset(UsableBooks(other, maxSpread))
  {
    RetainPermutes(books, other, IsCandidate);
    MedianStampPermutes(Candidates(books), Candidates(other));
    var reference := MedianStamp(Candidates(books));
    if reference.Some? {
      RetainPermutes(Candidates(books), Candidates(other), Fresh(reference.value));
    }
    RetainPermutes(FreshBooks(books), FreshBooks(other), WellQuoted(maxSpread));
  }

  lemma DistinctIdentify(books: seq<Book>)
    requires DistinctSources(books)
    ensures SourcesIdentify(books)
  {
    forall x, y | x in books && y in books && x.source == y.source ensures x == y {
      var i :| 0 <= i < |books| && books[i] == x;
      var j :| 0 <= j < |books| && books[j] == y;
      assert !(i < j) && !(j < i);
    }
  }

  /** With one book per source, what is read does not depend on the order in which the state
      yields the books. */
  lemma ReadIsDeterministic(books: seq<Book>, other: seq<Book>, maxSpread: real)
    requires multiset(books) == multiset(other) && DistinctSources(books)
    ensures ReadBooks(books, maxSpread) == ReadBooks(other, maxSpread)
  {
    UsablePermutes(books, other, maxSpread);
    var s, t := UsableBooks(books, maxSpread), UsableBooks(other, maxSpread);
    SortBySourcePermutes(s);
    SortBySourcePermutes(t);
    SortBySourceSorts(s);
    SortBySourceSorts(t);
    ReadBooksAre(books, maxSpread);
    DistinctIdentify(books);
    BySourceUnique(SortBySource(s), SortBySource(t));
  }
}
