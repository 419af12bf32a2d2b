/** The token-bucket rate limiter of the pull API: one bucket per key, kept in order of last
    use, with idle buckets evicted and a hard bound on their number. */
module RateLimiter {
  import opened Wrappers
  import opened Collections

  /** Requests per window, the window in seconds, and the number of keys remembered. */
  datatype Params = Params(limit: nat, window: real, maxKeys: nat)

  datatype Bucket = Bucket(tokens: real, last: real)

  datatype Entry = Entry(key: string, bucket: Bucket)

  // ----- one bucket -----

  function Rate(p: Params): real
    requires p.window > 0.0
  {
    p.limit as real / p.window
  }

  function Capped(p: Params, tokens: real): (t: real)
    ensures t <= p.limit as real && t <= tokens && (t == tokens || t == p.limit as real)
  {
    if tokens <= p.limit as real then tokens else p.limit as real
  }

  /** Tokens a bucket holds at `now`; a key without a bucket has a full one. */
  function Available(p: Params, b: Option<Bucket>, now: real): real
    requires p.window > 0.0
  {
    match b
    case None => p.limit as real
    case Some(bucket) => Capped(p, bucket.tokens + (now - bucket.last) * Rate(p))
  }

  function Allows(p: Params, b: Option<Bucket>, now: real): bool
    requires p.window > 0.0
  {
    Available(p, b, now) >= 1.0
  }

  function Spent(p: Params, b: Option<Bucket>, now: real): Bucket
    requires p.window > 0.0
  {
    var t := Available(p, b, now);
    Bucket(if Allows(p, b, now) then t - 1.0 else t, now)
  }

  ghost predicate BucketOk(p: Params, b: Bucket, now: real) {
    0.0 <= b.tokens <= p.limit as real && b.last <= now
  }

  lemma RefillIsNonNegative(p: Params, b: Bucket, now: real)
    requires p.window > 0.0 && b.last <= now
    ensures (now - b.last) * Rate(p) >= 0.0
  {
  }

  lemma SpentIsOk(p: Params, b: Option<Bucket>, now: real)
    requires p.window > 0.0 && (b.Some? ==> BucketOk(p, b.value, now))
    ensures BucketOk(p, Spent(p, b, now), now)
    ensures 0.0 <= Available(p, b, now) <= p.limit as real
  {
    if b.Some? { RefillIsNonNegative(p, b.value, now); }
  }

  /** A bucket left alone for a whole window is full. */
  lemma IdleIsFull(p: Params, b: Bucket, now: real)
    requires p.window > 0.0 && b.tokens >= 0.0 && b.last <= now - p.window
    ensures Available(p, Some(b), now) == p.limit as real
  {
    WindowRefills(p, now - b.last);
    CappedAbove(p, b.tokens, (now - b.last) * Rate(p));
  }

  lemma CappedAbove(p: Params, tokens: real, refill: real)
    requires tokens >= 0.0 && refill >= p.limit as real
    ensures Capped(p, tokens + refill) == p.limit as real
  {
  }

  lemma WindowRefills(p: Params, idle: real)
    requires p.window > 0.0 && idle >= p.window
    ensures idle * Rate(p) >= p.limit as real
  {
    assert p.window * Rate(p) == p.limit as real;
    assert (idle - p.window) * Rate(p) >= 0.0;
  }

  // ----- the ordered table -----

  function Find(s: seq<Entry>, key: string): (b: Option<Bucket>)
    ensures b.Some? ==> Entry(key, b.value) in s
    ensures b.None? <==> forall e | e in s :: e.key != key
  {
    if s == [] then None
    else if s[|s| - 1].key == key then Some(s[|s| - 1].bucket)
    else Find(s[..|s| - 1], key)
  }

  function Without(s: seq<Entry>, key: string): (r: seq<Entry>)
    ensures |r| <= |s|
    ensures forall e :: e in r <==> e in s && e.key != key
  {
    if s == [] then []
    else
      var front := Without(s[..|s| - 1], key);
      if s[|s| - 1].key == key then front else front + [s[|s| - 1]]
  }

  /** The table after the bucket of `key` has been charged and moved to the end. */
  function Touched(p: Params, s: seq<Entry>, key: string, now: real): seq<Entry>
    requires p.window > 0.0
  {
    Without(s, key) + [Entry(key, Spent(p, Find(s, key), now))]
  }

  /** Drop from the front while the oldest is idle or there are too many. */
  function Evicted(p: Params, s: seq<Entry>, now: real): seq<Entry> {
    if s == [] || (s[0].bucket.last > now - p.window && |s| <= p.maxKeys) then s
    else Evicted(p, s[1..], now)
  }

  function Called(p: Params, s: seq<Entry>, key: string, now: real): seq<Entry>
    requires p.window > 0.0
  {
    Evicted(p, Touched(p, s, key, now), now)
  }

  /** Keys are distinct, entries ordered by last use, buckets between empty and full. */
  ghost predicate Ordered(p: Params, s: seq<Entry>, now: real) {
    && (forall i, j | 0 <= i < j < |s| :: s[i].key != s[j].key && s[i].bucket.last <= s[j].bucket.last)
    && (forall i | 0 <= i < |s| :: BucketOk(p, s[i].bucket, now))
  }

  class Limiter {
    const p: Params
    var clients: seq<Entry>

    constructor (p: Params)
      ensures this.p == p && clients == []
    {
      this.p := p;
      clients := [];
    }

    ghost predicate Valid(now: real)
      reads this
    {
      p.window > 0.0 && Ordered(p, clients, now)
    }

    method Evict(now: real)
      modifies this
      ensures clients == Evicted(p, old(clients), now)
    {
      var cutoff := now - p.window;
      while clients != []
        invariant Evicted(p, clients, now) == Evicted(p, old(clients), now)
        decreases |clients|
      {
        if clients[0].bucket.last > cutoff && |clients| <= p.maxKeys {
          break;
        }
        clients := clients[1..];
      }
    }

    /** Answers by the tokens available, and leaves at most `maxKeys` buckets. */
    method IsAllowed(key: string, now: real) returns (allowed: bool)
      requires Valid(now)
      modifies this
      ensures Valid(now)
      ensures allowed == (Available(p, Find(old(clients), key), now) >= 1.0)
      ensures clients == Called(p, old(clients), key, now)
      ensures |clients| <= p.maxKeys
    {
      CalledFacts(p, clients, key, now);
      var tokens := Available(p, Find(clients, key), now);
      allowed := tokens >= 1.0;
      var bucket := Bucket(if allowed then tokens - 1.0 else tokens, now);
      assert bucket == Spent(p, Find(clients, key), now);
      clients := Without(clients, key) + [Entry(key, bucket)];
      Evict(now);
    }

    /** Read-only: never creates a bucket. */
    method Remaining(key: string, now: real) returns (n: int)
      requires Valid(now)
      ensures n as real <= Available(p, Find(clients, key), now) < n as real + 1.0
      ensures 0 <= n <= p.limit
    {
      var b := Find(clients, key);
      if b.Some? {
        var i :| 0 <= i < |clients| && clients[i] == Entry(key, b.value);
        assert BucketOk(p, clients[i].bucket, now);
      }
      SpentIsOk(p, b, now);
      n := Available(p, b, now).Floor;
    }
  }

  // ----- what a call keeps -----

  lemma OrderedPush(p: Params, s: seq<Entry>, e: Entry, now: real)
    requires Ordered(p, s, now) && BucketOk(p, e.bucket, now)
    requires forall x | x in s :: x.key != e.key && x.bucket.last <= e.bucket.last
    ensures Ordered(p, s + [e], now)
  {
    forall i | 0 <= i < |s| ensures s[i].key != e.key && s[i].bucket.last <= e.bucket.last {
      assert s[i] in s;
    }
  }

  lemma OrderedFront(p: Params, s: seq<Entry>, now: real)
    requires Ordered(p, s, now) && s != []
    ensures Ordered(p, s[..|s| - 1], now) && BucketOk(p, s[|s| - 1].bucket, now)
    ensures forall x | x in s[..|s| - 1] :: x.key != s[|s| - 1].key && x.bucket.last <= s[|s| - 1].bucket.last
  {
  }

  lemma {:induction false} WithoutOrdered(p: Params, s: seq<Entry>, key: string, now: real)
    requires Ordered(p, s, now)
    ensures Ordered(p, Without(s, key), now)
  {
    if s != [] {
      var front, last := s[..|s| - 1], s[|s| - 1];
      OrderedFront(p, s, now);
      WithoutOrdered(p, front, key, now);
      if last.key != key { OrderedPush(p, Without(front, key), last, now); }
    }
  }

  lemma TouchedOrdered(p: Params, s: seq<Entry>, key: string, now: real)
    requires p.window > 0.0 && Ordered(p, s, now)
    ensures Ordered(p, Touched(p, s, key, now), now)
  {
    WithoutOrdered(p, s, key, now);
    FoundIsOk(p, s, key, now);
    SpentIsOk(p, Find(s, key), now);
    OrderedPush(p, Without(s, key), Entry(key, Spent(p, Find(s, key), now)), now);
  }

  lemma CalledFacts(p: Params, s: seq<Entry>, key: string, now: real)
    requires p.window > 0.0 && Ordered(p, s, now)
    ensures Ordered(p, Called(p, s, key, now), now) && |Called(p, s, key, now)| <= p.maxKeys
  {
    TouchedOrdered(p, s, key, now);
    EvictedFacts(p, Touched(p, s, key, now), now);
  }

  lemma FoundIsOk(p: Params, s: seq<Entry>, key: string, now: real)
    requires Ordered(p, s, now)
    ensures Find(s, key).Some? ==> BucketOk(p, Find(s, key).value, now)
  {
    if Find(s, key).Some? {
      var i :| 0 <= i < |s| && s[i] == Entry(key, Find(s, key).value);
    }
  }

  lemma {:induction false} EvictedFacts(p: Params, s: seq<Entry>, now: real)
    requires Ordered(p, s, now)
    ensures Ordered(p, Evicted(p, s, now), now)
    ensures |Evicted(p, s, now)| <= p.maxKeys
    ensures |Evicted(p, s, now)| <= |s| && Evicted(p, s, now) == s[|s| - |Evicted(p, s, now)|..]
  {
    if s != [] && !(s[0].bucket.last > now - p.window && |s| <= p.maxKeys) {
      EvictedFacts(p, s[1..], now);
    }
  }

  // ----- runs -----

  datatype Request = Request(key: string, now: real)

  /** The table after a list of calls. */
  function Run(p: Params, calls: seq<Request>): seq<Entry>
    requires p.window > 0.0
  {
    if calls == [] then []
    else
      var c := calls[|calls| - 1];
      Called(p, Run(p, calls[..|calls| - 1]), c.key, c.now)
  }

  ghost predicate Monotone(calls: seq<Request>) {
    forall i, j | 0 <= i < j < |calls| :: calls[i].now <= calls[j].now
  }

  ghost predicate Until(calls: seq<Request>, now: real) {
    forall i | 0 <= i < |calls| :: calls[i].now <= now
  }

  /** The bucket of `key` in a limiter that forgets nothing. */
  function Reference(p: Params, calls: seq<Request>, key: string): Option<Bucket>
    requires p.window > 0.0
  {
    if calls == [] then None
    else
      var front, c := calls[..|calls| - 1], calls[|calls| - 1];
      var b := Reference(p, front, key);
      if c.key == key then Some(Spent(p, b, c.now)) else b
  }

  lemma {:induction false} RunOrdered(p: Params, calls: seq<Request>, now: real)
    requires p.window > 0.0 && Monotone(calls) && Until(calls, now)
    ensures Ordered(p, Run(p, calls), now)
  {
    if calls != [] {
      var front, c := calls[..|calls| - 1], calls[|calls| - 1];
      RunOrdered(p, front, c.now);
      TouchedOrdered(p, Run(p, front), c.key, c.now);
      EvictedFacts(p, Touched(p, Run(p, front), c.key, c.now), c.now);
      assert Ordered(p, Run(p, calls), c.now);
    }
  }

  lemma {:induction false} ReferenceOk(p: Params, calls: seq<Request>, key: string, now: real)
    requires p.window > 0.0 && Monotone(calls) && Until(calls, now)
    ensures var b := Reference(p, calls, key); b.Some? ==> BucketOk(p, b.value, now)
  {
    if calls != [] {
      var front, c := calls[..|calls| - 1], calls[|calls| - 1];
      ReferenceOk(p, front, key, c.now);
      if c.key == key {
        SpentIsOk(p, Reference(p, front, key), c.now);
      }
    }
  }

  /** Making this call on this table drops the bucket of `key`, if at all, only a window or
      more after its last use. */
  ghost predicate DropsOnlyIdle(p: Params, s: seq<Entry>, c: Request, key: string)
    requires p.window > 0.0
  {
    var b := Find(Touched(p, s, c.key, c.now), key);
    b.Some? && Find(Called(p, s, c.key, c.now), key).None? ==> b.value.last <= c.now - p.window
  }

  /** No call of the list dropped the bucket of `key` while it was live. */
  ghost predicate NeverDroppedLive(p: Params, calls: seq<Request>, key: string)
    requires p.window > 0.0
  {
    calls != [] ==>
      var front := calls[..|calls| - 1];
      NeverDroppedLive(p, front, key) && DropsOnlyIdle(p, Run(p, front), calls[|calls| - 1], key)
  }

  /** The kept bucket is the reference one, or was dropped when the reference one was already
      full again. */
  ghost predicate Agrees(p: Params, kept: Option<Bucket>, full: Option<Bucket>, now: real) {
    kept == full || (kept.None? && full.Some? && full.value.tokens >= 0.0 && full.value.last <= now - p.window)
  }

  lemma AgreementMeansSameTokens(p: Params, kept: Option<Bucket>, full: Option<Bucket>, since: real, now: real)
    requires p.window > 0.0 && Agrees(p, kept, full, since) && since <= now
    ensures Available(p, kept, now) == Available(p, full, now)
  {
    if kept != full { IdleIsFull(p, full.value, now); }
  }

  lemma {:induction false} FindSuffix(s: seq<Entry>, n: nat, key: string)
    requires n <= |s| && Find(s[n..], key).Some?
    ensures Find(s, key) == Find(s[n..], key)
  {
    if s[|s| - 1].key != key {
      assert s[n..][..|s| - n - 1] == s[..|s| - 1][n..];
      FindSuffix(s[..|s| - 1], n, key);
    }
  }

  lemma {:induction false} FindWithout(s: seq<Entry>, key: string, other: string)
    requires key != other
    ensures Find(Without(s, other), key) == Find(s, key)
  {
    if s != [] {
      FindWithout(s[..|s| - 1], key, other);
      var front := Without(s[..|s| - 1], other);
      assert (front + [s[|s| - 1]])[..|front|] == front;
    }
  }

  lemma FindTouched(p: Params, s: seq<Entry>, c: Request, key: string)
    requires p.window > 0.0
    ensures Find(Touched(p, s, c.key, c.now), key) ==
            if c.key == key then Some(Spent(p, Find(s, key), c.now)) else Find(s, key)
  {
    var r := Without(s, c.key);
    var t := Touched(p, s, c.key, c.now);
    assert t[..|t| - 1] == r;
    if c.key != key { FindWithout(s, key, c.key); }
  }

  /** One call keeps the agreement. */
  lemma CallKeepsAgreement(p: Params, s: seq<Entry>, full: Option<Bucket>, c: Request, key: string)
    requires p.window > 0.0 && Ordered(p, s, c.now)
    requires full.Some? ==> BucketOk(p, full.value, c.now)
    requires Agrees(p, Find(s, key), full, c.now) && DropsOnlyIdle(p, s, c, key)
    ensures Agrees(p, Find(Called(p, s, c.key, c.now), key), if c.key == key then Some(Spent(p, full, c.now)) else full, c.now)
  {
    var t := Touched(p, s, c.key, c.now);
    FindTouched(p, s, c, key);
    TouchedOrdered(p, s, c.key, c.now);
    EvictedFacts(p, t, c.now);
    if c.key == key {
      AgreementMeansSameTokens(p, Find(s, key), full, c.now, c.now);
      SameTokensSpendAlike(p, Find(s, key), full, c.now);
      SpentIsOk(p, full, c.now);
    }
    FindEvicted(p, t, c.now, key);
  }

  lemma FindEvicted(p: Params, t: seq<Entry>, now: real, key: string)
    requires Ordered(p, t, now)
    ensures Find(Evicted(p, t, now), key).Some? ==> Find(Evicted(p, t, now), key) == Find(t, key)
  {
    EvictedFacts(p, t, now);
    var r := Evicted(p, t, now);
    if Find(r, key).Some? {
      FindSuffix(t, |t| - |r|, key);
    }
  }

  lemma AgreementLasts(p: Params, kept: Option<Bucket>, full: Option<Bucket>, since: real, now: real)
    requires Agrees(p, kept, full, since) && since <= now
    ensures Agrees(p, kept, full, now)
  {
  }

  /** A key whose bucket was never dropped live is treated, call by call, exactly as by a
      limiter that forgets nothing. */
  lemma {:induction false} ActsUnbounded(p: Params, calls: seq<Request>, key: string, now: real)
    requires p.window > 0.0 && Monotone(calls) && Until(calls, now) && NeverDroppedLive(p, calls, key)
    ensures Agrees(p, Find(Run(p, calls), key), Reference(p, calls, key), now)
    ensures Available(p, Find(Run(p, calls), key), now) == Available(p, Reference(p, calls, key), now)
  {
    if calls != [] {
      var front, c := calls[..|calls| - 1], calls[|calls| - 1];
      ActsUnbounded(p, front, key, c.now);
      RunOrdered(p, front, c.now);
      ReferenceOk(p, front, key, c.now);
      CallKeepsAgreement(p, Run(p, front), Reference(p, front, key), c, key);
      AgreementLasts(p, Find(Run(p, calls), key), Reference(p, calls, key), c.now, now);
    }
    AgreementMeansSameTokens(p, Find(Run(p, calls), key), Reference(p, calls, key), now, now);
  }

  lemma SameTokensSpendAlike(p: Params, a: Option<Bucket>, b: Option<Bucket>, now: real)
    requires p.window > 0.0 && Available(p, a, now) == Available(p, b, now)
    ensures Spent(p, a, now) == Spent(p, b, now)
  {
  }

  // ----- when no live bucket is dropped -----

  /** The keys called less than a window before `now`. */
  ghost function RecentKeys(p: Params, calls: seq<Request>, now: real): set<string> {
    set i | 0 <= i < |calls| && calls[i].now > now - p.window :: calls[i].key
  }

  lemma CallTouchesOne(p: Params, s: seq<Entry>, key: string, now: real, e: Entry)
    requires p.window > 0.0 && Ordered(p, s, now) && e in Called(p, s, key, now)
    ensures if e.key == key then e.bucket.last == now else e in s
  {
    TouchedOrdered(p, s, key, now);
    EvictedFacts(p, Touched(p, s, key, now), now);
    assert e in Touched(p, s, key, now);
  }

  /** Every bucket in the table was last touched by one of the calls. */
  lemma {:induction false} EntriesComeFromCalls(p: Params, calls: seq<Request>, e: Entry)
    requires p.window > 0.0 && Monotone(calls) && e in Run(p, calls)
    ensures exists i :: 0 <= i < |calls| && calls[i].key == e.key && calls[i].now == e.bucket.last
  {
    var n := |calls| - 1;
    var front, c := calls[..n], calls[n];
    RunOrdered(p, front, c.now);
    CallTouchesOne(p, Run(p, front), c.key, c.now, e);
    if e.key != c.key {
      EntriesComeFromCalls(p, front, e);
      var i :| 0 <= i < |front| && front[i].key == e.key && front[i].now == e.bucket.last;
      assert calls[i] == front[i];
    } else {
      assert calls[n].now == e.bucket.last;
    }
  }

  lemma OrderedTail(p: Params, s: seq<Entry>, now: real)
    requires Ordered(p, s, now) && s != []
    ensures Ordered(p, s[1..], now)
  {
  }

  /** Eviction reaches a live bucket only when more than `maxKeys` buckets are live: from `n`
      on all are, and there are too many of them. */
  lemma {:induction false} LiveDropMeansFull(p: Params, s: seq<Entry>, now: real, e: Entry) returns (n: nat)
    requires Ordered(p, s, now) && e in s && e !in Evicted(p, s, now) && e.bucket.last > now - p.window
    ensures n <= |s| && |s| - n > p.maxKeys && forall i | n <= i < |s| :: s[i].bucket.last > now - p.window
  {
    if s[0].bucket.last > now - p.window {
      n := 0;
      forall i | 0 <= i < |s| ensures s[i].bucket.last > now - p.window {
        assert i > 0 ==> s[0].bucket.last <= s[i].bucket.last;
      }
    } else {
      assert s == [s[0]] + s[1..];
      OrderedTail(p, s, now);
      n := LiveDropMeansFull(p, s[1..], now, e);
      n := n + 1;
      forall i | n <= i < |s| ensures s[i].bucket.last > now - p.window {
        assert s[i] == s[1..][i - 1];
      }
    }
  }

  /** At every call at most `maxKeys` different keys had been called within the window. */
  ghost predicate CapRespected(p: Params, calls: seq<Request>) {
    calls != [] ==>
      CapRespected(p, calls[..|calls| - 1]) && |RecentKeys(p, calls, calls[|calls| - 1].now)| <= p.maxKeys
  }

  function KeysOf(s: seq<Entry>): (r: seq<string>)
    ensures |r| == |s| && forall i | 0 <= i < |s| :: r[i] == s[i].key
  {
    seq(|s|, i requires 0 <= i < |s| => s[i].key)
  }

  /** Live buckets belong to recently called keys. */
  lemma LiveKeysAreRecent(p: Params, calls: seq<Request>, e: Entry)
    requires p.window > 0.0 && Monotone(calls) && calls != []
    requires var c := calls[|calls| - 1];
             e in Touched(p, Run(p, calls[..|calls| - 1]), c.key, c.now) && e.bucket.last > c.now - p.window
    ensures e.key in RecentKeys(p, calls, calls[|calls| - 1].now)
  {
    var n := |calls| - 1;
    var front, c := calls[..n], calls[n];
    if e.key == c.key {
      assert calls[n].key == e.key;
    } else {
      EntriesComeFromCalls(p, front, e);
      var i :| 0 <= i < |front| && front[i].key == e.key && front[i].now == e.bucket.last;
      assert calls[i].key == e.key;
    }
  }

  lemma CallDropsOnlyIdle(p: Params, calls: seq<Request>, key: string)
    requires p.window > 0.0 && Monotone(calls) && calls != []
    requires |RecentKeys(p, calls, calls[|calls| - 1].now)| <= p.maxKeys
    ensures DropsOnlyIdle(p, Run(p, calls[..|calls| - 1]), calls[|calls| - 1], key)
  {
    var n := |calls| - 1;
    var front, c := calls[..n], calls[n];
    var t := Touched(p, Run(p, front), c.key, c.now);
    var b := Find(t, key);
    if b.Some? && Find(Evicted(p, t, c.now), key).None? && b.value.last > c.now - p.window {
      RunOrdered(p, front, c.now);
      TouchedOrdered(p, Run(p, front), c.key, c.now);
      var m := LiveDropMeansFull(p, t, c.now, Entry(key, b.value));
      var live := KeysOf(t[m..]);
      forall i | 0 <= i < |live| ensures live[i] in RecentKeys(p, calls, c.now) {
        assert t[m + i] in t && t[m + i].bucket.last > c.now - p.window;
        LiveKeysAreRecent(p, calls, t[m + i]);
      }
      DistinctSize(live);
      SubsetSize(Elements(live), RecentKeys(p, calls, c.now));
    }
  }

  /** While the cap on recently seen keys is respected, no live bucket is dropped, so by
      `ActsUnbounded` every answer is that of a limiter that forgets nothing. */
  lemma {:induction false} CapRespectedMeansUnbounded(p: Params, calls: seq<Request>, key: string)
    requires p.window > 0.0 && Monotone(calls) && CapRespected(p, calls)
    ensures NeverDroppedLive(p, calls, key)
  {
    if calls != [] {
      CapRespectedMeansUnbounded(p, calls[..|calls| - 1], key);
      CallDropsOnlyIdle(p, calls, key);
    }
  }

  // ----- how many requests get through -----

  /** 1 when call `n` is a request of `key` that is let through, 0 otherwise. */
  function Took(p: Params, calls: seq<Request>, key: string, n: nat): nat
    requires p.window > 0.0 && n < |calls|
  {
    if calls[n].key == key && Allows(p, Find(Run(p, calls[..n]), key), calls[n].now) then 1 else 0
  }

  function Answers(p: Params, calls: seq<Request>, key: string): (r: seq<nat>)
    requires p.window > 0.0
    ensures |r| == |calls| && forall i | 0 <= i < |calls| :: r[i] == Took(p, calls, key, i)
  {
    seq(|calls|, i requires 0 <= i < |calls| => Took(p, calls, key, i))
  }

  /** How many of the answers `lo` to `hi` let a request through. */
  function Total(answers: seq<nat>, lo: nat, hi: nat): nat
    requires lo <= hi <= |answers|
    decreases hi - lo
  {
    if lo == hi then 0 else Total(answers, lo, hi - 1) + answers[hi - 1]
  }

  lemma AvailableGrowsByRate(p: Params, b: Option<Bucket>, t: real, t': real)
    requires p.window > 0.0 && t <= t' && (b.Some? ==> b.value.last <= t)
    ensures Available(p, b, t') <= Available(p, b, t) + (t' - t) * Rate(p)
  {
    var rate := Rate(p);
    assert rate >= 0.0;
    ProductNonNegative(t' - t, rate);
    if b.Some? {
      SplitProduct(t' - b.value.last, t - b.value.last, t' - t, rate);
    }
  }

  lemma ProductNonNegative(x: real, y: real)
    requires x >= 0.0 && y >= 0.0
    ensures x * y >= 0.0
  {
  }

  lemma SplitProduct(x: real, y: real, z: real, f: real)
    requires x == y + z
    ensures x * f == y * f + z * f
  {
  }

  lemma NoTimeNoRefill(x: real, rate: real)
    requires x == 0.0
    ensures x * rate == 0.0
  {
  }

  lemma SpendingCosts(p: Params, b: Option<Bucket>, now: real)
    requires p.window > 0.0
    ensures Available(p, Some(Spent(p, b, now)), now) == Available(p, b, now) - if Allows(p, b, now) then 1.0 else 0.0
  {
    var s := Spent(p, b, now);
    NoTimeNoRefill(now - s.last, Rate(p));
    assert s.tokens <= p.limit as real;
  }

  /** Tokens of `key` after the first `n` calls, in a limiter that forgets nothing. */
  ghost function RefAvailable(p: Params, calls: seq<Request>, key: string, n: nat, now: real): real
    requires p.window > 0.0 && n <= |calls|
  {
    Available(p, Reference(p, calls[..n], key), now)
  }

  /** Between two calls the bucket gains at most the refill of the time between them. */
  lemma RefillSince(p: Params, calls: seq<Request>, key: string, n: nat)
    requires p.window > 0.0 && Monotone(calls) && 0 < n < |calls|
    ensures RefAvailable(p, calls, key, n, calls[n].now) <=
            RefAvailable(p, calls, key, n, calls[n - 1].now) + (calls[n].now * Rate(p) - calls[n - 1].now * Rate(p))
  {
    ReferenceWithin(p, calls, key, n, calls[n - 1].now);
    AvailableGrowsByRate(p, Reference(p, calls[..n], key), calls[n - 1].now, calls[n].now);
    SpanAdds(calls[n - 1].now, calls[n].now, Rate(p));
  }

  /** What one call lets through it takes from the bucket. */
  lemma CallIsPaidFor(p: Params, calls: seq<Request>, key: string, n: nat)
    requires p.window > 0.0 && Monotone(calls) && NeverDroppedLive(p, calls, key) && n < |calls|
    ensures var c := calls[n];
            RefAvailable(p, calls, key, n + 1, c.now) == RefAvailable(p, calls, key, n, c.now) - Took(p, calls, key, n) as real
  {
    PrefixFacts(p, calls, key, n, calls[n].now);
    assert calls[..n + 1][..n] == calls[..n];
    SpendingCosts(p, Reference(p, calls[..n], key), calls[n].now);
  }

  lemma ReferenceWithin(p: Params, calls: seq<Request>, key: string, n: nat, now: real)
    requires p.window > 0.0 && Monotone(calls) && n <= |calls| && Until(calls[..n], now)
    ensures var b := Reference(p, calls[..n], key); b.Some? ==> b.value.last <= now
    ensures 0.0 <= RefAvailable(p, calls, key, n, now) <= p.limit as real
  {
    ReferenceOk(p, calls[..n], key, now);
    SpentIsOk(p, Reference(p, calls[..n], key), now);
  }

  lemma SpanAdds(a: real, b: real, r: real)
    ensures (b - a) * r == b * r - a * r
  {
  }

  lemma PrefixFacts(p: Params, calls: seq<Request>, key: string, n: nat, now: real)
    requires p.window > 0.0 && Monotone(calls) && NeverDroppedLive(p, calls, key) && n <= |calls|
    requires Until(calls[..n], now)
    ensures Allows(p, Find(Run(p, calls[..n]), key), now) <==> Allows(p, Reference(p, calls[..n], key), now)
  {
    NeverDroppedPrefix(p, calls, key, n);
    ActsUnbounded(p, calls[..n], key, now);
  }

  lemma {:induction false} NeverDroppedPrefix(p: Params, calls: seq<Request>, key: string, n: nat)
    requires p.window > 0.0 && NeverDroppedLive(p, calls, key) && n <= |calls|
    ensures NeverDroppedLive(p, calls[..n], key)
  {
    if n == |calls| {
      assert calls[..n] == calls;
    } else {
      assert calls[..|calls| - 1][..n] == calls[..n];
      NeverDroppedPrefix(p, calls[..|calls| - 1], key, n);
    }
  }

  /** What the refill rate yields from time zero to the call. */
  ghost function Mark(p: Params, c: Request): real
    requires p.window > 0.0
  {
    c.now * Rate(p)
  }

  /** Tokens just before call `i`. */
  ghost function Before(p: Params, calls: seq<Request>, key: string, i: nat): real
    requires p.window > 0.0 && i < |calls|
  {
    RefAvailable(p, calls, key, i, calls[i].now)
  }

  /** Tokens just after call `i`. */
  ghost function After(p: Params, calls: seq<Request>, key: string, i: nat): real
    requires p.window > 0.0 && i < |calls|
  {
    RefAvailable(p, calls, key, i + 1, calls[i].now)
  }

  lemma Balance(p: Params, calls: seq<Request>, key: string, i: nat)
    requires p.window > 0.0 && Monotone(calls) && NeverDroppedLive(p, calls, key) && i < |calls|
    ensures After(p, calls, key, i) == Before(p, calls, key, i) - Answers(p, calls, key)[i] as real
    ensures Before(p, calls, key, i) <= p.limit as real && After(p, calls, key, i) >= 0.0
  {
    CallIsPaidFor(p, calls, key, i);
    ReferenceWithin(p, calls, key, i, calls[i].now);
    ReferenceWithin(p, calls, key, i + 1, calls[i].now);
  }

  lemma Gain(p: Params, calls: seq<Request>, key: string, i: nat)
    requires p.window > 0.0 && Monotone(calls) && i + 1 < |calls|
    ensures Before(p, calls, key, i + 1) <= After(p, calls, key, i) + (Mark(p, calls[i + 1]) - Mark(p, calls[i]))
  {
    RefillSince(p, calls, key, i + 1);
  }

  /** What was let through and what is left is at most `limit` and the refill of the span. */
  lemma {:induction false} Ledger(p: Params, calls: seq<Request>, key: string, lo: nat, n: nat)
    requires p.window > 0.0 && Monotone(calls) && NeverDroppedLive(p, calls, key) && lo <= n < |calls|
    ensures Covered(p, calls, key, lo, n)
    decreases n
  {
    if lo == n {
      Balance(p, calls, key, n);
      assert Total(Answers(p, calls, key), lo, n) == 0;
    } else {
      Ledger(p, calls, key, lo, n - 1);
      LedgerNext(p, calls, key, lo, n);
    }
  }

  ghost predicate Covered(p: Params, calls: seq<Request>, key: string, lo: nat, n: nat)
    requires p.window > 0.0 && lo <= n < |calls|
  {
    Total(Answers(p, calls, key), lo, n + 1) as real + After(p, calls, key, n)
    <= p.limit as real + (Mark(p, calls[n]) - Mark(p, calls[lo]))
  }

  lemma LedgerNext(p: Params, calls: seq<Request>, key: string, lo: nat, n: nat)
    requires p.window > 0.0 && Monotone(calls) && NeverDroppedLive(p, calls, key) && lo < n < |calls|
    requires Covered(p, calls, key, lo, n - 1)
    ensures Covered(p, calls, key, lo, n)
  {
    Balance(p, calls, key, n);
    Gain(p, calls, key, n - 1);
  }

  /** In any span of calls, `lo` to `n`, a key that is never dropped live gets at most `limit`
      requests through plus what `limit / window` tokens per second refill over the span. */
  lemma GrantsAreBounded(p: Params, calls: seq<Request>, key: string, lo: nat, n: nat)
    requires p.window > 0.0 && Monotone(calls) && NeverDroppedLive(p, calls, key) && lo <= n < |calls|
    ensures Total(Answers(p, calls, key), lo, n + 1) as real <= p.limit as real + (Mark(p, calls[n]) - Mark(p, calls[lo]))
  {
    Ledger(p, calls, key, lo, n);
    Balance(p, calls, key, n);
  }
}
