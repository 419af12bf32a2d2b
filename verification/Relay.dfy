/** The relayer's state machine per asset, beside the transaction queue. The tick that visits the
    assets is cut at its suspension points, where the queue may complete a transaction. */
module Relay {
  import opened Wrappers
  import opened Numerals
  import Q = TxQueues

  // ----- the label that carries the symbol through the queue -----

  const PREFIX: string := "updatePrice("
  const STAMP: string := " ts="

  /** White space as a regular expression sees it. */
  predicate IsSpace(c: char) {
    || '\t' <= c <= '\r' || c == ' ' || c == '\U{a0}' || c == '\U{1680}' || '\U{2000}' <= c <= '\U{200a}'
    || c == '\U{2028}' || c == '\U{2029}' || c == '\U{202f}' || c == '\U{205f}' || c == '\U{3000}' || c == '\U{feff}'
  }

  predicate Clean(symbol: string) {
    symbol != [] && forall i | 0 <= i < |symbol| :: !IsSpace(symbol[i])
  }

  function LabelOf(symbol: string, timestamp: nat): string {
    PREFIX + symbol + STAMP + PrintDecimal(timestamp) + ")"
  }

  /** The longest start of `s` without white space. */
  function Word(s: string): (w: string)
    ensures w <= s && forall i | 0 <= i < |w| :: !IsSpace(w[i])
  {
    if s == [] || IsSpace(s[0]) then [] else [s[0]] + Word(s[1..])
  }

  /** The word after the leftmost `prefix` that is followed by one. */
  function WordAfter(prefix: string, s: string): (w: Option<string>)
    ensures w.Some? ==> Clean(w.value)
  {
    if prefix <= s && Word(s[|prefix|..]) != [] then Some(Word(s[|prefix|..]))
    else if s == [] then None
    else WordAfter(prefix, s[1..])
  }

  function SymbolIn(text: string): (w: Option<string>)
    ensures w.Some? ==> Clean(w.value)
  {
    WordAfter(PREFIX, text)
  }

  lemma {:induction false} WordStops(s: string, rest: string)
    requires forall i | 0 <= i < |s| :: !IsSpace(s[i])
    requires rest != [] && IsSpace(rest[0])
    ensures Word(s + rest) == s
  {
    if s == [] {
      assert s + rest == rest;
    } else {
      assert (s + rest)[1..] == s[1..] + rest;
      WordStops(s[1..], rest);
    }
  }

  lemma WordFound(prefix: string, symbol: string, rest: string)
    requires Clean(symbol) && rest != [] && IsSpace(rest[0])
    ensures WordAfter(prefix, prefix + symbol + rest) == Some(symbol)
  {
    var s := prefix + symbol + rest;
    assert s[|prefix|..] == symbol + rest;
    WordStops(symbol, rest);
  }

  /** The callback recovers the symbol from the label exactly when it is non-empty and free of
      white space. */
  lemma LabelCarriesSymbol(symbol: string, timestamp: nat)
    ensures SymbolIn(LabelOf(symbol, timestamp)) == Some(symbol) <==> Clean(symbol)
  {
    if Clean(symbol) {
      var rest := STAMP + PrintDecimal(timestamp) + ")";
      assert rest[0] == ' ';
      assert LabelOf(symbol, timestamp) == PREFIX + symbol + rest;
      WordFound(PREFIX, symbol, rest);
    }
  }

  // ----- assets -----

  const MIN_RELAY_GAP: int := 8
  const MIN_SOURCES: nat := 3

  datatype AssetState = Idle | Fresh | Submitting

  datatype Price = Price(symbol: string, timestamp: nat, sources: nat)

  datatype Asset = Asset(state: AssetState, latest: Price, onchain: nat, lastRelayedAt: int)

  /** Where the tick is suspended: nowhere, while reading the chain and checking the signature,
      or while looking up the contract address. */
  datatype Visit = Between | Checking(symbol: string, now: int) | Addressing(symbol: string, now: int)

  datatype Relayer = Relayer(assets: map<string, Asset>, visit: Visit, queue: Q.Queue)

  const START: Relayer := Relayer(map[], Between, Q.EMPTY)

  function SetState(assets: map<string, Asset>, symbol: string, state: AssetState): map<string, Asset>
    requires symbol in assets
  {
    assets[symbol := assets[symbol].(state := state)]
  }

  function Upserted(assets: map<string, Asset>, p: Price): map<string, Asset> {
    if p.symbol !in assets then assets[p.symbol := Asset(Fresh, p, 0, 0)]
    else
      var a := assets[p.symbol];
      if p.timestamp > a.latest.timestamp
      then assets[p.symbol := a.(latest := p, state := if a.state == Idle then Fresh else a.state)]
      else assets
  }

  /** The part of a visit before the first suspension. */
  function Visited(r: Relayer, symbol: string, now: int): Relayer
    requires symbol in r.assets
  {
    var a := r.assets[symbol];
    if a.state == Submitting || now - a.lastRelayedAt < MIN_RELAY_GAP then r
    else if a.latest.sources < MIN_SOURCES then r.(assets := SetState(r.assets, symbol, Idle))
    else r.(visit := Checking(symbol, now))
  }

  /** The chain's timestamp and the signature check are in. */
  function Checked(r: Relayer, onchain: nat, signed: bool): Relayer
    requires r.visit.Checking? && r.visit.symbol in r.assets
  {
    var symbol := r.visit.symbol;
    var assets := r.assets[symbol := r.assets[symbol].(onchain := onchain)];
    if assets[symbol].latest.timestamp <= onchain || !signed
    then r.(assets := SetState(assets, symbol, Idle), visit := Between)
    else r.(assets := SetState(assets, symbol, Submitting), visit := Addressing(symbol, r.visit.now))
  }

  /** The address is known and the transaction is queued, or the lookup throws out of the tick. */
  function Addressed(r: Relayer, found: bool): Relayer
    requires r.visit.Addressing? && r.visit.symbol in r.assets
  {
    var symbol := r.visit.symbol;
    var a := r.assets[symbol];
    if !found then r.(visit := Between)
    else Relayer(r.assets[symbol := a.(lastRelayedAt := r.visit.now)], Between,
                 Q.Pushed(r.queue, LabelOf(symbol, a.latest.timestamp)))
  }

  /** The completion callback. */
  function Released(assets: map<string, Asset>, text: string): map<string, Asset> {
    var symbol := SymbolIn(text);
    if symbol.None? || symbol.value !in assets then assets else SetState(assets, symbol.value, Idle)
  }

  /** A step of the drain loop, with the callback when it completed an intent. */
  function Drained(r: Relayer, e: Q.Event): Relayer {
    var queue := Q.Next(r.queue, e);
    r.(queue := queue,
       assets := if |queue.done| > |r.queue.done| then Released(r.assets, queue.done[|r.queue.done|].intent.text) else r.assets)
  }

  datatype Event =
    | Upsert(price: Price)
    | Look(symbol: string, now: int)
    | Check(onchain: nat, signed: bool)
    | Address(found: bool)
    | Drain(reply: Q.Reply, chainNonce: nat)

  function Next(r: Relayer, e: Event): Relayer {
    match e
    case Upsert(p) => if r.visit == Between then r.(assets := Upserted(r.assets, p)) else r
    case Look(symbol, now) => if r.visit == Between && symbol in r.assets then Visited(r, symbol, now) else r
    case Check(onchain, signed) =>
      if r.visit.Checking? && r.visit.symbol in r.assets then Checked(r, onchain, signed) else r
    case Address(found) =>
      if r.visit.Addressing? && r.visit.symbol in r.assets then Addressed(r, found) else r
    case Drain(reply, chainNonce) => Drained(r, Q.Resume(r.queue, reply, chainNonce))
  }

  function RunFrom(r: Relayer, events: seq<Event>): Relayer {
    if events == [] then r else Next(RunFrom(r, events[..|events| - 1]), events[|events| - 1])
  }

  // ----- one outstanding transaction per asset -----

  function Owner(i: Q.Intent): Option<string> {
    SymbolIn(i.text)
  }

  /** Every outstanding intent belongs to its own asset, which is in the submitting state. */
  ghost predicate Owned(assets: map<string, Asset>, out: seq<Q.Intent>) {
    && (forall i | 0 <= i < |out| ::
          Owner(out[i]).Some? && Owner(out[i]).value in assets && assets[Owner(out[i]).value].state == Submitting)
    && (forall i, j | 0 <= i < j < |out| :: Owner(out[i]) != Owner(out[j]))
  }

  ghost predicate Owns(out: seq<Q.Intent>, symbol: string) {
    exists i :: 0 <= i < |out| && Owner(out[i]) == Some(symbol)
  }

  ghost predicate Inv(r: Relayer) {
    var out := Q.Outstanding(r.queue);
    && Q.InOrder(r.queue)
    && (forall s | s in r.assets :: Clean(s))
    && Owned(r.assets, out)
    && (r.visit.Checking? ==> r.visit.symbol in r.assets && r.assets[r.visit.symbol].state != Submitting)
    && (r.visit.Addressing? ==>
          r.visit.symbol in r.assets && r.assets[r.visit.symbol].state == Submitting && !Owns(out, r.visit.symbol))
  }

  lemma PushKeepsOwned(assets: map<string, Asset>, out: seq<Q.Intent>, i: Q.Intent, symbol: string, now: int)
    requires Owned(assets, out) && Owner(i) == Some(symbol) && !Owns(out, symbol)
    requires symbol in assets && assets[symbol].state == Submitting
    ensures Owned(assets[symbol := assets[symbol].(lastRelayedAt := now)], out + [i])
  {
  }

  lemma ReleaseKeepsOwned(assets: map<string, Asset>, out: seq<Q.Intent>)
    requires Owned(assets, out) && out != []
    ensures Owned(Released(assets, out[0].text), out[1..])
    ensures forall s | s in assets :: s in Released(assets, out[0].text)
    ensures forall s | s in assets && Owner(out[0]) != Some(s) :: Released(assets, out[0].text)[s] == assets[s]
  {
    var assets' := Released(assets, out[0].text);
    forall i | 0 <= i < |out[1..]|
      ensures Owner(out[1..][i]).Some? && Owner(out[1..][i]).value in assets' && assets'[Owner(out[1..][i]).value].state == Submitting
    {
      assert out[1..][i] == out[i + 1];
    }
  }

  /** Intents with the same labels have the same owners. */
  lemma SameTextsOwned(assets: map<string, Asset>, out: seq<Q.Intent>, out': seq<Q.Intent>)
    requires |out'| == |out| && forall i | 0 <= i < |out| :: out'[i].text == out[i].text
    ensures Owned(assets, out) ==> Owned(assets, out')
    ensures forall s: string :: Owns(out', s) <==> Owns(out, s)
  {
    assert forall i | 0 <= i < |out| :: Owner(out'[i]) == Owner(out[i]);
    forall s: string ensures Owns(out', s) <==> Owns(out, s) {
      if Owns(out, s) {
        var i :| 0 <= i < |out| && Owner(out[i]) == Some(s);
        assert Owner(out'[i]) == Some(s);
      }
      if Owns(out', s) {
        var i :| 0 <= i < |out'| && Owner(out'[i]) == Some(s);
        assert Owner(out[i]) == Some(s);
      }
    }
  }

  lemma TailOwns(out: seq<Q.Intent>, symbol: string)
    requires out != [] && Owns(out[1..], symbol)
    ensures Owns(out, symbol)
  {
    var i :| 0 <= i < |out[1..]| && Owner(out[1..][i]) == Some(symbol);
    assert Owner(out[i + 1]) == Some(symbol);
  }

  lemma UpsertKeeps(r: Relayer, p: Price)
    requires Inv(r) && Clean(p.symbol) && r.visit == Between
    ensures Inv(r.(assets := Upserted(r.assets, p)))
  {
    var out := Q.Outstanding(r.queue);
    forall i | 0 <= i < |out|
      ensures Owner(out[i]).value in Upserted(r.assets, p) && Upserted(r.assets, p)[Owner(out[i]).value].state == Submitting
    {
    }
  }

  /** An asset that is not submitting owns nothing, so its state may be set freely. */
  lemma FreeAsset(assets: map<string, Asset>, out: seq<Q.Intent>, symbol: string, a: Asset)
    requires Owned(assets, out) && symbol in assets && assets[symbol].state != Submitting
    ensures Owned(assets[symbol := a], out) && !Owns(out, symbol)
  {
  }

  lemma LookKeeps(r: Relayer, symbol: string, now: int)
    requires Inv(r) && r.visit == Between && symbol in r.assets
    ensures Inv(Visited(r, symbol, now))
  {
    if r.assets[symbol].state != Submitting {
      FreeAsset(r.assets, Q.Outstanding(r.queue), symbol, r.assets[symbol].(state := Idle));
    }
  }

  lemma CheckKeeps(r: Relayer, onchain: nat, signed: bool)
    requires Inv(r) && r.visit.Checking?
    ensures Inv(Checked(r, onchain, signed))
  {
    var s := r.visit.symbol;
    var r' := Checked(r, onchain, signed);
    assert r'.assets == r.assets[s := r'.assets[s]];
    FreeAsset(r.assets, Q.Outstanding(r.queue), s, r'.assets[s]);
  }

  lemma AddressKeeps(r: Relayer, found: bool)
    requires Inv(r) && r.visit.Addressing?
    ensures Inv(Addressed(r, found))
  {
    if found {
      var s := r.visit.symbol;
      var text := LabelOf(s, r.assets[s].latest.timestamp);
      LabelCarriesSymbol(s, r.assets[s].latest.timestamp);
      Q.PushAppends(r.queue, text);
      Q.NextKeepsOrder(r.queue, Q.Push(text));
      PushKeepsOwned(r.assets, Q.Outstanding(r.queue), Q.Intent(r.queue.pushed, text, 0), s, r.visit.now);
    }
  }

  lemma DrainKeeps(r: Relayer, reply: Q.Reply, chainNonce: nat)
    requires Inv(r)
    ensures Inv(Drained(r, Q.Resume(r.queue, reply, chainNonce)))
  {
    var e := Q.Resume(r.queue, reply, chainNonce);
    var out, r' := Q.Outstanding(r.queue), Drained(r, e);
    Q.NextKeepsOrder(r.queue, e);
    Q.ResumeFacts(r.queue, reply, chainNonce);
    if |r'.queue.done| > |r.queue.done| {
      ReleaseKeepsOwned(r.assets, out);
      if r.visit.Addressing? && Owns(out[1..], r.visit.symbol) { TailOwns(out, r.visit.symbol); }
      if r.visit.Addressing? { HeadIsOther(out, r.visit.symbol); }
    } else {
      SameTextsOwned(r.assets, out, Q.Outstanding(r'.queue));
    }
  }

  lemma HeadIsOther(out: seq<Q.Intent>, symbol: string)
    requires out != [] && !Owns(out, symbol)
    ensures Owner(out[0]) != Some(symbol)
  {
  }

  ghost predicate CleanEvent(e: Event) {
    e.Upsert? ==> Clean(e.price.symbol)
  }

  lemma NextKeeps(r: Relayer, e: Event)
    requires Inv(r) && CleanEvent(e)
    ensures Inv(Next(r, e))
  {
    match e {
      case Upsert(p) => if r.visit == Between { UpsertKeeps(r, p); }
      case Look(symbol, now) => if r.visit == Between && symbol in r.assets { LookKeeps(r, symbol, now); }
      case Check(onchain, signed) => if r.visit.Checking? { CheckKeeps(r, onchain, signed); }
      case Address(found) => if r.visit.Addressing? { AddressKeeps(r, found); }
      case Drain(reply, chainNonce) => DrainKeeps(r, reply, chainNonce);
    }
  }

  lemma {:induction false} RunKeeps(events: seq<Event>)
    requires forall i | 0 <= i < |events| :: CleanEvent(events[i])
    ensures Inv(RunFrom(START, events))
  {
    if events != [] {
      RunKeeps(events[..|events| - 1]);
      NextKeeps(RunFrom(START, events[..|events| - 1]), events[|events| - 1]);
    }
  }

  /** Over every run in which the symbols are non-empty and free of white space, every outstanding
      intent belongs to an asset in the submitting state, and no two to the same. */
  lemma OneOutstandingPerAsset(events: seq<Event>)
    requires forall k | 0 <= k < |events| :: CleanEvent(events[k])
    ensures Owned(RunFrom(START, events).assets, Q.Outstanding(RunFrom(START, events).queue))
  {
    RunKeeps(events);
  }

  // ----- no asset waits for nothing -----

  /** An asset is submitting only while it owns an intent or is about to. */
  ghost predicate Waited(r: Relayer) {
    forall s | s in r.assets && r.assets[s].state == Submitting ::
      Owns(Q.Outstanding(r.queue), s) || (r.visit.Addressing? && r.visit.symbol == s)
  }

  lemma AppendOwns(out: seq<Q.Intent>, i: Q.Intent, symbol: string)
    ensures Owns(out, symbol) || Owner(i) == Some(symbol) ==> Owns(out + [i], symbol)
  {
    if Owns(out, symbol) {
      var k :| 0 <= k < |out| && Owner(out[k]) == Some(symbol);
      assert Owner((out + [i])[k]) == Some(symbol);
    } else if Owner(i) == Some(symbol) {
      assert Owner((out + [i])[|out|]) == Some(symbol);
    }
  }

  lemma SplitOwns(out: seq<Q.Intent>, symbol: string)
    requires out != [] && Owns(out, symbol) && Owner(out[0]) != Some(symbol)
    ensures Owns(out[1..], symbol)
  {
    var i :| 0 <= i < |out| && Owner(out[i]) == Some(symbol);
    assert Owner(out[1..][i - 1]) == Some(symbol);
  }

  lemma AddressWaits(r: Relayer)
    requires Inv(r) && Waited(r) && r.visit.Addressing?
    ensures Waited(Addressed(r, true))
  {
    var s := r.visit.symbol;
    var text := LabelOf(s, r.assets[s].latest.timestamp);
    LabelCarriesSymbol(s, r.assets[s].latest.timestamp);
    Q.PushAppends(r.queue, text);
    var i := Q.Intent(r.queue.pushed, text, 0);
    forall t: string { AppendOwns(Q.Outstanding(r.queue), i, t); }
  }

  lemma DrainWaits(r: Relayer, reply: Q.Reply, chainNonce: nat)
    requires Inv(r) && Waited(r)
    ensures Waited(Drained(r, Q.Resume(r.queue, reply, chainNonce)))
  {
    var out, r' := Q.Outstanding(r.queue), Drained(r, Q.Resume(r.queue, reply, chainNonce));
    Q.ResumeFacts(r.queue, reply, chainNonce);
    if |r'.queue.done| > |r.queue.done| {
      ReleaseKeepsOwned(r.assets, out);
      forall s | s in r'.assets && r'.assets[s].state == Submitting
        ensures Owns(out[1..], s) || (r.visit.Addressing? && r.visit.symbol == s)
      {
        assert Owner(out[0]) != Some(s);
        assert r'.assets[s] == r.assets[s];
        if Owns(out, s) { SplitOwns(out, s); }
      }
    } else {
      SameTextsOwned(r.assets, out, Q.Outstanding(r'.queue));
    }
  }

  lemma NextWaits(r: Relayer, e: Event)
    requires Inv(r) && Waited(r) && e != Address(false)
    ensures Waited(Next(r, e))
  {
    match e {
      case Address(found) => if r.visit.Addressing? { AddressWaits(r); }
      case Drain(reply, chainNonce) => DrainWaits(r, reply, chainNonce);
      case _ =>
    }
  }

  lemma RunConcat(r: Relayer, first: seq<Event>, rest: seq<Event>)
    ensures RunFrom(r, first + rest) == RunFrom(RunFrom(r, first), rest)
    decreases rest
  {
    if rest == [] {
      assert first + rest == first;
    } else {
      var n := |rest| - 1;
      assert (first + rest)[..|first + rest| - 1] == first + rest[..n];
      RunConcat(r, first, rest[..n]);
    }
  }

  /** Event `k` of the run is an address lookup that throws out of the tick. */
  ghost predicate Throws(events: seq<Event>, k: int) {
    0 <= k < |events| && events[k] == Address(false) && RunFrom(START, events[..k]).visit.Addressing?
  }

  /** If moreover no address lookup throws, a submitting asset always has an intent outstanding or
      is just about to queue one, so no asset stays blocked. */
  lemma {:induction false} SubmittingIsOutstanding(events: seq<Event>)
    requires forall k | 0 <= k < |events| :: CleanEvent(events[k])
    requires forall k :: !Throws(events, k)
    ensures Waited(RunFrom(START, events))
  {
    if events != [] {
      var n := |events| - 1;
      var front := events[..n];
      forall k | 0 <= k < n ensures CleanEvent(front[k]) && !Throws(front, k) {
        assert front[..k] == events[..k] && !Throws(events, k);
      }
      SubmittingIsOutstanding(front);
      RunKeeps(front);
      assert !Throws(events, n);
      if events[n] != Address(false) {
        NextWaits(RunFrom(START, front), events[n]);
      }
    }
  }

  /** Submitting, with no intent outstanding and no visit that would queue one. */
  ghost predicate Stranded(r: Relayer, symbol: string) {
    && symbol in r.assets && r.assets[symbol].state == Submitting && !Owns(Q.Outstanding(r.queue), symbol)
    && !(r.visit.Addressing? && r.visit.symbol == symbol)
  }

  /** A lookup that throws leaves its asset stranded: the state was set before it. */
  lemma ThrowStrands(r: Relayer)
    requires Inv(r) && r.visit.Addressing?
    ensures Stranded(Next(r, Address(false)), r.visit.symbol)
  {
  }

  lemma PushOwnsOther(out: seq<Q.Intent>, i: Q.Intent, symbol: string)
    requires !Owns(out, symbol) && Owner(i) != Some(symbol)
    ensures !Owns(out + [i], symbol)
  {
  }

  lemma AddressStaysStranded(r: Relayer, symbol: string)
    requires Inv(r) && Stranded(r, symbol) && r.visit.Addressing?
    ensures Stranded(Addressed(r, true), symbol)
  {
    var s := r.visit.symbol;
    var text := LabelOf(s, r.assets[s].latest.timestamp);
    LabelCarriesSymbol(s, r.assets[s].latest.timestamp);
    Q.PushAppends(r.queue, text);
    PushOwnsOther(Q.Outstanding(r.queue), Q.Intent(r.queue.pushed, text, 0), symbol);
  }

  lemma DrainStaysStranded(r: Relayer, reply: Q.Reply, chainNonce: nat, symbol: string)
    requires Inv(r) && Stranded(r, symbol)
    ensures Stranded(Drained(r, Q.Resume(r.queue, reply, chainNonce)), symbol)
  {
    var out, r' := Q.Outstanding(r.queue), Drained(r, Q.Resume(r.queue, reply, chainNonce));
    Q.ResumeFacts(r.queue, reply, chainNonce);
    if |r'.queue.done| > |r.queue.done| {
      ReleaseKeepsOwned(r.assets, out);
      HeadIsOther(out, symbol);
      if Owns(out[1..], symbol) { TailOwns(out, symbol); }
    } else {
      SameTextsOwned(r.assets, out, Q.Outstanding(r'.queue));
    }
  }

  lemma NextStaysStranded(r: Relayer, e: Event, symbol: string)
    requires Inv(r) && Stranded(r, symbol)
    ensures Stranded(Next(r, e), symbol)
  {
    match e {
      case Address(found) => if r.visit.Addressing? && found { AddressStaysStranded(r, symbol); }
      case Drain(reply, chainNonce) => DrainStaysStranded(r, reply, chainNonce, symbol);
      case _ =>
    }
  }

  /** And for good: no further event releases it. */
  lemma {:induction false} StrandedForGood(r: Relayer, events: seq<Event>, symbol: string)
    requires Inv(r) && Stranded(r, symbol) && forall k | 0 <= k < |events| :: CleanEvent(events[k])
    ensures Inv(RunFrom(r, events)) && Stranded(RunFrom(r, events), symbol)
  {
    if events != [] {
      var n := |events| - 1;
      StrandedForGood(r, events[..n], symbol);
      NextKeeps(RunFrom(r, events[..n]), events[n]);
      NextStaysStranded(RunFrom(r, events[..n]), events[n], symbol);
    }
  }

  lemma ThrowStrandsForGood(events: seq<Event>, k: nat) returns (symbol: string)
    requires Throws(events, k) && forall i | 0 <= i < |events| :: CleanEvent(events[i])
    ensures Stranded(RunFrom(START, events), symbol)
  {
    var first, rest := events[..k + 1], events[k + 1..];
    assert first[..k] == events[..k];
    symbol := EndsStranded(first);
    StrandedForGood(RunFrom(START, first), rest, symbol);
    assert events == first + rest;
    RunConcat(START, first, rest);
  }

  lemma EndsStranded(events: seq<Event>) returns (symbol: string)
    requires Throws(events, |events| - 1) && forall i | 0 <= i < |events| :: CleanEvent(events[i])
    ensures Inv(RunFrom(START, events)) && Stranded(RunFrom(START, events), symbol)
  {
    var before := RunFrom(START, events[..|events| - 1]);
    symbol := before.visit.symbol;
    RunKeeps(events[..|events| - 1]);
    NextKeeps(before, Address(false));
    ThrowStrands(before);
  }

  /** Over every run with clean symbols, no asset waits for nothing exactly when no address lookup
      ever threw. */
  lemma WaitedExactly(events: seq<Event>)
    requires forall k | 0 <= k < |events| :: CleanEvent(events[k])
    ensures Waited(RunFrom(START, events)) <==> forall k :: !Throws(events, k)
  {
    if k :| Throws(events, k) {
      var symbol := ThrowStrandsForGood(events, k);
    } else {
      SubmittingIsOutstanding(events);
    }
  }

  // ----- what is worth a transaction -----

  /** The asset under visit passed the local rules so far: enough sources and time since the last
      relay, and then a price newer than the chain's. */
  ghost predicate Vetted(r: Relayer) {
    r.visit != Between ==>
      && r.visit.symbol in r.assets
      && r.assets[r.visit.symbol].latest.sources >= MIN_SOURCES
      && r.visit.now - r.assets[r.visit.symbol].lastRelayedAt >= MIN_RELAY_GAP
      && (r.visit.Addressing? ==> r.assets[r.visit.symbol].latest.timestamp > r.assets[r.visit.symbol].onchain)
  }

  /** The callback touches nothing but states. */
  lemma ReleaseKeepsRest(assets: map<string, Asset>, text: string)
    ensures Released(assets, text).Keys == assets.Keys
    ensures forall s | s in assets :: Released(assets, text)[s] == assets[s].(state := Released(assets, text)[s].state)
  {
  }

  lemma DrainKeepsVetted(r: Relayer, e: Q.Event)
    requires Vetted(r)
    ensures Vetted(Drained(r, e))
  {
    var queue := Q.Next(r.queue, e);
    if |queue.done| > |r.queue.done| {
      ReleaseKeepsRest(r.assets, queue.done[|r.queue.done|].intent.text);
    }
  }

  lemma NextKeepsVetted(r: Relayer, e: Event)
    requires Vetted(r)
    ensures Vetted(Next(r, e))
  {
    match e {
      case Drain(reply, chainNonce) => DrainKeepsVetted(r, Q.Resume(r.queue, reply, chainNonce));
      case _ =>
    }
  }

  lemma {:induction false} RunKeepsVetted(events: seq<Event>)
    ensures Vetted(RunFrom(START, events))
  {
    if events != [] {
      RunKeepsVetted(events[..|events| - 1]);
      NextKeepsVetted(RunFrom(START, events[..|events| - 1]), events[|events| - 1]);
    }
  }

  /** Over every run a transaction is queued only for a price with enough sources, newer than the
      chain's at the last read, and at least the gap after the asset's previous relay. */
  lemma QueuedIsFresh(events: seq<Event>, e: Event)
    requires var r := RunFrom(START, events); Next(r, e).queue.pushed > r.queue.pushed
    ensures var r := RunFrom(START, events);
            && e == Address(true) && r.visit.Addressing? && r.visit.symbol in r.assets
            && var a := r.assets[r.visit.symbol];
               && a.latest.sources >= 3 && a.latest.timestamp > a.onchain && r.visit.now - a.lastRelayedAt >= 8
               && Next(r, e).queue == Q.Pushed(r.queue, LabelOf(r.visit.symbol, a.latest.timestamp))
  {
    RunKeepsVetted(events);
    if e.Drain? {
      Q.TurnPushesNothing(RunFrom(START, events).queue, e.reply, e.chainNonce);
    }
  }

  lemma NextKeepsNewest(r: Relayer, e: Event, symbol: string)
    requires symbol in r.assets
    ensures symbol in Next(r, e).assets && Next(r, e).assets[symbol].latest.timestamp >= r.assets[symbol].latest.timestamp
  {
    if e.Drain? {
      var queue := Q.Next(r.queue, Q.Resume(r.queue, e.reply, e.chainNonce));
      if |queue.done| > |r.queue.done| {
        ReleaseKeepsRest(r.assets, queue.done[|r.queue.done|].intent.text);
      }
    }
  }

  /** Over every run the price kept for an asset only ever gets newer. */
  lemma {:induction false} PricesOnlyGetNewer(r: Relayer, events: seq<Event>, symbol: string)
    requires symbol in r.assets
    ensures symbol in RunFrom(r, events).assets
    ensures RunFrom(r, events).assets[symbol].latest.timestamp >= r.assets[symbol].latest.timestamp
  {
    if events != [] {
      PricesOnlyGetNewer(r, events[..|events| - 1], symbol);
      NextKeepsNewest(RunFrom(r, events[..|events| - 1]), events[|events| - 1], symbol);
    }
  }

  // ----- the symbols the label cannot carry -----

  lemma NextStaysStuck(r: Relayer, e: Event, symbol: string)
    requires !Clean(symbol) && symbol in r.assets && r.assets[symbol].state == Submitting
    requires r.visit.Checking? ==> r.visit.symbol != symbol
    ensures var r' := Next(r, e);
            && symbol in r'.assets && r'.assets[symbol].state == Submitting
            && (r'.visit.Checking? ==> r'.visit.symbol != symbol)
  {
  }

  /** An asset whose symbol is empty or has white space, once submitting, never leaves that state,
      whatever completes. */
  lemma {:induction false} UncleanSymbolIsStuck(r: Relayer, events: seq<Event>, symbol: string)
    requires !Clean(symbol) && symbol in r.assets && r.assets[symbol].state == Submitting
    requires r.visit.Checking? ==> r.visit.symbol != symbol
    ensures var r' := RunFrom(r, events);
            && symbol in r'.assets && r'.assets[symbol].state == Submitting
            && (r'.visit.Checking? ==> r'.visit.symbol != symbol)
  {
    if events != [] {
      UncleanSymbolIsStuck(r, events[..|events| - 1], symbol);
      NextStaysStuck(RunFrom(r, events[..|events| - 1]), events[|events| - 1], symbol);
    }
  }

  lemma RunThen(events: seq<Event>, e: Event)
    ensures RunFrom(START, events + [e]) == Next(RunFrom(START, events), e)
  {
    assert (events + [e])[..|events|] == events;
  }

  /** The asset may be relayed at `now`: not submitting, price with enough sources, gap over. */
  ghost predicate Relayable(r: Relayer, symbol: string, now: int) {
    && r.visit == Between && symbol in r.assets && r.assets[symbol].state != Submitting
    && r.assets[symbol].latest.sources >= MIN_SOURCES && r.assets[symbol].latest.timestamp > 0
    && now - r.assets[symbol].lastRelayedAt >= MIN_RELAY_GAP
  }

  function Relayed(a: Asset, now: int): Asset {
    a.(state := Submitting, onchain := 0, lastRelayedAt := now)
  }

  /** A visit against an empty chain with a good signature queues a transaction. */
  lemma VisitQueues(r: Relayer, symbol: string, now: int)
    requires Relayable(r, symbol, now)
    ensures var r' := Next(Next(Next(r, Look(symbol, now)), Check(0, true)), Address(true));
            && r'.visit == Between && r'.assets == r.assets[symbol := Relayed(r.assets[symbol], now)]
            && r'.queue == Q.Pushed(r.queue, LabelOf(symbol, r.assets[symbol].latest.timestamp))
  {
    var r1 := Next(r, Look(symbol, now));
    assert r1 == r.(visit := Checking(symbol, now));
    var r2 := Next(r1, Check(0, true));
    assert r2.visit == Addressing(symbol, now) && r2.queue == r.queue;
    assert r2.assets == r.assets[symbol := r.assets[symbol].(state := Submitting, onchain := 0)];
  }

  /** The same at the end of a run from the start. */
  lemma RunVisit(events: seq<Event>, symbol: string, now: int) returns (more: seq<Event>)
    requires Relayable(RunFrom(START, events), symbol, now)
    ensures more == events + [Look(symbol, now), Check(0, true), Address(true)]
    ensures var r, r' := RunFrom(START, events), RunFrom(START, more);
            && r'.visit == Between && r'.assets == r.assets[symbol := Relayed(r.assets[symbol], now)]
            && r'.queue == Q.Pushed(r.queue, LabelOf(symbol, r.assets[symbol].latest.timestamp))
  {
    VisitQueues(RunFrom(START, events), symbol, now);
    RunThen(events, Look(symbol, now));
    RunThen(events + [Look(symbol, now)], Check(0, true));
    RunThen(events + [Look(symbol, now)] + [Check(0, true)], Address(true));
    more := events + [Look(symbol, now)] + [Check(0, true)] + [Address(true)];
  }

  /** Its first transaction confirmed, the queue is empty, and an asset with an unclean symbol is
      left submitting with nothing outstanding: the condition of `SubmittingIsOutstanding` on
      symbols cannot be weakened. */
  lemma UncleanIsStranded(p: Price, now: int) returns (events: seq<Event>)
    requires !Clean(p.symbol) && p.sources >= MIN_SOURCES && p.timestamp > 0 && now >= MIN_RELAY_GAP
    ensures forall k | 0 <= k < |events| :: (events[k].Upsert? ==> events[k].price == p) && events[k] != Address(false)
    ensures var r := RunFrom(START, events);
            && p.symbol in r.assets && r.assets[p.symbol].state == Submitting
            && Q.Outstanding(r.queue) == [] && r.visit == Between && !Waited(r)
  {
    RunThen([], Upsert(p));
    assert [] + [Upsert(p)] == [Upsert(p)];
    events := RunVisit([Upsert(p)], p.symbol, now);
    LabelCarriesSymbol(p.symbol, p.timestamp);
    ConfirmAlone(RunFrom(START, events), p.symbol, LabelOf(p.symbol, p.timestamp));
    RunThen(events, Drain(Q.Mined(true), 0));
    events := events + [Drain(Q.Mined(true), 0)];
  }

  /** A label that does not name the only asset releases nothing. */
  lemma ConfirmAlone(r: Relayer, symbol: string, text: string)
    requires r.assets.Keys == {symbol} && r.assets[symbol].state == Submitting && r.visit == Between
    requires r.queue == Q.Pushed(Q.EMPTY, text) && SymbolIn(text) != Some(symbol)
    ensures var r' := Next(r, Drain(Q.Mined(true), 0));
            r'.assets == r.assets && Q.Outstanding(r'.queue) == [] && r'.visit == Between && !Waited(r')
  {
    assert r.queue.drainer == Q.Sending(Q.Intent(0, text, 0)) && r.queue.queue == [] && r.queue.done == [];
  }

  ghost predicate OnlySymbols(events: seq<Event>, symbols: set<string>) {
    forall k | 0 <= k < |events| && events[k].Upsert? :: events[k].price.symbol in symbols
  }

  ghost predicate OwnedAfter(events: seq<Event>) {
    Owned(RunFrom(START, events).assets, Q.Outstanding(RunFrom(START, events).queue))
  }

  lemma UncleanIsDisowned(symbol: string) returns (events: seq<Event>)
    requires !Clean(symbol)
    ensures OnlySymbols(events, {symbol}) && !OwnedAfter(events)
  {
    var p := Price(symbol, 1, MIN_SOURCES);
    RunThen([], Upsert(p));
    assert [] + [Upsert(p)] == [Upsert(p)];
    events := RunVisit([Upsert(p)], symbol, MIN_RELAY_GAP);
    LabelCarriesSymbol(symbol, 1);
    var r := RunFrom(START, events);
    assert Q.Outstanding(r.queue) == [Q.Intent(0, LabelOf(symbol, 1), 0)];
    assert r.assets.Keys == {symbol};
    assert Owner(Q.Outstanding(r.queue)[0]) != Some(symbol);
  }

  /** Every run over these symbols keeps the outstanding intents their own assets' exactly when
      each of them is non-empty and free of white space. */
  lemma OwnershipExactly(symbols: set<string>)
    ensures (forall events: seq<Event> | OnlySymbols(events, symbols) :: OwnedAfter(events)) <==>
            forall s | s in symbols :: Clean(s)
  {
    if forall s | s in symbols :: Clean(s) {
      forall events: seq<Event> | OnlySymbols(events, symbols) ensures OwnedAfter(events) {
        OneOutstandingPerAsset(events);
      }
    } else {
      var symbol :| symbol in symbols && !Clean(symbol);
      var events := UncleanIsDisowned(symbol);
      assert OnlySymbols(events, symbols) && !OwnedAfter(events);
    }
  }

  ghost predicate OnlyPrices(events: seq<Event>, p: Price, other: Price) {
    forall k | 0 <= k < |events| && events[k].Upsert? :: events[k].price == p || events[k].price == other
  }

  lemma TwoKnown(p: Price, other: Price) returns (events: seq<Event>)
    requires p.symbol != other.symbol
    ensures OnlyPrices(events, p, other)
    ensures RunFrom(START, events) == Relayer(map[p.symbol := Asset(Fresh, p, 0, 0), other.symbol := Asset(Fresh, other, 0, 0)], Between, Q.EMPTY)
  {
    RunThen([], Upsert(p));
    RunThen([] + [Upsert(p)], Upsert(other));
    events := [] + [Upsert(p)] + [Upsert(other)];
  }

  /** The other's transaction is in hand, this one's waits behind it. */
  ghost predicate BothQueued(r: Relayer, p: Price, other: Price, now: int) {
    && r.visit == Between && p.symbol in r.assets && r.assets[p.symbol] == Relayed(Asset(Fresh, p, 0, 0), now)
    && r.queue.drainer == Q.Sending(Q.Intent(0, LabelOf(other.symbol, other.timestamp), 0))
    && r.queue.queue == [Q.Intent(1, LabelOf(p.symbol, p.timestamp), 0)] && r.queue.done == [] && r.queue.pushed == 2
  }

  lemma PushTwo(first: string, second: string)
    ensures var q := Q.Pushed(Q.Pushed(Q.EMPTY, first), second);
            && q.drainer == Q.Sending(Q.Intent(0, first, 0)) && q.queue == [Q.Intent(1, second, 0)]
            && q.done == [] && q.pushed == 2
  {
  }

  lemma QueueBoth(p: Price, other: Price, now: int) returns (events: seq<Event>)
    requires p.symbol != other.symbol && now >= MIN_RELAY_GAP
    requires p.sources >= MIN_SOURCES && other.sources >= MIN_SOURCES && p.timestamp > 0 && other.timestamp > 0
    ensures OnlyPrices(events, p, other) && BothQueued(RunFrom(START, events), p, other, now)
  {
    var e0 := TwoKnown(p, other);
    var e1 := RunVisit(e0, other.symbol, now);
    events := RunVisit(e1, p.symbol, now);
    PushTwo(LabelOf(other.symbol, other.timestamp), LabelOf(p.symbol, p.timestamp));
  }

  lemma CompleteOther(r: Relayer, p: Price, other: Price, now: int)
    requires BothQueued(r, p, other, now) && SymbolIn(LabelOf(other.symbol, other.timestamp)) == Some(p.symbol)
    ensures ReleasedEarly(Next(r, Drain(Q.Mined(true), 0)), p, now)
  {
  }

  /** Two intents outstanding for one asset: when the label of another symbol names it, completing
      the other's transaction releases it early, and it is relayed again. */
  lemma MisnamedReleasesAnother(p: Price, other: Price, now: int) returns (events: seq<Event>)
    requires p.symbol != other.symbol && SymbolIn(LabelOf(other.symbol, other.timestamp)) == Some(p.symbol)
    requires p.sources >= MIN_SOURCES && other.sources >= MIN_SOURCES && p.timestamp > 0 && other.timestamp > 0
    requires now >= MIN_RELAY_GAP
    ensures OnlyPrices(events, p, other)
    ensures var out := Q.Outstanding(RunFrom(START, events).queue);
            |out| == 2 && Owner(out[0]) == Owner(out[1]) == Some(p.symbol)
  {
    var early := ReleaseEarly(p, other, now);
    OwnLabel(p.symbol, p.timestamp, other);
    events := RelayAgain(early, p, now);
  }

  lemma ReleaseEarly(p: Price, other: Price, now: int) returns (events: seq<Event>)
    requires p.symbol != other.symbol && SymbolIn(LabelOf(other.symbol, other.timestamp)) == Some(p.symbol)
    requires p.sources >= MIN_SOURCES && other.sources >= MIN_SOURCES && p.timestamp > 0 && other.timestamp > 0
    requires now >= MIN_RELAY_GAP
    ensures OnlyPrices(events, p, other) && ReleasedEarly(RunFrom(START, events), p, now)
  {
    var queued := QueueBoth(p, other, now);
    RunThen(queued, Drain(Q.Mined(true), 0));
    CompleteOther(RunFrom(START, queued), p, other, now);
    events := queued + [Drain(Q.Mined(true), 0)];
  }

  /** Idle again while its own transaction still waits. */
  ghost predicate ReleasedEarly(r: Relayer, p: Price, now: int) {
    && r.visit == Between && p.symbol in r.assets
    && r.assets[p.symbol] == Relayed(Asset(Fresh, p, 0, 0), now).(state := Idle)
    && r.queue.drainer == Q.Looping && r.queue.queue == [Q.Intent(1, LabelOf(p.symbol, p.timestamp), 0)]
  }

  lemma RelayAgain(events: seq<Event>, p: Price, now: int) returns (more: seq<Event>)
    requires ReleasedEarly(RunFrom(START, events), p, now) && p.sources >= MIN_SOURCES && p.timestamp > 0
    requires SymbolIn(LabelOf(p.symbol, p.timestamp)) == Some(p.symbol)
    ensures events <= more && forall k | |events| <= k < |more| :: !more[k].Upsert?
    ensures var out := Q.Outstanding(RunFrom(START, more).queue);
            |out| == 2 && Owner(out[0]) == Owner(out[1]) == Some(p.symbol)
  {
    more := RunVisit(events, p.symbol, now + MIN_RELAY_GAP);
    PushBehind(RunFrom(START, events).queue, LabelOf(p.symbol, p.timestamp));
  }

  lemma PushBehind(q: Q.Queue, text: string)
    requires q.drainer == Q.Looping && q.queue == [Q.Intent(1, text, 0)]
    ensures Q.Outstanding(Q.Pushed(q, text)) == [Q.Intent(1, text, 0), Q.Intent(q.pushed, text, 0)]
  {
  }

  /** A symbol that some label names is clean, so its own label names it too. */
  lemma OwnLabel(symbol: string, timestamp: nat, other: Price)
    requires SymbolIn(LabelOf(other.symbol, other.timestamp)) == Some(symbol)
    ensures SymbolIn(LabelOf(symbol, timestamp)) == Some(symbol)
  {
    LabelCarriesSymbol(symbol, timestamp);
  }

  /** For instance the symbols "A" and "A B", or any clean symbol and one that continues it after
      a space. */
  lemma SpacedSymbolIsMisnamed(symbol: string, tail: string, timestamp: nat)
    requires Clean(symbol)
    ensures SymbolIn(LabelOf(symbol + " " + tail, timestamp)) == Some(symbol)
  {
    var rest := " " + tail + STAMP + PrintDecimal(timestamp) + ")";
    assert rest[0] == ' ';
    assert LabelOf(symbol + " " + tail, timestamp) == PREFIX + symbol + rest;
    WordFound(PREFIX, symbol, rest);
  }

  // ----- the class -----

  class RelayLoop {
    var assets: map<string, Asset>
    var visit: Visit
    const queue: Q.TxQueue

    ghost function View(): Relayer
      reads this, queue
    {
      Relayer(assets, visit, queue.View())
    }

    constructor (queue: Q.TxQueue)
      requires queue.View() == Q.EMPTY
      ensures this.queue == queue && View() == START
    {
      this.queue := queue;
      assets, visit := map[], Between;
    }

    method UpsertPrice(p: Price)
      requires visit == Between
      modifies this
      ensures View() == Next(old(View()), Upsert(p))
    {
      if p.symbol in assets {
        var existing := assets[p.symbol];
        if p.timestamp > existing.latest.timestamp {
          existing := existing.(latest := p);
          if existing.state == Idle {
            existing := existing.(state := Fresh);
          }
          assets := assets[p.symbol := existing];
        }
      } else {
        assets := assets[p.symbol := Asset(Fresh, p, 0, 0)];
      }
    }

    /** The three stretches of `tryRelay` between suspensions. */
    method TryRelay(symbol: string, now: int)
      requires visit == Between && symbol in assets
      modifies this
      ensures View() == Next(old(View()), Look(symbol, now))
    {
      var asset := assets[symbol];
      if asset.state == Submitting || now - asset.lastRelayedAt < MIN_RELAY_GAP {
        return;
      }
      if asset.latest.sources < MIN_SOURCES {
        assets := assets[symbol := asset.(state := Idle)];
        return;
      }
      visit := Checking(symbol, now);
    }

    method FinishChecks(onchain: nat, signed: bool)
      requires visit.Checking? && visit.symbol in assets
      modifies this
      ensures View() == Next(old(View()), Check(onchain, signed))
    {
      var symbol := visit.symbol;
      var asset := assets[symbol].(onchain := onchain);
      if asset.latest.timestamp <= onchain || !signed {
        assets := assets[symbol := asset.(state := Idle)];
        visit := Between;
      } else {
        assets := assets[symbol := asset.(state := Submitting)];
        visit := Addressing(symbol, visit.now);
      }
      assert assets == Checked(old(View()), onchain, signed).assets;
    }

    method Submit(found: bool)
      requires visit.Addressing? && visit.symbol in assets
      modifies this, queue
      ensures View() == Next(old(View()), Address(found))
    {
      if found {
        var asset := assets[visit.symbol];
        queue.Push(LabelOf(visit.symbol, asset.latest.timestamp));
        assets := assets[visit.symbol := asset.(lastRelayedAt := visit.now)];
      }
      visit := Between;
    }

    /** The queue's completion callback. */
    method OnTxComplete(text: string)
      modifies this
      ensures assets == Released(old(assets), text) && visit == old(visit)
    {
      var symbol := SymbolIn(text);
      if symbol.None? || symbol.value !in assets {
        return;
      }
      assets := assets[symbol.value := assets[symbol.value].(state := Idle)];
    }

    /** One turn of the drain loop; a send that completed its intent has called back. */
    method DrainTurn(reply: Q.Reply, chainNonce: nat)
      modifies this, queue
      ensures View() == Next(old(View()), Drain(reply, chainNonce))
    {
      if queue.drainer == Q.Off {
        return;
      }
      var before := queue.drainer;
      ghost var q := queue.View();
      Q.ResumeFacts(q, reply, chainNonce);
      if before.Sending? {
        Q.AttemptFacts(q, reply, chainNonce);
      }
      queue.Turn(reply, chainNonce);
      if before.Sending? && queue.drainer == Q.Looping {
        OnTxComplete(before.intent.text);
      }
    }
  }
}
