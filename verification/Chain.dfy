/** Chain reads over a JSON-RPC transport that may answer anything: the block a read is pinned
    to under a finality rule, and the double read of the burn ledger at that block. */
module Chain {
  import opened Wrappers
  import opened Numbers
  import opened Numerals
  import opened Policy

  datatype Json = Text(text: string) | Object(fields: map<string, Json>) | Other

  /** What is asked: the head height, a header by tag, or the burn ledger at a block hash. */
  datatype Call = BlockNumber | GetBlock(tag: string) | BurnedAt(exit: Address, recipient: Address, hash: Bytes)

  /** The reply to the n-th call on a transport; `None` is a transport or RPC failure. */
  type Transport = (nat, Call) -> Option<Json>

  datatype Finality = Tag | HeadMinus(depth: nat) | FinalizedWithDepth(depth: nat)

  datatype ChainError = ReadMismatch | DecreasingBurned | RpcFault

  datatype BlockRef = BlockRef(number: nat, hash: Bytes, timestamp: nat)

  // ----- replies -----

  function Field(j: Json, name: string): Option<Json> {
    if j.Object? && name in j.fields then Some(j.fields[name]) else None
  }

  function QuantityOf(j: Option<Json>): (r: Option<nat>)
    ensures r.Some? ==> r.value < U64_END
  {
    if j.Some? && j.value.Text? then ParseQuantity(j.value.text) else None
  }

  predicate AllHex(s: string) {
    forall i | 0 <= i < |s| :: DigitValue(s[i]).Some?
  }

  function PairValue(hi: char, lo: char): Byte
    requires DigitValue(hi).Some? && DigitValue(lo).Some?
  {
    DigitValue(hi).value * 16 + DigitValue(lo).value
  }

  function HexPairs(s: string): (r: Option<Bytes>)
    ensures r.Some? <==> |s| % 2 == 0 && AllHex(s)
    ensures r.Some? ==> |s| == 2 * |r.value| && forall i | 0 <= i < |r.value| :: r.value[i] == PairValue(s[2 * i], s[2 * i + 1])
  {
    if |s| % 2 == 1 || !AllHex(s) then None
    else Some(seq(|s| / 2, i requires 0 <= i < |s| / 2 && AllHex(s) => PairValue(s[2 * i], s[2 * i + 1])))
  }

  /** Hex with an optional `0x`, in either case, an even number of digits. */
  function DecodeHex(s: string): Option<Bytes> {
    HexPairs(if |s| >= 2 && s[..2] == "0x" then s[2..] else s)
  }

  function BytesOf(j: Option<Json>): Option<Bytes> {
    if j.Some? && j.value.Text? then DecodeHex(j.value.text) else None
  }

  function HashOf(j: Option<Json>): Option<Bytes> {
    var b := BytesOf(j);
    if b.Some? && |b.value| == 32 then b else None
  }

  /** One ABI word: the first 32 bytes of the returned buffer. */
  function WordOf(j: Option<Json>): (w: Option<Bytes>)
    ensures w.Some? ==> |w.value| == 32
  {
    var b := BytesOf(j);
    if b.Some? && |b.value| >= 32 then Some(b.value[..32]) else None
  }

  /** A header with the fields that could be read from the reply. */
  datatype Header = Header(number: Option<nat>, hash: Option<Bytes>, timestamp: Option<nat>)

  function HeaderIn(reply: Option<Json>): Option<Header> {
    if reply.None? then None
    else Some(Header(QuantityOf(Field(reply.value, "number")), HashOf(Field(reply.value, "hash")),
                     QuantityOf(Field(reply.value, "timestamp"))))
  }

  function BlockTag(requested: Option<nat>): string {
    if requested.Some? then PrintQuantity(requested.value) else "finalized"
  }

  /** A transport seen through its decoders: what the n-th call yields. */
  datatype Reader = Reader(head: nat -> Option<nat>, header: (nat, Option<nat>) -> Option<Header>,
                           burned: (nat, Address, Address, Bytes) -> Option<Bytes>)

  function Over(t: Transport): Reader {
    Reader((n: nat) => QuantityOf(t(n, BlockNumber)),
           (n: nat, requested: Option<nat>) => HeaderIn(t(n, GetBlock(BlockTag(requested)))),
           (n: nat, exit: Address, recipient: Address, hash: Bytes) => WordOf(t(n, BurnedAt(exit, recipient, hash))))
  }

  // ----- reads -----

  function ReadBlock(rd: Reader, n: nat, requested: Option<nat>): Result<BlockRef, ChainError> {
    match rd.header(n, requested)
    case None => Err(RpcFault)
    case Some(h) =>
      if h.number.None? then Err(RpcFault)
      else if requested.Some? && requested.value != h.number.value then Err(ReadMismatch)
      else if h.hash.None? || h.timestamp.None? then Err(RpcFault)
      else Ok(BlockRef(h.number.value, h.hash.value, h.timestamp.value))
  }

  /** The pinned block, and how many calls it took to find it. */
  function FinalizedBlock(rd: Reader, finality: Finality): (Result<BlockRef, ChainError>, nat) {
    match finality
    case Tag => (ReadBlock(rd, 0, None), 1)
    case HeadMinus(depth) =>
      (match rd.head(0)
       case None => (Err(RpcFault), 1)
       case Some(head) => (ReadBlock(rd, 1, Some(if depth <= head then head - depth else 0)), 2))
    case FinalizedWithDepth(depth) =>
      var finalized := ReadBlock(rd, 0, None);
      if finalized.Err? then (finalized, 1)
      else
        match rd.head(1)
        case None => (Err(RpcFault), 2)
        case Some(head) =>
          if head < depth then (Err(RpcFault), 2)
          else if finalized.value.number <= head - depth then (finalized, 2)
          else (ReadBlock(rd, 2, Some(head - depth)), 3)
  }

  /** The hash in a reread header; its timestamp is not looked at. */
  function ReadBlockHash(rd: Reader, n: nat, number: nat): Result<Bytes, ChainError> {
    match rd.header(n, Some(number))
    case None => Err(RpcFault)
    case Some(h) =>
      if h.number.None? then Err(RpcFault)
      else if h.number.value != number then Err(ReadMismatch)
      else if h.hash.None? then Err(RpcFault)
      else Ok(h.hash.value)
  }

  /** The ledger word of `recipient`, read twice, and the height it was read at. */
  function BurnedWord(rd: Reader, exit: Address, recipient: Address, finality: Finality)
    : Result<(Bytes, nat), ChainError>
  {
    var (pinned, n) := FinalizedBlock(rd, finality);
    if pinned.Err? then Err(pinned.error)
    else
      var block := pinned.value;
      var first := rd.burned(n, exit, recipient, block.hash);
      if first.None? then Err(RpcFault)
      else
        var hash := ReadBlockHash(rd, n + 1, block.number);
        if hash.Err? then Err(hash.error)
        else
          var second := rd.burned(n + 2, exit, recipient, block.hash);
          if second.None? then Err(RpcFault)
          else if block.hash != hash.value || first.value != second.value then Err(ReadMismatch)
          else Ok((first.value, block.number))
  }

  /** The burned total and its height. */
  function BurnedFinalized(t: Transport, exit: Address, recipient: Address, finality: Finality)
    : Result<(nat, nat), ChainError>
  {
    match BurnedWord(Over(t), exit, recipient, finality)
    case Err(e) => Err(e)
    case Ok((word, number)) => Ok((Unsigned(word), number))
  }

  // ----- what an arbitrary transport must have said -----

  function Min(a: nat, b: nat): (m: nat)
    ensures m <= a && m <= b && (m == a || m == b)
  {
    if a <= b then a else b
  }

  ghost predicate Says(h: Option<Header>, number: nat, hash: Bytes) {
    h.Some? && h.value.number == Some(number) && h.value.hash == Some(hash)
  }

  ghost predicate Dated(h: Option<Header>) {
    h.Some? && h.value.timestamp.Some?
  }

  /** Header, total, reread header and second total agree on one hash and one word at height
      `number`; the reads are the n-th to the (n + 2)-th. */
  ghost predicate Confirmed(rd: Reader, n: nat, exit: Address, recipient: Address, hash: Bytes, word: Bytes, number: nat) {
    && rd.burned(n, exit, recipient, hash) == Some(word)
    && Says(rd.header(n + 1, Some(number)), number, hash)
    && rd.burned(n + 2, exit, recipient, hash) == Some(word)
  }

  /** The transport reported a finalized height with hash `hash0` and a head, and `number` is
      the older of the finalized height and `depth` below the head. */
  ghost predicate Pinned(rd: Reader, depth: nat, finalized: nat, hash0: Bytes, head: nat, hash: Bytes, number: nat) {
    && depth <= head && rd.head(1) == Some(head)
    && number == Min(finalized, head - depth)
    && Says(rd.header(0, None), finalized, hash0) && Dated(rd.header(0, None))
    && if number == finalized then hash == hash0
       else Says(rd.header(2, Some(number)), number, hash) && Dated(rd.header(2, Some(number)))
  }

  ghost predicate Vouched(rd: Reader, exit: Address, recipient: Address, depth: nat, finalized: nat, hash0: Bytes,
                          head: nat, hash: Bytes, word: Bytes, number: nat)
  {
    && Pinned(rd, depth, finalized, hash0, head, hash, number)
    && Confirmed(rd, if number == finalized then 2 else 3, exit, recipient, hash, word, number)
  }

  /** A read that succeeds was vouched for: the height is at most the reported finalized height
      and at most the reported head less `depth`. */
  lemma ReadIsVouched(rd: Reader, exit: Address, recipient: Address, depth: nat, word: Bytes, number: nat)
    returns (finalized: nat, hash0: Bytes, head: nat, hash: Bytes)
    requires BurnedWord(rd, exit, recipient, FinalizedWithDepth(depth)) == Ok((word, number))
    ensures Vouched(rd, exit, recipient, depth, finalized, hash0, head, hash, word, number)
    ensures number <= finalized && number + depth <= head
  {
    var f := ReadBlock(rd, 0, None).value;
    finalized, hash0, head := f.number, f.hash, rd.head(1).value;
    hash := FinalizedBlock(rd, FinalizedWithDepth(depth)).0.value.hash;
  }

  /** Conversely every vouched word is returned. */
  lemma VouchedIsRead(rd: Reader, exit: Address, recipient: Address, depth: nat, finalized: nat, hash0: Bytes,
                      head: nat, hash: Bytes, word: Bytes, number: nat)
    requires Vouched(rd, exit, recipient, depth, finalized, hash0, head, hash, word, number)
    ensures BurnedWord(rd, exit, recipient, FinalizedWithDepth(depth)) == Ok((word, number))
  {
    assert ReadBlock(rd, 0, None) == Ok(BlockRef(finalized, hash0, rd.header(0, None).value.timestamp.value));
    if number < finalized {
      assert ReadBlock(rd, 2, Some(number)) == Ok(BlockRef(number, hash, rd.header(2, Some(number)).value.timestamp.value));
    }
  }

  // ----- a node that tells the truth -----

  datatype Ledger = Ledger(head: nat, finalized: nat, hashAt: nat -> Bytes, timeAt: nat -> nat,
                           burned: (Bytes, Address, Address) -> nat)

  /** The high digits at even places, the low digits at odd ones. */
  function HexDigit(b: Byte, place: nat): char {
    DigitChar(if place % 2 == 0 then b / 16 else b % 16)
  }

  function EncodePairs(b: Bytes): (s: string)
    ensures |s| == 2 * |b| && forall i | 0 <= i < 2 * |b| :: s[i] == HexDigit(b[i / 2], i)
  {
    seq(2 * |b|, i requires 0 <= i < 2 * |b| => HexDigit(b[i / 2], i))
  }

  function EncodeHex(b: Bytes): string {
    "0x" + EncodePairs(b)
  }

  function HeaderJson(l: Ledger, number: nat): Json {
    Object(map["number" := Text(PrintQuantity(number)), "hash" := Text(EncodeHex(l.hashAt(number))),
               "timestamp" := Text(PrintQuantity(l.timeAt(number)))])
  }

  ghost predicate Sound(l: Ledger) {
    && l.finalized <= l.head < U64_END
    && (forall k | 0 <= k <= l.head :: |l.hashAt(k)| == 32 && l.timeAt(k) < U64_END)
    && (forall h, e, r :: l.burned(h, e, r) < Pow(256, 32))
  }

  /** Every reply is the encoding of the ledger's answer. */
  ghost predicate Honest(t: Transport, l: Ledger) {
    && (forall n: nat :: t(n, BlockNumber) == Some(Text(PrintQuantity(l.head))))
    && (forall n: nat :: t(n, GetBlock("finalized")) == Some(HeaderJson(l, l.finalized)))
    && (forall n: nat, k: nat | k <= l.head :: t(n, GetBlock(PrintQuantity(k))) == Some(HeaderJson(l, k)))
    && (forall n: nat, e, r, h :: t(n, BurnedAt(e, r, h)) == Some(Text(EncodeHex(BigEndian(l.burned(h, e, r), 32)))))
  }

  lemma ByteHasTwoDigits(b: Byte, i: nat)
    ensures DigitValue(HexDigit(b, 2 * i)).Some? && DigitValue(HexDigit(b, 2 * i + 1)).Some?
    ensures PairValue(HexDigit(b, 2 * i), HexDigit(b, 2 * i + 1)) == b
  {
    DigitRoundTrip(b / 16);
    DigitRoundTrip(b % 16);
    assert 2 * i % 2 == 0 && (2 * i + 1) % 2 == 1;
  }

  lemma EncodedIsHex(b: Bytes)
    ensures AllHex(EncodePairs(b))
  {
    forall i | 0 <= i < 2 * |b| ensures DigitValue(EncodePairs(b)[i]).Some? {
      DigitRoundTrip(b[i / 2] / 16);
      DigitRoundTrip(b[i / 2] % 16);
    }
  }

  lemma EncodedPair(b: Bytes, i: nat)
    requires i < |b|
    ensures EncodePairs(b)[2 * i] == HexDigit(b[i], 2 * i) && EncodePairs(b)[2 * i + 1] == HexDigit(b[i], 2 * i + 1)
  {
    assert 2 * i / 2 == i && (2 * i + 1) / 2 == i;
  }

  lemma HexPairsRoundTrip(b: Bytes)
    ensures HexPairs(EncodePairs(b)) == Some(b)
  {
    EncodedIsHex(b);
    var r := HexPairs(EncodePairs(b)).value;
    forall i | 0 <= i < |b| ensures r[i] == b[i] {
      EncodedPair(b, i);
      ByteHasTwoDigits(b[i], i);
    }
    assert r == b;
  }

  lemma HexRoundTrip(b: Bytes)
    ensures DecodeHex(EncodeHex(b)) == Some(b)
  {
    HexPairsRoundTrip(b);
    assert EncodeHex(b)[2..] == EncodePairs(b);
  }

  lemma HonestQuantity(n: nat)
    requires n < U64_END
    ensures QuantityOf(Some(Text(PrintQuantity(n)))) == Some(n)
  {
    QuantityRoundTrip(n);
  }

  lemma HonestHash(hash: Bytes)
    requires |hash| == 32
    ensures HashOf(Some(Text(EncodeHex(hash)))) == Some(hash)
  {
    HexRoundTrip(hash);
  }

  lemma HeaderFields(l: Ledger, number: nat)
    ensures var j := HeaderJson(l, number);
            && Field(j, "number") == Some(Text(PrintQuantity(number)))
            && Field(j, "hash") == Some(Text(EncodeHex(l.hashAt(number))))
            && Field(j, "timestamp") == Some(Text(PrintQuantity(l.timeAt(number))))
  {
  }

  lemma HonestHeader(l: Ledger, number: nat)
    requires Sound(l) && number <= l.head
    ensures HeaderIn(Some(HeaderJson(l, number))) ==
            Some(Header(Some(number), Some(l.hashAt(number)), Some(l.timeAt(number))))
  {
    HonestQuantity(number);
    HonestQuantity(l.timeAt(number));
    HonestHash(l.hashAt(number));
    HeaderFields(l, number);
  }

  lemma HonestWord(w: Bytes)
    requires |w| == 32
    ensures WordOf(Some(Text(EncodeHex(w)))) == Some(w)
  {
    HexRoundTrip(w);
    assert w[..32] == w;
  }

  /** The truthful node through its decoders. */
  ghost predicate HonestReader(rd: Reader, l: Ledger) {
    && (forall n: nat :: rd.head(n) == Some(l.head))
    && (forall n: nat :: rd.header(n, None) == Some(Header(Some(l.finalized), Some(l.hashAt(l.finalized)), Some(l.timeAt(l.finalized)))))
    && (forall n: nat, k: nat | k <= l.head ::
          rd.header(n, Some(k)) == Some(Header(Some(k), Some(l.hashAt(k)), Some(l.timeAt(k)))))
    && (forall n: nat, e, r, h :: rd.burned(n, e, r, h) == Some(BigEndian(l.burned(h, e, r), 32)))
  }

  lemma HonestHead(t: Transport, l: Ledger, n: nat)
    requires Sound(l) && Honest(t, l)
    ensures QuantityOf(t(n, BlockNumber)) == Some(l.head)
  {
    assert t(n, BlockNumber) == Some(Text(PrintQuantity(l.head)));
    HonestQuantity(l.head);
  }

  lemma HonestFinalized(t: Transport, l: Ledger, n: nat)
    requires Sound(l) && Honest(t, l)
    ensures Over(t).header(n, None) == Some(Header(Some(l.finalized), Some(l.hashAt(l.finalized)), Some(l.timeAt(l.finalized))))
  {
    DecodedHeader(t, n, None);
    assert t(n, GetBlock("finalized")) == Some(HeaderJson(l, l.finalized));
    HonestHeader(l, l.finalized);
  }

  lemma DecodedHeader(t: Transport, n: nat, requested: Option<nat>)
    ensures Over(t).header(n, requested) == HeaderIn(t(n, GetBlock(BlockTag(requested))))
  {
  }

  lemma HonestAt(t: Transport, l: Ledger, n: nat, k: nat)
    requires Sound(l) && Honest(t, l) && k <= l.head
    ensures Over(t).header(n, Some(k)) == Some(Header(Some(k), Some(l.hashAt(k)), Some(l.timeAt(k))))
  {
    DecodedHeader(t, n, Some(k));
    assert t(n, GetBlock(PrintQuantity(k))) == Some(HeaderJson(l, k));
    HonestHeader(l, k);
  }

  lemma HonestBurned(t: Transport, l: Ledger, n: nat, e: Address, r: Address, h: Bytes)
    requires Honest(t, l)
    ensures WordOf(t(n, BurnedAt(e, r, h))) == Some(BigEndian(l.burned(h, e, r), 32))
  {
    assert t(n, BurnedAt(e, r, h)) == Some(Text(EncodeHex(BigEndian(l.burned(h, e, r), 32))));
    HonestWord(BigEndian(l.burned(h, e, r), 32));
  }

  lemma HonestIsDecoded(t: Transport, l: Ledger)
    requires Sound(l) && Honest(t, l)
    ensures HonestReader(Over(t), l)
  {
    forall n: nat { HonestHead(t, l, n); }
    forall n: nat { HonestFinalized(t, l, n); }
    forall n: nat, k: nat | k <= l.head { HonestAt(t, l, n, k); }
    forall n: nat, e, r, h { HonestBurned(t, l, n, e, r, h); }
  }

  lemma HonestRead(rd: Reader, l: Ledger, exit: Address, recipient: Address, depth: nat)
    requires HonestReader(rd, l) && l.finalized <= l.head
    ensures var r := BurnedWord(rd, exit, recipient, FinalizedWithDepth(depth));
            if l.head < depth then r == Err(RpcFault)
            else var number := Min(l.finalized, l.head - depth);
                 r == Ok((BigEndian(l.burned(l.hashAt(number), exit, recipient), 32), number))
  {
    assert rd.head(1) == Some(l.head);
    assert ReadBlock(rd, 0, None) == Ok(BlockRef(l.finalized, l.hashAt(l.finalized), l.timeAt(l.finalized)));
    if l.head >= depth {
      var number := Min(l.finalized, l.head - depth);
      VouchedIsRead(rd, exit, recipient, depth, l.finalized, l.hashAt(l.finalized), l.head, l.hashAt(number),
                    BigEndian(l.burned(l.hashAt(number), exit, recipient), 32), number);
    }
  }

  /** Against a truthful node the read succeeds exactly when the chain is deep enough, and
      returns the ledger's total at the older of the finalized block and the depth. */
  lemma HonestReadSucceeds(t: Transport, l: Ledger, exit: Address, recipient: Address, depth: nat)
    requires Sound(l) && Honest(t, l)
    ensures var r := BurnedFinalized(t, exit, recipient, FinalizedWithDepth(depth));
            if l.head < depth then r == Err(RpcFault)
            else var number := Min(l.finalized, l.head - depth);
                 r == Ok((l.burned(l.hashAt(number), exit, recipient), number))
  {
    HonestIsDecoded(t, l);
    HonestRead(Over(t), l, exit, recipient, depth);
    if l.head >= depth {
      UnsignedOfBigEndian(l.burned(l.hashAt(Min(l.finalized, l.head - depth)), exit, recipient), 32);
    }
  }

  // ----- the ratchet's input -----

  lemma {:induction false} BytePow(n: nat)
    ensures Pow(256, n) == Pow(2, 8 * n)
  {
    if n > 0 {
      BytePow(n - 1);
      EightDoublings(8 * (n - 1));
      assert 8 * (n - 1) + 8 == 8 * n;
    }
  }

  lemma EightDoublings(m: nat)
    ensures Pow(2, m + 8) == 256 * Pow(2, m)
  {
    FourDoublings(m);
    FourDoublings(m + 4);
  }

  lemma FourDoublings(m: nat)
    ensures Pow(2, m + 4) == 16 * Pow(2, m)
  {
    assert Pow(2, m + 1) == 2 * Pow(2, m);
    assert Pow(2, m + 2) == 2 * Pow(2, m + 1);
    assert Pow(2, m + 3) == 2 * Pow(2, m + 2);
    assert Pow(2, m + 4) == 2 * Pow(2, m + 3);
  }

  lemma BurnedWordIsWord(t: Transport, exit: Address, recipient: Address, finality: Finality)
    requires BurnedWord(Over(t), exit, recipient, finality).Ok?
    ensures |BurnedWord(Over(t), exit, recipient, finality).value.0| == 32
  {
    var (pinned, n) := FinalizedBlock(Over(t), finality);
    assert Over(t).burned(n, exit, recipient, pinned.value.hash) == WordOf(t(n, BurnedAt(exit, recipient, pinned.value.hash)));
  }

  lemma WordRoundTrips(w: Bytes)
    requires |w| == 32
    ensures ParseU256(PrintDecimal(Unsigned(w))) == Some(Unsigned(w))
  {
    WordFits(w, 256);
    DecimalRoundTrip(Unsigned(w));
  }

  lemma WordFits(w: Bytes, bits: nat)
    requires bits == 8 * |w|
    ensures Unsigned(w) < Pow(2, bits)
  {
    UnsignedBound(w);
    BytePow(|w|);
  }

  /** A burned total fits 256 bits, so its decimal print parses back. */
  lemma BurnedRoundTrips(t: Transport, exit: Address, recipient: Address, finality: Finality)
    requires BurnedFinalized(t, exit, recipient, finality).Ok?
    ensures var total := BurnedFinalized(t, exit, recipient, finality).value.0;
            ParseU256(PrintDecimal(total)) == Some(total)
  {
    BurnedWordIsWord(t, exit, recipient, finality);
    WordRoundTrips(BurnedWord(Over(t), exit, recipient, finality).value.0);
  }
}
