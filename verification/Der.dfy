/** The reader of a DER `Ecdsa-Sig-Value` (section 2.2.3 of RFC 3279): a sequence of two
    integers, turned into two 48-byte fields. */
module Der {
  import opened Wrappers
  import opened Numerals

  const FIELD: nat := 48

  datatype DerError = NotSequence | TruncatedLength | UnsupportedLength | SequenceOverruns | NotInteger
    | IntegerOverruns | TooWide

  // ----- what the reader computes -----

  /** A length at `p` and the position after it. */
  function LengthAt(der: Bytes, p: nat): Result<(nat, nat), DerError> {
    if p >= |der| then Err(TruncatedLength)
    else if der[p] < 0x80 then Ok((der[p] as int, p + 1))
    else
      var n := der[p] as int - 0x80;
      if n == 0 || n > 4 then Err(UnsupportedLength)
      else if p + 1 + n > |der| then Err(TruncatedLength)
      else Ok((Unsigned(der[p + 1..p + 1 + n]), p + 1 + n))
  }

  /** The contents of an integer at `p`, inside the sequence that ends at `end`, and the
      position after them. */
  function IntegerAt(der: Bytes, p: nat, end: nat): (r: Result<(Bytes, nat), DerError>)
    requires end <= |der|
    ensures r.Ok? ==> r.value.1 <= end
  {
    if p >= |der| || der[p] != 0x02 then Err(NotInteger)
    else
      match LengthAt(der, p + 1)
      case Err(e) => Err(e)
      case Ok((n, start)) =>
        if start + n > end then Err(IntegerOverruns) else Ok((der[start..start + n], start + n))
  }

  /** One leading sign byte is dropped. */
  function Stripped(b: Bytes): Bytes {
    if |b| > 1 && b[0] == 0 then b[1..] else b
  }

  function Padded(b: Bytes): Option<Bytes> {
    if |b| > FIELD then None else Some(seq(FIELD - |b|, i => 0) + b)
  }

  /** Where the contents of the sequence start and end. */
  function HeaderAt(der: Bytes): (r: Result<(nat, nat), DerError>)
    ensures r.Ok? ==> r.value.1 <= |der|
  {
    if der == [] || der[0] != 0x30 then Err(NotSequence)
    else
      match LengthAt(der, 1)
      case Err(e) => Err(e)
      case Ok((n, p)) => if p + n > |der| then Err(SequenceOverruns) else Ok((p, p + n))
  }

  /** The two integers' contents, as they stand in the buffer. */
  function Contents(der: Bytes): Result<(Bytes, Bytes), DerError> {
    match HeaderAt(der)
    case Err(e) => Err(e)
    case Ok((p, end)) => PairAt(der, p, end)
  }

  function PairAt(der: Bytes, p: nat, end: nat): Result<(Bytes, Bytes), DerError>
    requires end <= |der|
  {
    match IntegerAt(der, p, end)
    case Err(e) => Err(e)
    case Ok((r, q)) =>
      match IntegerAt(der, q, end)
      case Err(e) => Err(e)
      case Ok((s, _)) => Ok((r, s))
  }

  function Fixed(der: Bytes): Result<Bytes, DerError> {
    Fields(Contents(der))
  }

  function Fields(contents: Result<(Bytes, Bytes), DerError>): Result<Bytes, DerError> {
    match contents
    case Err(e) => Err(e)
    case Ok((r, s)) => Joined(Stripped(r), Stripped(s))
  }

  function Joined(r: Bytes, s: Bytes): Result<Bytes, DerError> {
    var a, b := Padded(r), Padded(s);
    if a.None? || b.None? then Err(TooWide) else Ok(a.value + b.value)
  }

  // ----- the reader -----

  method ReadLength(der: Bytes, p: nat) returns (r: Result<nat, DerError>, p': nat)
    ensures match LengthAt(der, p)
            case Err(e) => r == Err(e)
            case Ok((n, q)) => r == Ok(n) && p' == q
  {
    p' := p;
    if p' >= |der| {
      return Err(TruncatedLength), p';
    }
    var first := der[p'];
    p' := p' + 1;
    if first < 0x80 {
      return Ok(first as int), p';
    }
    var n := first as int - 0x80;
    if n == 0 || n > 4 {
      return Err(UnsupportedLength), p';
    }
    var len := 0;
    for i := 0 to n
      invariant p' == p + 1 + i && p' <= |der|
      invariant len == Unsigned(der[p + 1..p + 1 + i])
    {
      if p' >= |der| {
        return Err(TruncatedLength), p';
      }
      assert der[p + 1..p + 2 + i][..i] == der[p + 1..p + 1 + i];
      len := len * 256 + der[p'] as int;
      p' := p' + 1;
    }
    r := Ok(len);
  }

  method ReadInteger(der: Bytes, p: nat, end: nat) returns (r: Result<Bytes, DerError>, p': nat)
    requires end <= |der|
    ensures match IntegerAt(der, p, end)
            case Err(e) => r == Err(e)
            case Ok((b, q)) => r == Ok(Stripped(b)) && p' == q
  {
    p' := p;
    if p' >= |der| || der[p'] != 0x02 {
      return Err(NotInteger), p';
    }
    p' := p' + 1;
    var n: Result<nat, DerError>;
    n, p' := ReadLength(der, p');
    if n.Err? {
      return Err(n.error), p';
    }
    var start := p';
    var stop := start + n.value;
    if stop > end {
      return Err(IntegerOverruns), p';
    }
    p' := stop;
    var bytes := der[start..stop];
    if |bytes| > 1 && bytes[0] == 0 {
      bytes := bytes[1..];
    }
    r := Ok(bytes);
  }

  /** Right-align `src` in a zeroed field of the output buffer. */
  method LeftPadInto(src: Bytes, out: array<Byte>, offset: nat) returns (ok: bool)
    requires offset + FIELD <= out.Length
    modifies out
    ensures ok == Padded(src).Some?
    ensures ok ==> out[offset..offset + FIELD] == Padded(src).value
    ensures out[..offset] == old(out[..offset]) && out[offset + FIELD..] == old(out[offset + FIELD..])
  {
    if |src| > FIELD {
      return false;
    }
    var skip := FIELD - |src|;
    ghost var field := Padded(src).value;
    for i := 0 to FIELD
      invariant out[offset..offset + i] == field[..i]
      invariant out[..offset] == old(out[..offset]) && out[offset + FIELD..] == old(out[offset + FIELD..])
    {
      out[offset + i] := if i < skip then 0 else src[i - skip];
      assert out[offset..offset + i + 1] == out[offset..offset + i] + [out[offset + i]];
      assert field[..i + 1] == field[..i] + [field[i]];
    }
    ok := true;
  }

  method EcdsaDerToFixed(der: Bytes) returns (r: Result<Bytes, DerError>)
    ensures r == Fixed(der)
  {
    var header := ReadHeader(der);
    if header.Err? {
      return Err(header.error);
    }
    r := ReadPair(der, header.value.0, header.value.1);
  }

  method ReadHeader(der: Bytes) returns (r: Result<(nat, nat), DerError>)
    ensures r == HeaderAt(der)
  {
    var p := 0;
    if p >= |der| || der[p] != 0x30 {
      return Err(NotSequence);
    }
    var n: Result<nat, DerError>;
    n, p := ReadLength(der, 1);
    if n.Err? {
      return Err(n.error);
    }
    var end := p + n.value;
    if end > |der| {
      return Err(SequenceOverruns);
    }
    r := Ok((p, end));
  }

  method ReadPair(der: Bytes, start: nat, end: nat) returns (r: Result<Bytes, DerError>)
    requires end <= |der|
    ensures r == Fields(PairAt(der, start, end))
  {
    var a: Result<Bytes, DerError>, b: Result<Bytes, DerError>;
    var p := start;
    a, p := ReadInteger(der, p, end);
    if a.Err? {
      return Err(a.error);
    }
    b, p := ReadInteger(der, p, end);
    if b.Err? {
      return Err(b.error);
    }
    r := JoinFields(a.value, b.value);
  }

  method JoinFields(a: Bytes, b: Bytes) returns (r: Result<Bytes, DerError>)
    ensures r == Joined(a, b)
  {
    var out := new Byte[2 * FIELD](i => 0);
    var ok := LeftPadInto(a, out, 0);
    if !ok {
      return Err(TooWide);
    }
    assert out[..FIELD] == out[0..0 + FIELD];
    ok := LeftPadInto(b, out, FIELD);
    if !ok {
      return Err(TooWide);
    }
    assert out[..] == out[..FIELD] + out[FIELD..2 * FIELD];
    r := Ok(out[..]);
  }

  // ----- values are preserved -----

  lemma StrippedKeepsValue(b: Bytes)
    ensures Unsigned(Stripped(b)) == Unsigned(b)
  {
    if |b| > 1 && b[0] == 0 {
      UnsignedPadded(1, b[1..]);
      assert b == seq(1, i => 0) + b[1..];
    }
  }

  lemma PaddedKeepsValue(b: Bytes)
    requires |b| <= FIELD
    ensures |Padded(b).value| == FIELD && Unsigned(Padded(b).value) == Unsigned(b)
  {
    UnsignedPadded(FIELD - |b|, b);
  }

  /** Whenever the reader succeeds, each output field has the value of the integer it read. */
  lemma FixedKeepsValues(der: Bytes)
    requires Fixed(der).Ok?
    ensures Contents(der).Ok? && |Fixed(der).value| == 2 * FIELD
    ensures Unsigned(Fixed(der).value[..FIELD]) == Unsigned(Contents(der).value.0)
    ensures Unsigned(Fixed(der).value[FIELD..]) == Unsigned(Contents(der).value.1)
  {
    var (r, s) := Contents(der).value;
    StrippedKeepsValue(r);
    StrippedKeepsValue(s);
    PaddedKeepsValue(Stripped(r));
    PaddedKeepsValue(Stripped(s));
    var a, b := Padded(Stripped(r)).value, Padded(Stripped(s)).value;
    assert (a + b)[..FIELD] == a && (a + b)[FIELD..] == b;
  }

  // ----- exactly what is accepted -----

  /** A definite length, short or long, minimal or not. */
  ghost predicate IsLength(l: Bytes, n: nat) {
    || (|l| == 1 && l[0] == n && n < 0x80)
    || (2 <= |l| <= 5 && l[0] == 0x7f + |l| && Unsigned(l[1..]) == n)
  }

  lemma LengthStands(der: Bytes, p: nat)
    requires LengthAt(der, p).Ok?
    ensures var (n, q) := LengthAt(der, p).value; p < q <= |der| && IsLength(der[p..q], n)
  {
    var (n, q) := LengthAt(der, p).value;
    assert der[p..q][1..] == der[p + 1..q];
  }

  lemma LengthIsRead(der: Bytes, p: nat, q: nat, n: nat)
    requires p < q <= |der| && IsLength(der[p..q], n)
    ensures LengthAt(der, p) == Ok((n, q))
  {
    assert der[p..q][0] == der[p] && der[p..q][1..] == der[p + 1..q];
  }

  /** An integer stands at `p`, with contents from `a` to `q`. */
  ghost predicate HasInteger(der: Bytes, p: nat, a: nat, q: nat) {
    p + 2 <= a <= q <= |der| && der[p] == 0x02 && IsLength(der[p + 1..a], q - a)
  }

  lemma IntegerStands(der: Bytes, p: nat, end: nat) returns (a: nat, q: nat)
    requires end <= |der| && IntegerAt(der, p, end).Ok?
    ensures HasInteger(der, p, a, q) && q <= end && IntegerAt(der, p, end) == Ok((der[a..q], q))
  {
    LengthStands(der, p + 1);
    var (n, a') := LengthAt(der, p + 1).value;
    a, q := a', a' + n;
  }

  lemma IntegerIsTaken(der: Bytes, p: nat, a: nat, q: nat, end: nat)
    requires HasInteger(der, p, a, q) && q <= end <= |der|
    ensures IntegerAt(der, p, end) == Ok((der[a..q], q))
  {
    LengthIsRead(der, p + 1, a, q - a);
  }

  /** A sequence header up to `p`, one integer with contents from `a` to `q`, another with contents
      from `b` to `r`; the sequence ends at `end`, and bytes may be left inside it and after it. */
  ghost predicate Layout(der: Bytes, p: nat, a: nat, q: nat, b: nat, r: nat, end: nat) {
    && 2 <= p <= end <= |der| && der[0] == 0x30 && IsLength(der[1..p], end - p)
    && HasInteger(der, p, a, q) && HasInteger(der, q, b, r) && r <= end
  }

  lemma LayoutIsRead(der: Bytes, p: nat, a: nat, q: nat, b: nat, r: nat, end: nat)
    requires Layout(der, p, a, q, b, r, end)
    ensures Contents(der) == Ok((der[a..q], der[b..r]))
  {
    HeaderIsRead(der, p, end);
    IntegerIsTaken(der, p, a, q, end);
    IntegerIsTaken(der, q, b, r, end);
  }

  lemma HeaderIsRead(der: Bytes, p: nat, end: nat)
    requires 2 <= p <= end <= |der| && der[0] == 0x30 && IsLength(der[1..p], end - p)
    ensures HeaderAt(der) == Ok((p, end))
  {
    LengthIsRead(der, 1, p, end - p);
  }

  lemma PairStands(der: Bytes, p: nat, end: nat) returns (a: nat, q: nat, b: nat, r: nat)
    requires end <= |der| && IntegerAt(der, p, end).Ok? && IntegerAt(der, IntegerAt(der, p, end).value.1, end).Ok?
    ensures HasInteger(der, p, a, q) && HasInteger(der, q, b, r) && r <= end
    ensures IntegerAt(der, p, end) == Ok((der[a..q], q)) && IntegerAt(der, q, end) == Ok((der[b..r], r))
  {
    a, q := IntegerStands(der, p, end);
    b, r := IntegerStands(der, q, end);
  }

  lemma HeaderStands(der: Bytes) returns (p: nat, end: nat)
    requires Contents(der).Ok?
    ensures 2 <= p <= end <= |der| && der[0] == 0x30 && IsLength(der[1..p], end - p)
    ensures IntegerAt(der, p, end).Ok? && IntegerAt(der, IntegerAt(der, p, end).value.1, end).Ok?
    ensures Contents(der).value ==
            (IntegerAt(der, p, end).value.0, IntegerAt(der, IntegerAt(der, p, end).value.1, end).value.0)
  {
    LengthStands(der, 1);
    var (n, q) := LengthAt(der, 1).value;
    p, end := q, q + n;
  }

  lemma ReadHasLayout(der: Bytes) returns (p: nat, a: nat, q: nat, b: nat, r: nat, end: nat)
    requires Contents(der).Ok?
    ensures Layout(der, p, a, q, b, r, end) && Contents(der).value == (der[a..q], der[b..r])
  {
    p, end := HeaderStands(der);
    a, q, b, r := PairStands(der, p, end);
  }

  /** The two integers, one leading zero byte aside, fit the fields. */
  ghost predicate Accepted(der: Bytes, p: nat, a: nat, q: nat, b: nat, r: nat, end: nat) {
    Layout(der, p, a, q, b, r, end) && |Stripped(der[a..q])| <= FIELD && |Stripped(der[b..r])| <= FIELD
  }

  /** The accepted buffers are exactly those with that layout whose integers fit. Empty contents,
      superfluous length bytes, negative integers and bytes left in or after the sequence are not
      refused. */
  lemma AcceptsExactly(der: Bytes)
    ensures Fixed(der).Ok? <==>
            exists p: nat, a: nat, q: nat, b: nat, r: nat, end: nat :: Accepted(der, p, a, q, b, r, end)
  {
    if Fixed(der).Ok? {
      var p, a, q, b, r, end := ReadHasLayout(der);
      assert Accepted(der, p, a, q, b, r, end);
    }
    if p: nat, a: nat, q: nat, b: nat, r: nat, end: nat :| Accepted(der, p, a, q, b, r, end) {
      LayoutIsRead(der, p, a, q, b, r, end);
    }
  }

  /** The value of integer contents in two's complement; empty contents count as zero. */
  ghost function SignedValue(b: Bytes): int {
    if b != [] && b[0] >= 0x80 then Unsigned(b) - Pow(256, |b|) else Unsigned(b)
  }

  /** A field has the signed value of its integer exactly when that is not negative. */
  lemma FieldsAreSignedExactly(der: Bytes)
    requires Fixed(der).Ok?
    ensures var (r, s) := Contents(der).value;
            && (Unsigned(Fixed(der).value[..FIELD]) == SignedValue(r) <==> r == [] || r[0] < 0x80)
            && (Unsigned(Fixed(der).value[FIELD..]) == SignedValue(s) <==> s == [] || s[0] < 0x80)
  {
    FixedKeepsValues(der);
  }

  // ----- minimal encodings are read -----

  /** The shortest big-endian form of `n`; zero is one byte. */
  function Shortest(n: nat): (b: Bytes)
    ensures b != []
    decreases n
  {
    if n < 256 then [n] else Shortest(n / 256) + [n % 256]
  }

  lemma {:induction false} ShortestValue(n: nat, width: nat)
    requires width >= 1 && n < Pow(256, width)
    ensures Unsigned(Shortest(n)) == n
    ensures |Shortest(n)| <= width
    ensures |Shortest(n)| > 1 ==> Shortest(n)[0] != 0
    decreases n
  {
    if n < 256 {
      assert [n][..0] == [];
    } else {
      assert width >= 2 by { assert Pow(256, 1) == 256 * Pow(256, 0); }
      ShortestValue(n / 256, width - 1);
      var b := Shortest(n);
      assert b[..|b| - 1] == Shortest(n / 256);
      LeadingByte(n / 256);
    }
  }

  lemma {:induction false} LeadingByte(n: nat)
    requires n > 0
    ensures Shortest(n)[0] != 0
    decreases n
  {
    if n >= 256 {
      LeadingByte(n / 256);
    }
  }

  /** Two's-complement contents of a non-negative integer: a sign byte when the top bit is set. */
  function MinimalContents(n: nat): (b: Bytes)
    ensures b != []
  {
    if Shortest(n)[0] >= 0x80 then [0] + Shortest(n) else Shortest(n)
  }

  function EncodeInteger(b: Bytes): Bytes
    requires |b| < 0x80
  {
    [0x02, |b|] + b
  }

  function EncodeSequence(a: Bytes, b: Bytes): Bytes
    requires |a| + |b| < 0x7c
  {
    [0x30, 4 + |a| + |b|] + EncodeInteger(a) + EncodeInteger(b)
  }

  function EncodeSignature(r: nat, s: nat): Bytes
    requires |MinimalContents(r)| + |MinimalContents(s)| < 0x7c
  {
    EncodeSequence(MinimalContents(r), MinimalContents(s))
  }

  lemma MinimalFits(n: nat)
    requires n < Pow(256, FIELD)
    ensures |MinimalContents(n)| <= FIELD + 1
    ensures Stripped(MinimalContents(n)) == Shortest(n) && |Shortest(n)| <= FIELD && Unsigned(Shortest(n)) == n
  {
    ShortestValue(n, FIELD);
    if Shortest(n)[0] >= 0x80 {
      assert ([0] + Shortest(n))[1..] == Shortest(n);
    }
  }

  lemma IntegerIsRead(der: Bytes, p: nat, end: nat, b: Bytes)
    requires |b| < 0x80 && p + 2 + |b| <= end <= |der|
    requires der[p] == 0x02 && der[p + 1] == |b| && der[p + 2..p + 2 + |b|] == b
    ensures IntegerAt(der, p, end) == Ok((b, p + 2 + |b|))
  {
  }

  lemma SequenceIsRead(a: Bytes, b: Bytes, rest: Bytes)
    requires |a| + |b| < 0x7c
    ensures Contents(EncodeSequence(a, b) + rest) == Ok((a, b))
  {
    var der := EncodeSequence(a, b) + rest;
    var q, end := 4 + |a|, 6 + |a| + |b|;
    assert der[0] == 0x30 && der[1] == 4 + |a| + |b|;
    assert der[2] == 0x02 && der[3] == |a| && der[4..q] == a;
    assert der[q] == 0x02 && der[q + 1] == |b| && der[q + 2..end] == b;
    IntegerIsRead(der, 2, end, a);
    IntegerIsRead(der, q, end, b);
  }

  /** Every minimal encoding of two values below 2^384 is read, whatever follows it, and yields
      the two values in their fields. */
  lemma MinimalEncodingIsRead(r: nat, s: nat, rest: Bytes)
    requires r < Pow(256, FIELD) && s < Pow(256, FIELD)
    ensures |MinimalContents(r)| + |MinimalContents(s)| < 0x7c
    ensures Fixed(EncodeSignature(r, s) + rest) == Ok(BigEndian(r, FIELD) + BigEndian(s, FIELD))
  {
    MinimalFits(r);
    MinimalFits(s);
    SequenceIsRead(MinimalContents(r), MinimalContents(s), rest);
    FieldOf(r);
    FieldOf(s);
    FixedFrom(EncodeSignature(r, s) + rest, MinimalContents(r), MinimalContents(s), BigEndian(r, FIELD), BigEndian(s, FIELD));
  }

  lemma FixedFrom(der: Bytes, a: Bytes, b: Bytes, x: Bytes, y: Bytes)
    requires Contents(der) == Ok((a, b)) && Padded(Stripped(a)) == Some(x) && Padded(Stripped(b)) == Some(y)
    ensures Fixed(der) == Ok(x + y)
  {
  }

  lemma FieldOf(n: nat)
    requires n < Pow(256, FIELD)
    ensures Padded(Shortest(n)) == Some(BigEndian(n, FIELD))
  {
    MinimalFits(n);
    PaddedKeepsValue(Shortest(n));
    BigEndianOfUnsigned(Padded(Shortest(n)).value);
  }
}
