/** Big-endian byte strings and positional numerals, with their inverses. */
module Numerals {
  import opened Wrappers
  import opened Numbers

  type Byte = b: int | 0 <= b < 256

  type Bytes = seq<Byte>

  function Pow(base: nat, n: nat): (p: nat)
    ensures base > 0 ==> p > 0
  {
    if n == 0 then 1 else PowStep(base, Pow(base, n - 1))
  }

  function PowStep(base: nat, p: nat): (r: nat)
    ensures base > 0 && p > 0 ==> r > 0
  {
    base * p
  }

  // ----- big-endian bytes -----

  /** The unsigned value of a big-endian byte string. */
  function Unsigned(b: Bytes): nat {
    if b == [] then 0 else Unsigned(b[..|b| - 1]) * 256 + b[|b| - 1] as int
  }

  /** The low `width` bytes of `n`, big-endian. */
  function BigEndian(n: nat, width: nat): (b: Bytes)
    ensures |b| == width
    decreases width
  {
    if width == 0 then [] else BigEndian(n / 256, width - 1) + [n % 256]
  }

  lemma {:induction false} UnsignedBound(b: Bytes)
    ensures Unsigned(b) < Pow(256, |b|)
  {
    if b != [] {
      UnsignedBound(b[..|b| - 1]);
    }
  }

  lemma {:induction false} UnsignedOfBigEndian(n: nat, width: nat)
    requires n < Pow(256, width)
    ensures Unsigned(BigEndian(n, width)) == n
    decreases width
  {
    if width > 0 {
      UnsignedOfBigEndian(n / 256, width - 1);
      assert BigEndian(n, width)[..width - 1] == BigEndian(n / 256, width - 1);
    }
  }

  lemma {:induction false} BigEndianOfUnsigned(b: Bytes)
    ensures BigEndian(Unsigned(b), |b|) == b
  {
    if b != [] {
      BigEndianOfUnsigned(b[..|b| - 1]);
      assert b == b[..|b| - 1] + [b[|b| - 1]];
    }
  }

  /** Leading zero bytes do not change the value. */
  lemma {:induction false} UnsignedPadded(zeros: nat, b: Bytes)
    ensures Unsigned(seq(zeros, i => 0) + b) == Unsigned(b)
    decreases |b|, zeros
  {
    var pad: Bytes := seq(zeros, i => 0);
    if b == [] {
      assert pad + b == pad;
      UnsignedOfZeros(zeros);
    } else {
      assert (pad + b)[..|pad + b| - 1] == pad + b[..|b| - 1];
      UnsignedPadded(zeros, b[..|b| - 1]);
    }
  }

  lemma {:induction false} UnsignedOfZeros(zeros: nat)
    ensures Unsigned(seq(zeros, i => 0)) == 0
  {
    if zeros > 0 {
      var pad: Bytes := seq(zeros, i => 0);
      assert pad[..zeros - 1] == seq(zeros - 1, i => 0);
      UnsignedOfZeros(zeros - 1);
    }
  }

  // ----- numerals -----

  predicate Base(base: nat) {
    base == 10 || base == 16
  }

  function DigitChar(d: nat): char
    requires d < 16
  {
    if d < 10 then (d + '0' as int) as char else (d - 10 + 'a' as int) as char
  }

  /** The value of a digit, either case. */
  function DigitValue(c: char): Option<nat> {
    if '0' <= c <= '9' then Some(c as int - '0' as int)
    else if 'a' <= c <= 'f' then Some(c as int - 'a' as int + 10)
    else if 'A' <= c <= 'F' then Some(c as int - 'A' as int + 10)
    else None
  }

  lemma DigitRoundTrip(d: nat)
    requires d < 16
    ensures DigitValue(DigitChar(d)) == Some(d)
  {
  }

  predicate IsDigit(c: char, base: nat) {
    DigitValue(c).Some? && DigitValue(c).value < base
  }

  predicate AllDigits(s: string, base: nat) {
    forall i | 0 <= i < |s| :: IsDigit(s[i], base)
  }

  /** The numeral of `n`, without leading zeros. */
  function Print(n: nat, base: nat): (s: string)
    requires Base(base)
    ensures s != []
    decreases n
  {
    if n < base then [DigitChar(n)] else Print(n / base, base) + [DigitChar(n % base)]
  }

  function Value(s: string, base: nat): nat
    requires AllDigits(s, base)
  {
    if s == [] then 0 else Value(s[..|s| - 1], base) * base + DigitValue(s[|s| - 1]).value
  }

  /** A non-empty numeral without a superfluous leading zero. */
  predicate Canonical(s: string, base: nat) {
    s != [] && AllDigits(s, base) && (|s| > 1 ==> s[0] != '0')
  }

  function Lower(c: char): char {
    if 'A' <= c <= 'F' then (c as int - 'A' as int + 'a' as int) as char else c
  }

  function LowerAll(s: string): (r: string)
    ensures |r| == |s| && forall i | 0 <= i < |s| :: r[i] == Lower(s[i])
  {
    seq(|s|, i requires 0 <= i < |s| => Lower(s[i]))
  }

  lemma QuotientIsSmaller(n: nat, base: nat)
    requires Base(base) && base <= n
    ensures 0 < n / base < n
    ensures n == n / base * base + n % base
  {
    if base == 10 {
    } else {
    }
  }

  /** Printing yields a canonical numeral of the value printed. */
  lemma {:induction false} PrintIsCanonical(n: nat, base: nat)
    requires Base(base)
    ensures Canonical(Print(n, base), base)
    ensures Value(Print(n, base), base) == n
    ensures n > 0 ==> Print(n, base)[0] != '0'
  {
    if n < base {
      DigitRoundTrip(n);
    } else {
      QuotientIsSmaller(n, base);
      PrintIsCanonical(n / base, base);
      DigitRoundTrip(n % base);
      var s := Print(n, base);
      assert s[..|s| - 1] == Print(n / base, base);
    }
  }

  lemma LowerIsDigitChar(c: char, base: nat)
    requires Base(base) && IsDigit(c, base)
    ensures Lower(c) == DigitChar(DigitValue(c).value)
    ensures DigitValue(c).value == 0 <==> c == '0'
  {
  }

  lemma {:induction false} PositiveValue(s: string, base: nat)
    requires Base(base) && AllDigits(s, base) && s != [] && s[0] != '0'
    ensures Value(s, base) > 0
  {
    var front := s[..|s| - 1];
    LowerIsDigitChar(s[|s| - 1], base);
    if front != [] {
      PositiveValue(front, base);
      GrowsByBase(Value(front, base), base);
    }
  }

  lemma GrowsByBase(q: nat, base: nat)
    requires Base(base) && q > 0
    ensures q * base >= base
  {
    if base == 10 {
    } else {
    }
  }

  lemma SplitDigit(q: nat, d: nat, base: nat)
    requires Base(base) && d < base
    ensures (q * base + d) / base == q && (q * base + d) % base == d
  {
    if base == 10 {
    } else {
    }
  }

  lemma PrintPush(q: nat, d: nat, base: nat)
    requires Base(base) && q > 0 && d < base
    ensures Print(q * base + d, base) == Print(q, base) + [DigitChar(d)]
  {
    GrowsByBase(q, base);
    SplitDigit(q, d, base);
  }

  lemma LowerPush(s: string)
    requires s != []
    ensures LowerAll(s) == LowerAll(s[..|s| - 1]) + [Lower(s[|s| - 1])]
  {
  }

  /** A canonical numeral is, up to letter case, the print of its value. */
  lemma {:induction false} CanonicalIsPrinted(s: string, base: nat)
    requires Base(base) && Canonical(s, base)
    ensures Print(Value(s, base), base) == LowerAll(s)
  {
    var front, last := s[..|s| - 1], s[|s| - 1];
    LowerIsDigitChar(last, base);
    LowerPush(s);
    if front != [] {
      assert front[0] == s[0];
      CanonicalIsPrinted(front, base);
      PositiveValue(front, base);
      PrintPush(Value(front, base), DigitValue(last).value, base);
    }
  }

  // ----- the two numeral formats on the wire -----

  /** `format!("0x{n:x}")`. */
  function PrintQuantity(n: nat): string {
    "0x" + Print(n, 16)
  }

  function ParseQuantity(s: string): Option<nat> {
    if |s| < 2 || s[..2] != "0x" then None
    else
      var digits := s[2..];
      if digits == [] || (|digits| > 1 && digits[0] == '0') || !AllDigits(digits, 16) then None
      else if Value(digits, 16) >= U64_END then None
      else Some(Value(digits, 16))
  }

  /** A quantity parses to `n` exactly when it is, up to the case of its digits, the print of a
      `u64` value `n`. */
  lemma QuantityIsStrict(s: string, n: nat)
    ensures ParseQuantity(s) == Some(n) <==>
            n < U64_END && |s| >= 2 && s[..2] == "0x" && LowerAll(s[2..]) == Print(n, 16)
  {
    if |s| >= 2 && s[..2] == "0x" {
      CanonicalExactly(s[2..], n, 16);
    }
  }

  lemma CanonicalExactly(digits: string, n: nat, base: nat)
    requires Base(base)
    ensures Canonical(digits, base) && Value(digits, base) == n <==> LowerAll(digits) == Print(n, base)
  {
    if Canonical(digits, base) {
      CanonicalIsPrinted(digits, base);
      PrintIsCanonical(Value(digits, base), base);
      PrintIsCanonical(n, base);
    } else {
      NonCanonicalStays(digits, base);
      PrintIsCanonical(n, base);
    }
  }

  lemma NonCanonicalStays(s: string, base: nat)
    requires !Canonical(s, base)
    ensures !Canonical(LowerAll(s), base)
  {
    if AllDigits(LowerAll(s), base) {
      forall i | 0 <= i < |s| ensures IsDigit(s[i], base) {
        assert IsDigit(LowerAll(s)[i], base);
      }
    }
  }

  lemma QuantityRoundTrip(n: nat)
    requires n < U64_END
    ensures ParseQuantity(PrintQuantity(n)) == Some(n)
  {
    PrintIsCanonical(n, 16);
    assert PrintQuantity(n)[2..] == Print(n, 16);
  }

  /** The decimal form of a claim total. */
  function PrintDecimal(n: nat): string {
    Print(n, 10)
  }

  /** Plain decimal numerals below 2^256. */
  function ParseU256(s: string): Option<nat> {
    if s == [] || !AllDigits(s, 10) || Value(s, 10) >= Pow(2, 256) then None else Some(Value(s, 10))
  }

  lemma DecimalRoundTrip(n: nat)
    requires n < Pow(2, 256)
    ensures ParseU256(PrintDecimal(n)) == Some(n)
  {
    PrintIsCanonical(n, 10);
  }
}
