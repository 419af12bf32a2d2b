/** Strict decoding of an ABI-encoded `address[]` return buffer. */
module Abi {
  import opened Wrappers
  import opened Numerals

  const MAX_SAFE_OWNERS: nat := 64

  type Address20 = a: Bytes | |a| == 20 witness seq(20, i => 0)

  const PAD: Bytes := [0, 0, 0, 0, 0, 0, 0, 0, 0, 0, 0, 0]

  // ----- the encoder -----

  function Word(n: nat): Bytes {
    BigEndian(n, 32)
  }

  function Words(owners: seq<Address20>): (b: Bytes)
    ensures |b| == 32 * |owners|
  {
    if owners == [] then [] else Words(owners[..|owners| - 1]) + (PAD + owners[|owners| - 1])
  }

  function EncodeAddresses(owners: seq<Address20>): Bytes {
    Word(32) + Word(|owners|) + Words(owners)
  }

  // ----- the decoder -----

  /** The `i`-th word of the array part, when its twelve high bytes are clean. */
  function AddressAt(raw: Bytes, i: nat): Option<Address20>
    requires |raw| >= 96 + 32 * i
  {
    var w := raw[64 + 32 * i..96 + 32 * i];
    if w[..12] != PAD then None else Some(w[12..])
  }

  function FirstAddresses(raw: Bytes, n: nat): Option<seq<Address20>>
    requires |raw| >= 64 + 32 * n
  {
    if n == 0 then Some([])
    else
      match FirstAddresses(raw, n - 1)
      case None => None
      case Some(front) =>
        match AddressAt(raw, n - 1)
        case None => None
        case Some(a) => Some(front + [a])
  }

  function DecodedAddresses(raw: Bytes): Option<seq<Address20>> {
    if |raw| < 64 then None
    else if Unsigned(raw[..32]) != 32 then None
    else
      var n := Unsigned(raw[32..64]);
      if n > MAX_SAFE_OWNERS || |raw| < 64 + 32 * n then None else FirstAddresses(raw, n)
  }

  method DecodeAddressArray(raw: Bytes) returns (r: Option<seq<Address20>>)
    ensures r == DecodedAddresses(raw)
  {
    if |raw| < 64 {
      return None;
    }
    if Unsigned(raw[..32]) != 32 {
      return None;
    }
    var n := Unsigned(raw[32..64]);
    if n > MAX_SAFE_OWNERS || |raw| < 64 + n * 32 {
      return None;
    }
    var out := [];
    for i := 0 to n
      invariant FirstAddresses(raw, i) == Some(out)
    {
      var w := raw[64 + i * 32..96 + i * 32];
      assert AddressAt(raw, i) == if w[..12] != PAD then None else Some(w[12..]);
      if w[..12] != PAD {
        DirtyWordRefuses(raw, i, n);
        return None;
      }
      var a: Address20 := w[12..];
      out := out + [a];
    }
    r := Some(out);
  }

  lemma {:induction false} DirtyWordRefuses(raw: Bytes, i: nat, n: nat)
    requires i < n && |raw| >= 64 + 32 * n && AddressAt(raw, i).None?
    ensures FirstAddresses(raw, n).None?
    decreases n
  {
    if i < n - 1 {
      DirtyWordRefuses(raw, i, n - 1);
    }
  }

  // ----- strict inverses -----

  /** What was read is what stands there. */
  lemma {:induction false} FirstAddressesStand(raw: Bytes, n: nat)
    requires |raw| >= 64 + 32 * n && FirstAddresses(raw, n).Some?
    ensures |FirstAddresses(raw, n).value| == n
    ensures raw[64..64 + 32 * n] == Words(FirstAddresses(raw, n).value)
  {
    if n > 0 {
      FirstAddressesStand(raw, n - 1);
      var front, a := FirstAddresses(raw, n - 1).value, AddressAt(raw, n - 1).value;
      assert raw[32 + 32 * n..64 + 32 * n] == PAD + a;
      NextWordStands(raw, n - 1, front, a);
    }
  }

  lemma NextWordStands(raw: Bytes, n: nat, front: seq<Address20>, a: Address20)
    requires |raw| >= 96 + 32 * n && |front| == n && raw[64..64 + 32 * n] == Words(front)
    requires raw[64 + 32 * n..96 + 32 * n] == PAD + a
    ensures raw[64..96 + 32 * n] == Words(front + [a])
  {
    assert raw[64..96 + 32 * n] == raw[64..64 + 32 * n] + raw[64 + 32 * n..96 + 32 * n];
    assert (front + [a])[..n] == front;
  }

  lemma SliceParts<T>(s: seq<T>, a: nat, b: nat, c: nat)
    requires a <= b <= c <= |s|
    ensures s[a..c][..b - a] == s[a..b] && s[a..c][b - a..] == s[b..c]
  {
  }

  /** What stands there is read. */
  lemma {:induction false} WordsAreRead(raw: Bytes, owners: seq<Address20>)
    requires |raw| >= 64 + 32 * |owners| && raw[64..64 + 32 * |owners|] == Words(owners)
    ensures FirstAddresses(raw, |owners|) == Some(owners)
  {
    if owners != [] {
      var n := |owners| - 1;
      SliceParts(raw, 64, 64 + 32 * n, 96 + 32 * n);
      var front := Words(owners[..n]);
      assert Words(owners)[..32 * n] == front && Words(owners)[32 * n..] == PAD + owners[n];
      WordsAreRead(raw, owners[..n]);
      LastWordIsRead(raw, n, owners[n]);
      assert owners == owners[..n] + [owners[n]];
    }
  }

  lemma LastWordIsRead(raw: Bytes, n: nat, a: Address20)
    requires |raw| >= 96 + 32 * n && raw[64 + 32 * n..96 + 32 * n] == PAD + a
    ensures AddressAt(raw, n) == Some(a)
  {
    assert (PAD + a)[..12] == PAD && (PAD + a)[12..] == a;
  }

  lemma SmallWord(n: nat)
    requires n <= 64
    ensures Unsigned(Word(n)) == n
  {
    assert n < Pow(256, 32) by {
      PowGrows(256, 32);
    }
    UnsignedOfBigEndian(n, 32);
  }

  lemma {:induction false} PowGrows(base: nat, n: nat)
    requires base >= 2 && n >= 1
    ensures Pow(base, n) >= base
  {
    if n > 1 {
      PowGrows(base, n - 1);
      assert base * Pow(base, n - 1) >= 1 * Pow(base, n - 1);
    }
  }

  lemma WordExactly(b: Bytes, n: nat)
    requires |b| == 32 && n <= 64
    ensures Unsigned(b) == n <==> b == Word(n)
  {
    SmallWord(n);
    BigEndianOfUnsigned(b);
  }

  lemma DecodedStandsEncoded(raw: Bytes, owners: seq<Address20>)
    requires DecodedAddresses(raw) == Some(owners)
    ensures |owners| <= MAX_SAFE_OWNERS && EncodeAddresses(owners) <= raw
  {
    var n := Unsigned(raw[32..64]);
    FirstAddressesStand(raw, n);
    WordExactly(raw[..32], 32);
    WordExactly(raw[32..64], n);
    PartsEncode(raw, n, owners);
  }

  lemma PartsEncode(raw: Bytes, n: nat, owners: seq<Address20>)
    requires |raw| >= 64 + 32 * n && |owners| == n
    requires raw[..32] == Word(32) && raw[32..64] == Word(n) && raw[64..64 + 32 * n] == Words(owners)
    ensures EncodeAddresses(owners) <= raw
  {
    PartsStand(raw, 32, 64, 64 + 32 * n, Word(32), Word(n), Words(owners));
  }

  lemma PartsStand<T>(s: seq<T>, a: nat, b: nat, c: nat, x: seq<T>, y: seq<T>, z: seq<T>)
    requires a <= b <= c <= |s| && s[..a] == x && s[a..b] == y && s[b..c] == z
    ensures x + y + z <= s
  {
  }

  lemma PartsAreSlices<T>(x: seq<T>, y: seq<T>, z: seq<T>, rest: seq<T>)
    ensures var s := x + y + z + rest;
            && s[..|x|] == x && s[|x|..|x| + |y|] == y && s[|x| + |y|..|x| + |y| + |z|] == z
  {
  }

  lemma EncodingDecodes(owners: seq<Address20>, rest: Bytes)
    requires |owners| <= MAX_SAFE_OWNERS
    ensures DecodedAddresses(EncodeAddresses(owners) + rest) == Some(owners)
  {
    var raw := EncodeAddresses(owners) + rest;
    PartsAreSlices(Word(32), Word(|owners|), Words(owners), rest);
    SmallWord(32);
    SmallWord(|owners|);
    WordsAreRead(raw, owners);
  }

  /** A buffer decodes to `owners` exactly when there are at most 64 of them and it starts with
      their canonical encoding. */
  lemma DecodesExactlyEncodings(raw: Bytes, owners: seq<Address20>)
    ensures DecodedAddresses(raw) == Some(owners) <==> |owners| <= MAX_SAFE_OWNERS && EncodeAddresses(owners) <= raw
  {
    if |owners| <= MAX_SAFE_OWNERS && EncodeAddresses(owners) <= raw {
      PrefixDecodes(raw, owners, EncodeAddresses(owners));
    } else if DecodedAddresses(raw) == Some(owners) {
      DecodedStandsEncoded(raw, owners);
    }
  }

  lemma PrefixDecodes(raw: Bytes, owners: seq<Address20>, e: Bytes)
    requires |owners| <= MAX_SAFE_OWNERS && e == EncodeAddresses(owners) && e <= raw
    ensures DecodedAddresses(raw) == Some(owners)
  {
    assert raw == e + raw[|e|..];
    EncodingDecodes(owners, raw[|e|..]);
  }
}
