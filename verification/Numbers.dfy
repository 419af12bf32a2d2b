/** Exact stand-ins for the float and machine-integer operations of the oracle:
    rounding half away from zero and saturating casts. */
module Numbers {

  const U64_END: int := 0x1_0000_0000_0000_0000
  const I64_MIN: int := -0x8000_0000_0000_0000
  const I64_END: int := 0x8000_0000_0000_0000

  /** `f64::min`. */
  function Least(x: real, y: real): (m: real)
    ensures m <= x && m <= y && (m == x || m == y)
  {
    if x <= y then x else y
  }

  /** `f64::round`: nearest integer, ties away from zero. */
  function Round(x: real): (n: int)
    ensures x - 0.5 <= n as real <= x + 0.5
    ensures x >= 0.0 ==> n >= 0 && x - 0.5 < n as real
    ensures x <= 0.0 ==> n <= 0 && n as real < x + 0.5
  {
    if x >= 0.0 then (x + 0.5).Floor else -((0.5 - x).Floor)
  }

  lemma RoundGrows(x: real, y: real)
    requires x <= y
    ensures Round(x) <= Round(y)
  {
  }

  lemma RoundOfInteger(n: int)
    ensures Round(n as real) == n
  {
  }

  /** A saturating cast of an integral float to `u64`. */
  function SaturateU64(n: int): (m: nat)
    ensures 0 <= n < U64_END ==> m == n
    ensures m < U64_END
  {
    if n < 0 then 0 else if n >= U64_END then U64_END - 1 else n
  }

  /** A saturating cast of an integral float to `i64`. */
  function SaturateI64(n: int): (m: int)
    ensures I64_MIN <= n < I64_END ==> m == n
    ensures I64_MIN <= m < I64_END
  {
    if n < I64_MIN then I64_MIN else if n >= I64_END then I64_END - 1 else n
  }
}
