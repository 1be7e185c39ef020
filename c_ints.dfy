/** The fixed-width C integer types the exporter works with, and the three
    conversions it applies to them: `uint32_t` addition, the `(int)` cast of a
    `uint32_t`, and the `(int)` cast of a floating value. */
module CInts {
  const TwoTo31: int := 0x8000_0000
  const TwoTo32: int := 0x1_0000_0000
  const TwoTo64: int := 0x1_0000_0000_0000_0000

  type u32 = x: int | 0 <= x < 0x1_0000_0000
  type u64 = x: int | 0 <= x < 0x1_0000_0000_0000_0000
  type i64 = x: int | -0x8000_0000_0000_0000 <= x < 0x8000_0000_0000_0000

  /** `a + b` on two `uint32_t` operands: the sum wraps around at 2^32. */
  function U32Add(a: u32, b: u32): (s: u32)
    ensures a + b < TwoTo32 ==> s == a + b
    ensures TwoTo32 <= a + b ==> s == a + b - TwoTo32
  {
    (a + b) % TwoTo32
  }

  /** `(int)x` for a `uint32_t` x: the same 32 bits read as two's complement. */
  function U32ToInt32(x: u32): (n: int)
    ensures -TwoTo31 <= n < TwoTo31
    ensures n % TwoTo32 == x
    ensures x < TwoTo31 ==> n == x
  {
    if x < TwoTo31 then x else x - TwoTo32
  }

  /** `(int)x` for a floating x: the fraction is dropped, rounding toward zero. */
  function TruncateTowardZero(x: real): (n: int)
    ensures 0.0 <= x ==> n as real <= x < n as real + 1.0
    ensures x < 0.0 ==> n as real - 1.0 < x <= n as real
  {
    if 0.0 <= x then x.Floor else -((-x).Floor)
  }
}
