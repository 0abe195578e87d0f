/**
 * The fixed-width integer types and the Rust operators on them that the
 * adapter uses.  Dafny integers are unbounded, so each Rust operation that
 * can wrap or truncate is written out: `as` casts keep the low bits of the
 * two's-complement value, and `/` on integers rounds toward zero (Dafny's
 * own `/` is Euclidean).  Arithmetic is modelled in release mode, where
 * overflow wraps; the lemmas of the downmix show that no overflow happens
 * there, so the debug-mode panic is never reached either.
 */
module RustInts {
  const I16_MIN: int := -0x8000
  const I16_MAX: int := 0x7FFF
  const I32_MIN: int := -0x8000_0000
  const I32_MAX: int := 0x7FFF_FFFF
  const I64_MIN: int := -0x8000_0000_0000_0000
  const I64_MAX: int := 0x7FFF_FFFF_FFFF_FFFF
  const U64_MODULUS: int := 0x1_0000_0000_0000_0000

  newtype i16 = x: int | -0x8000 <= x < 0x8000
  newtype i32 = x: int | -0x8000_0000 <= x < 0x8000_0000
  newtype i64 = x: int | -0x8000_0000_0000_0000 <= x < 0x8000_0000_0000_0000
  newtype u64 = x: int | 0 <= x < 0x1_0000_0000_0000_0000

  /** Two's-complement reduction of an unbounded integer to 16 bits. */
  function WrapI16(x: int): (r: i16)
    ensures (r as int - x) % 0x1_0000 == 0
    ensures I16_MIN <= x <= I16_MAX ==> r as int == x
  {
    ((x + 0x8000) % 0x1_0000 - 0x8000) as i16
  }

  /** Two's-complement reduction of an unbounded integer to 32 bits. */
  function WrapI32(x: int): (r: i32)
    ensures (r as int - x) % 0x1_0000_0000 == 0
    ensures I32_MIN <= x <= I32_MAX ==> r as int == x
  {
    ((x + 0x8000_0000) % 0x1_0000_0000 - 0x8000_0000) as i32
  }

  /** Two's-complement reduction of an unbounded integer to 64 bits. */
  function WrapI64(x: int): (r: i64)
    ensures (r as int - x) % U64_MODULUS == 0
    ensures I64_MIN <= x <= I64_MAX ==> r as int == x
  {
    ((x + 0x8000_0000_0000_0000) % U64_MODULUS - 0x8000_0000_0000_0000) as i64
  }

  /** `x as i32` for an `i16`: sign extension, which never loses anything. */
  function WidenI16(x: i16): (r: i32)
    ensures r as int == x as int
  {
    x as int as i32
  }

  /** `x as i16` for an `i32`: keeps the low 16 bits. */
  function CastI32ToI16(x: i32): (r: i16)
    ensures (r as int - x as int) % 0x1_0000 == 0
    ensures I16_MIN <= x as int <= I16_MAX ==> r as int == x as int
  {
    WrapI16(x as int)
  }

  /** `x as usize` for an `i64` on a 64-bit target: reinterprets the bits. */
  function CastI64ToUsize(x: i64): (r: u64)
    ensures x >= 0 ==> r as int == x as int
    ensures x < 0 ==> r as int == x as int + U64_MODULUS
  {
    (x as int % U64_MODULUS) as u64
  }

  /** `a + b` on `i32` (wrapping). */
  function AddI32(a: i32, b: i32): (r: i32)
    ensures (r as int - (a as int + b as int)) % 0x1_0000_0000 == 0
    ensures I32_MIN <= a as int + b as int <= I32_MAX ==> r as int == a as int + b as int
  {
    WrapI32(a as int + b as int)
  }

  /** `a - b` on `i64` (wrapping). */
  function SubI64(a: i64, b: i64): (r: i64)
    ensures (r as int - (a as int - b as int)) % U64_MODULUS == 0
    ensures I64_MIN <= a as int - b as int <= I64_MAX ==> r as int == a as int - b as int
  {
    WrapI64(a as int - b as int)
  }

  /**
   * `a / 2` on `i32`.  Rust's integer division rounds toward zero, so an odd
   * negative dividend rounds up, not down as Dafny's Euclidean `/` would.
   */
  function HalveI32(a: i32): (r: i32)
    ensures a >= 0 ==> 0 <= a as int - 2 * r as int <= 1
    ensures a < 0 ==> 0 <= 2 * r as int - a as int <= 1
  {
    if a >= 0 then a / 2 else (-((-(a as int)) / 2)) as i32
  }
}
