/** Machine integer ranges, the failure-carrying wrappers used throughout the
    model, and raw pointers as addresses. */
module Base {

  const U8_MAX: int := 0xFF
  const U16_MAX: int := 0xFFFF
  const U32_MAX: int := 0xFFFF_FFFF
  const U64_MAX: int := 0xFFFF_FFFF_FFFF_FFFF
  const I32_MIN: int := -0x8000_0000
  const I32_MAX: int := 0x7FFF_FFFF

  type U8 = x: int | 0 <= x <= U8_MAX
  type U16 = x: int | 0 <= x <= U16_MAX
  type U32 = x: int | 0 <= x <= U32_MAX
  type U64 = x: int | 0 <= x <= U64_MAX
  type I32 = x: int | I32_MIN <= x <= I32_MAX

  /** `x as u16` in Rust: keep the low 16 bits. */
  function AsU16(x: int): (r: U16)
    ensures 0 <= x <= U16_MAX ==> r == x
  {
    x % 0x1_0000
  }

  /** `x as u32` (also the bit-for-bit reinterpretation of an `i32` as `u32`). */
  function AsU32(x: int): (r: U32)
    ensures 0 <= x <= U32_MAX ==> r == x
    ensures I32_MIN <= x < 0 ==> r == x + 0x1_0000_0000
  {
    x % 0x1_0000_0000
  }

  /** `x as i32` in Rust: keep the low 32 bits, read them as two's complement. */
  function AsI32(x: int): (r: I32)
    ensures I32_MIN <= x <= I32_MAX ==> r == x
  {
    var low := x % 0x1_0000_0000;
    if low <= I32_MAX then low else low - 0x1_0000_0000
  }

  /** Negation of an `i32` with wrap-around: `-i32::MIN` is `i32::MIN` again. */
  function WrappingNeg(x: I32): (r: I32)
    ensures x != I32_MIN ==> r == -x
    ensures x == I32_MIN ==> r == I32_MIN
  {
    AsI32(0 - x as int)
  }

  datatype Option<+T> = None | Some(value: T)

  datatype Result<+T, +E> = Ok(value: T) | Err(error: E)

  /** What a Rust call that may `panic!` produces: its value, or the panic
      (an `unwrap`, an `expect` or a failed `assert!`) with its message. */
  datatype Outcome<+T> = Returned(value: T) | Panicked(message: string)

  /** A raw pointer is an address; 0 is the null pointer. */
  type Ptr = nat

  const NULL: Ptr := 0

  /** `NonNull<T>`: a pointer known not to be null. */
  type NonNull = p: Ptr | p != NULL witness 1
}
