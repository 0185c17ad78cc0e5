/** Machine integer ranges and the optional-value type shared by the other modules. */
module Prelude {

  /** Number of values of an unsigned 8-bit integer (`uint8_t`). */
  const U8_LIMIT: int := 0x100

  /** Number of values of an unsigned 32-bit integer (`uint32_t`). */
  const U32_LIMIT: int := 0x1_0000_0000

  type u8 = x: int | 0 <= x < U8_LIMIT

  type u32 = x: int | 0 <= x < U32_LIMIT

  /** A signed 32-bit integer (`int32_t`). */
  type i32 = x: int | -0x8000_0000 <= x < 0x8000_0000

  datatype Option<+T> = None | Some(value: T)
}
