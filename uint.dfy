/** The fixed-width unsigned integers of Go that the lights core works with. */
module Uint {

  /** Go's `uint8`, the type of a brightness or a saturation. */
  newtype uint8 = x: int | 0 <= x < 0x100

  /** Go's `uint16`, the type of a hue. */
  newtype uint16 = x: int | 0 <= x < 0x1_0000

  const MaxUint8: int := 0xFF
  const MaxUint16: int := 0xFFFF

  function Min(x: int, y: int): int { if x <= y then x else y }

  function Max(x: int, y: int): int { if x >= y then x else y }
}
