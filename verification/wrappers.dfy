/** Small value types shared by every module of the model. */
module Wrappers {

  datatype Option<T> = None | Some(value: T)

  datatype Result<T, E> = Success(value: T) | Failure(error: E)

  /** An unsigned 8-bit value: a colour channel, a brightness, an effect parameter. */
  type Byte = x: int | 0 <= x < 256

  /** An unsigned 16-bit value. */
  type U16 = x: int | 0 <= x < 0x1_0000

  /** An unsigned 32-bit value. */
  type U32 = x: int | 0 <= x < 0x1_0000_0000

  /** An unsigned 64-bit value. */
  type U64 = x: int | 0 <= x < 0x1_0000_0000_0000_0000

  /** A signed 32-bit value. */
  type I32 = x: int | -0x8000_0000 <= x < 0x8000_0000

  function Min(a: int, b: int): int { if a <= b then a else b }

  function Max(a: int, b: int): int { if a >= b then a else b }

  /** Clamp an integer into [0, 255]. */
  function ToByte(x: int): Byte { if x < 0 then 0 else if x > 255 then 255 else x }

  /** An RGB colour triple. */
  datatype Rgb = Rgb(r: Byte, g: Byte, b: Byte)

  const Black := Rgb(0, 0, 0)
}
