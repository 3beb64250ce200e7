/** Value types shared by every component of the client. */
module Base {

  /** Kotlin's nullable `T?`. */
  datatype Option<+T> = None | Some(value: T)

  /** One element of a JVM `ByteArray`, taken as its unsigned value. */
  type byte = b: int | 0 <= b < 0x100

  /** Kotlin `Int`: a signed 32-bit integer. */
  type Int32 = x: int | -0x8000_0000 <= x < 0x8000_0000

  /** Kotlin `Long`: a signed 64-bit integer. */
  type Int64 = x: int | -0x8000_0000_0000_0000 <= x < 0x8000_0000_0000_0000

  /** The largest value of a Kotlin `Int`. */
  const IntMax: int := 0x7fff_ffff
}
