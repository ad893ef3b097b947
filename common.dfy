/**
 * Types shared by every module of the model: bytes, the fixed-width integer
 * ranges of C#, optional values and the exceptions the client code throws.
 */
module Common {

  /** One octet, as C#'s `byte`. */
  type byte = x: int | 0 <= x < 256

  /** C#'s `uint`. */
  type uint = x: int | 0 <= x < 0x1_0000_0000

  /** C#'s `ulong`. */
  type ulong = x: int | 0 <= x < 0x1_0000_0000_0000_0000

  const TWO_32: int := 0x1_0000_0000
  const TWO_63: int := 0x8000_0000_0000_0000
  const TWO_64: int := 0x1_0000_0000_0000_0000

  /** C#'s `long` range. */
  predicate IsLong(v: int) { -TWO_63 <= v < TWO_63 }

  /** C#'s `uint` range. */
  predicate IsUInt(v: int) { 0 <= v < TWO_32 }

  /** `unchecked((int)x)` for a `uint` x: two's-complement reinterpretation. */
  function UIntToInt(x: int): (r: int)
    requires IsUInt(x)
    ensures -0x8000_0000 <= r < 0x8000_0000
    ensures r % TWO_32 == x
  {
    if x < 0x8000_0000 then x else x - TWO_32
  }

  /** The exceptions of the client code that the model surfaces as values. */
  datatype Error =
    | InvalidOperation(reason: string)
    | InvalidCast
    | NotImplemented
    | ArgumentOutOfRange(param: string)
    | KeyNotFound
    | NullReference
    /** `ArgumentNullException`, as `lock` throws on a null object. */
    | ArgumentNull
    | EndOfStream
    | IndexOutOfRange
    | Transport
    /** `ThreadStateException`: a thread started a second time. */
    | ThreadState

  datatype Option<+T> = None | Some(value: T)

  datatype Result<+T> = Ok(value: T) | Err(error: Error)

  /** The effect of a `void` operation that may throw. */
  datatype Outcome = Done | Threw(error: Error)
}
