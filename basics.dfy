/** Small value types shared by the event-loop model. */
module Basics {

  /** A value that may be absent (a NULL pointer, a missing match). */
  datatype Option<T> = None | Some(value: T)

  /** The C `int` of a 32-bit target. */
  newtype int32 = x: int | -0x8000_0000 <= x < 0x8000_0000

  /** One byte of the control stream. */
  type byte = b: int | 0 <= b < 256

  /** An opaque `DBusWatch *`: a 32-bit pointer value, 0 being NULL. */
  type WatchRef = bv32

  const NULL_WATCH: WatchRef := 0
}
