/** Values shared by the three programs: bytes, Go's optional error and the errors a read can end with. */
module Io {

  /** Go's `byte` (uint8). */
  newtype byte = x: int | 0 <= x < 256

  datatype Option<+T> = None | Some(value: T)

  /** A non-nil Go `error` returned by a read: the clean end of stream (`io.EOF`) or any other failure. */
  datatype Error = EOF | Failure(cause: string)
}
