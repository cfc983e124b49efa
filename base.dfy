/** Shared vocabulary: the source's `unsigned char` coordinates and the
    exceptions its operations throw, as values. */
module Base {

  /** An `unsigned char`: the type of board sizes and coordinates. */
  type Byte = x: int | 0 <= x < 256

  /** The C++ exceptions the core throws (or, for `CLI_ASSERT`, the
      assertion failure it reports), with their messages. */
  datatype Failure =
    | OutOfRange(msg: string)
    | RuntimeError(msg: string)
    | AssertionFailed(msg: string)

  /** The result of an operation that returns a value or throws. */
  datatype Result<+T> = Ok(value: T) | Err(failure: Failure)

  /** The result of a `void` operation that may throw. */
  datatype Outcome = Done | Failed(failure: Failure)
}
