/** The small part of java.lang that the data source relies on: the 32-bit `int`,
    references that may be `null`, the unchecked exceptions it throws, and the
    outcome of a call that either returns or throws. */
module JavaLang {

  /** Java's `int`: a signed 32-bit two's-complement integer. */
  type Int32 = x: int | -0x8000_0000 <= x <= 0x7fff_ffff

  /** A reference that may be `null` (`None`). */
  datatype Option<+T> = None | Some(value: T)

  /** The unchecked exceptions the data source throws, with their messages. */
  datatype Exception =
    | IllegalArgument(message: string)
    | UnsupportedOperation(message: string)

  /** A call that returns `value` normally or throws `error`. */
  datatype Result<+T> = Ok(value: T) | Err(error: Exception)
}
