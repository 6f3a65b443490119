/** Option and Result, with the errors the inputs package raises. */
module Wrappers {

  datatype Option<+T> = None | Some(value: T)

  datatype Result<+T, +E> = Ok(value: T) | Err(error: E)

  /**
   * The exceptions the package raises: the two code-table lookups, the
   * manager's indexing, and the helpers when a kind has no device.
   */
  datatype Error =
    | UnknownEventType(rawType: int)
    | UnknownEventCode(evType: string, code: int)
    | IndexOutOfRange(index: int)
    | Unplugged(kind: string)
}
