/** Failure-carrying wrappers shared by every module of the model. */
module Common {

  /** JavaScript's `undefined`/`null` versus a present value. */
  datatype Option<+T> = None | Some(value: T)

  /** A call that either returns a value or throws an error. */
  datatype Result<+T, +E> = Ok(value: T) | Err(error: E)

  /** A byte, as produced by a hash function or a text encoder. */
  type Byte = b: int | 0 <= b < 256
}
