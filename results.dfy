/** Option and Result wrappers used by the inference model. */
module Results {

  /** A value that may be missing: a failed frame read, an absent detector. */
  datatype Option<+T> = None | Some(value: T)

  /** The outcome of an operation that can raise. */
  datatype Result<+R, +E> = Success(value: R) | Failure(error: E)
}
