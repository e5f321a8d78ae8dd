// Small vocabulary shared by the models.

module Common {
  datatype Option<+T> = None | Some(value: T)

  /** The outcome of a call that may raise: a value, or which check failed. */
  datatype Result<+T, +E> = Ok(value: T) | Err(error: E)
}
