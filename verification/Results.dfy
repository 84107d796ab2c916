/** Values that may be missing, and operations that may fail. */
module Results {
  datatype Option<+T> = None | Some(value: T)

  datatype Result<+T, +E> = Good(value: T) | Bad(error: E)
}
