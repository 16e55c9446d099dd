/** Failure-carrying results used by the shape/type rule and by node construction. */
module Results {

  /** Either a value or the reason the value could not be produced. */
  datatype Result<+T, +E> = Ok(value: T) | Err(error: E)

  /** A value that may be absent. */
  datatype Option<+T> = None | Some(value: T)
}
