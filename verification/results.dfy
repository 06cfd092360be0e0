// Optional values and results: a nullable database column, and a service call that either
// commits or is refused with a reason.
module Results {

  datatype Option<+T> = None | Some(value: T)

  datatype Result<+T, +E> = Ok(value: T) | Err(error: E)
}
