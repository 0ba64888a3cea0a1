/** Option and Result, the two wrappers the Rust code returns everywhere. */
module Wrappers {

  datatype Option<+T> = None | Some(value: T)

  datatype Result<+T, +E> = Ok(value: T) | Err(error: E)

  /** `opt.unwrap_or(d)` */
  function UnwrapOr<T>(o: Option<T>, d: T): T
  {
    match o
    case Some(v) => v
    case None => d
  }
}
