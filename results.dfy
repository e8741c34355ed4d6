/** The two failure-carrying shapes used throughout the model: `Option` for a Python
    `None` return and `Result` for a call that either returns or raises. */
module Results {

  datatype Option<+T> = None | Some(value: T)

  datatype Result<+T, +E> = Ok(value: T) | Err(error: E)
}
