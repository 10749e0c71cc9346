/** Failure-carrying values shared by the model-file reader and the scorer. */
module Results {

  /** An optional value; `None` also stands for a C++ local left uninitialised. */
  datatype Option<+T> = None | Some(value: T)

  /** The outcome of an operation whose source counterpart can terminate the process. */
  datatype Result<+T, +E> = Ok(value: T) | Err(error: E)
}
