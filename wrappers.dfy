/** Small failure-carrying datatypes shared by the modules of the model. */
module Wrappers {

  datatype Option<+T> = None | Some(value: T)

  /** The outcome of an operation that the program would abort with `exit(1)`. */
  datatype Result<+T, +E> = Ok(value: T) | Err(error: E)
}
