/** The optional value and the value-or-error wrappers shared by the model's modules. */
module Outcomes {

  /** A value that may be missing: used for a root-finder that can fail. */
  datatype Option<T> = None | Some(value: T)

  /** The result of an operation that can raise: `Err` stands for the raised exception. */
  datatype Result<T, E> = Ok(value: T) | Err(error: E)
}
