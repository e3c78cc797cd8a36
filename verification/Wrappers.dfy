/** The two result shapes shared by every component of the model. */
module Wrappers {

  /** std::optional */
  datatype Option<+T> = None | Some(value: T)

  /** The value of a call, or the exception it ended with. */
  datatype Result<+T> = Ok(value: T) | Thrown
}
