/** The two failure-carrying datatypes used throughout the model. */
module Wrappers {

  datatype Option<+T> = None | Some(value: T)

  /** `Err` stands for the exception that the service throws. */
  datatype Result<+T> = Ok(value: T) | Err(error: string)
}
