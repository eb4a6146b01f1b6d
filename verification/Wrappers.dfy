/** Failure values shared by the models: absent values and refused operations. */
module Wrappers {

  datatype Option<+T> = None | Some(value: T)

  /** `Err` stands for the source's ContractError or ValueError. */
  datatype Result<+T, +E> = Ok(value: T) | Err(error: E)
}
