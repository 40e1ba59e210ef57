/** The two result shapes shared by every module of the model. */
module Wrappers {

  datatype Option<+T> = None | Some(value: T)

  /** Python's "return a value or raise": `Refused` stands for the raised refusal. */
  datatype Result<+T> = Ok(value: T) | Refused
}
