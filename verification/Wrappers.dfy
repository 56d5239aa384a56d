/** Failure and optionality types shared by every module. */
module Wrappers {

  /** An optional protocol-buffer field, or the result of a lookup. */
  datatype Option<+T> = None | Some(value: T)

  /** The answer of a remote procedure call: a value, or an exception. */
  datatype Rpc<+T> = Ok(value: T) | Throws
}
