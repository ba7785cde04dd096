/** Optional values and the outcome of Go code that may panic. */
module Wrappers {

  /** A value that may be absent (Go's nil, or the `ok == false` of a comma-ok form). */
  datatype Option<+T> = None | Some(value: T)

  /** The outcome of Go code that can panic at run time: a value, or the panic and its reason. */
  datatype Result<+T> = Ok(value: T) | Panic(reason: string)
}
