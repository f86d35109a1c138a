/** Small generic result types shared by every module of the model. */
module Wrappers {

  datatype Option<T> = None | Some(value: T)

  /**
   * The outcome of an operation that the source may abort with an exception
   * or a failed `Trace.Assert`. `Fatal` means the process stops there: no
   * caller ever sees a value.
   */
  datatype Result<T> = Ok(value: T) | Fatal(reason: string)
}
