/** Small failure-carrying datatypes shared by the model. */
module Wrappers {

  /** JavaScript's `null`/`undefined` versus a present value. */
  datatype Option<+T> = None | Some(value: T)

  /** The `{Data, Error}` pair every backend call (blockchain or file store)
      answers with: an empty `Error` means success and `Data` is valid. */
  datatype Backend<+T> = Ok(data: T) | Err(msg: string)

  /** The JavaScript exceptions the modelled code can raise. */
  datatype Exception = TypeError(message: string) | ReferenceError(message: string)

  /** How a JavaScript call completes: by returning a value or by throwing. */
  datatype Completion<+T> = Returned(value: T) | Threw(exception: Exception)
}
