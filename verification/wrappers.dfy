/** Small value wrappers shared by the model. */
module Wrappers {

  /** An optional value: JavaScript's `null` or `undefined`, or a present value. */
  datatype Option<+T> = None | Some(value: T)

  /** How a remote call settles: the promise resolves with a value, or it rejects.
      The rejection reason is only logged by the application, so it is not kept. */
  datatype Outcome<+T> = Success(value: T) | Failure
}
