/** Small result types shared by the model. */
module Wrappers {

  /** A value that may be absent (JavaScript's `undefined`). */
  datatype Option<+T> = None | Some(value: T)

  /** How a call ended: it returned a value, or an exception escaped from it. */
  datatype Outcome<+T> = Returned(value: T) | Threw
}
