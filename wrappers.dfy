/** Plain wrapper datatypes shared by every module: an optional value, a value-or-error
    result (the model of a method that may throw), and a pass-or-fail outcome (the model of a
    `void` method that may throw). */
module Wrappers {

  datatype Option<+T> = None | Some(value: T)

  datatype Result<+R, +E> = Success(value: R) | Failure(error: E)

  datatype Outcome<+E> = Pass | Fail(error: E)
}
