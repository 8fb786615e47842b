/** Option and Result, and the exceptions the siren code can raise. */
module Outcomes {

  datatype Option<+T> = None | Some(value: T)

  datatype Result<+R, +E> = Success(value: R) | Failure(error: E)

  /** The exceptions that escape the modelled Python code. */
  datatype Fault =
    | InvalidPreset(message: string)  // ValueError raised by register_custom_siren
    | EmptySequence                   // ValueError raised by min() on an empty list
    | ZeroDivision                    // ZeroDivisionError
    | ShapeMismatch                   // ValueError raised by a numpy slice assignment of the wrong length
}
