/** Failure-carrying return types shared by every module: `Option` for the
    source's `null`/`undefined` results and `Result` for its thrown errors. */
module Wrappers {

  datatype Option<+T> = None | Some(value: T)

  /** The errors the modelled code raises, by the message it raises them with. */
  datatype Error =
    | SingularMatrix        // "Singular matrix" from the solver or the inverter
    | InvalidArguments      // "Perspective: invalid arguments"
    | TypeError             // a property read or method call on `undefined`
    | DecimalError          // "[DecimalError] Invalid argument" from `new Decimal(..)`

  datatype Result<+T> = Success(value: T) | Failure(error: Error)
}
