/** Failure values for the exceptions the simulator raises. */
module Outcomes {

  datatype Option<T> = None | Some(value: T)

  datatype Result<T> = Success(value: T) | Failure(error: Error)

  /** One constructor per distinct exception raised by the core. */
  datatype Error =
    | NegativeNumber    // a constructor was given a negative price, amount or loan
    | RatioNotAboveOne  // a constructor was given a minimum collateral ratio of at most 1
    | RatioViolated     // a constructor's initial position is below the minimum ratio
    | NegativePrice     // a price update was given a negative price
    | OverExtraction    // a resize would make the collateral amount or the loan negative
    | DivisionByZero    // Python's ZeroDivisionError
    | MissingColumn     // pandas' KeyError: an indicator column that does not exist yet
    | MissingAttribute  // Python's AttributeError: a field the object does not define
}
