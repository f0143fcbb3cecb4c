/** The ways the source's routines stop with a panic, as values. */
module Faults {

  datatype Fault =
    | NotPowerOfTwo      // the length check on the number of points fails
    | IndexOutOfBounds   // a slice index is past the end of the slice
    | LengthExceedsPlan  // a buffer longer than the plan it is transformed with

  datatype Result<+T> = Success(value: T) | Failure(fault: Fault)
}
