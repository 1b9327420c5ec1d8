/** Failure-compatible result type shared by every module, and the exceptions the
    modelled Java code can raise. */
module Wrappers {

  /** The exceptional outcomes of the modelled code. */
  datatype Error =
    | NotMultiresolution     // RuntimeException: a Game of Life source has one resolution level
    | SingleTimepoint        // RuntimeException: the volume source has one time point
    | StackOverflow          // the lazy table recursion never reaches an existing key
    | IndexOutOfBounds       // java.util.List.get outside 0 .. size-1
    | DivisionByZero         // java.lang.ArithmeticException on integer division
    | IllegalColorComponent  // java.awt.Color rejects a component outside 0 .. 255

  datatype Result<+T> = Success(value: T) | Failure(error: Error) {

    predicate IsFailure() {
      Failure?
    }

    function PropagateFailure<U>(): Result<U>
      requires Failure?
    {
      Failure(error)
    }

    function Extract(): T
      requires Success?
    {
      value
    }
  }
}
