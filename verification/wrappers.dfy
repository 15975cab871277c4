/** An optional value and a value-or-error result, used across the model;
    the result is the model's stand-in for PHP exceptions. */
module Wrappers {

  datatype Option<+T> = None | Some(value: T)

  datatype Result<+R, +E> = Success(value: R) | Failure(error: E) {

    /** Keeps a success and rewraps an error with `wrap`. */
    function MapFailure<NewE>(wrap: E -> NewE): Result<R, NewE>
    {
      match this
      case Success(v) => Success(v)
      case Failure(e) => Failure(wrap(e))
    }
  }
}
