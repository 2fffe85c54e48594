/**
 * Optional values and computations that may fail with an error message.
 * A JavaScript `throw new Error(msg)` is modelled as `Failure(msg)`.
 */
module Wrappers {

  datatype Option<T> = None | Some(value: T)
  {
    predicate IsSome() { this.Some? }

    function GetOr(default: T): T
    {
      match this
      case None => default
      case Some(v) => v
    }
  }

  datatype Result<T> = Success(value: T) | Failure(error: string)
  {
    predicate IsFailure() { this.Failure? }
  }
}
