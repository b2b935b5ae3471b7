/** Failure-carrying datatypes shared by the other modules: an optional value
    (a missing payload field, a line the grammar does not accept) and a
    success-or-error result (parsing, synthesis). */
module Wrappers {

  datatype Option<+T> = None | Some(value: T) {

    /** The wrapped value, or `default` when there is none. */
    function GetOr(default: T): T {
      match this
      case Some(v) => v
      case None => default
    }
  }

  datatype Result<+R, +E> = Success(value: R) | Failure(error: E)
}
