/** Failure-carrying result of a bounds-checked access: the library throws a
    runtime exception where this model returns None. */
module Wrappers {

  datatype Option<+T> = None | Some(value: T) {

    predicate IsFailure() {
      None?
    }

    /** The wrapped value, or `default` when the access failed. */
    function GetOr(default: T): T {
      match this
      case Some(v) => v
      case None => default
    }
  }
}
