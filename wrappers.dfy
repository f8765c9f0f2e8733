/** The optional value used throughout the model for JavaScript's `null`,
    `undefined` and "Invalid Date" outcomes. */
module Wrappers {

  datatype Option<+T> = None | Some(value: T) {

    /** The wrapped value, or `default` when there is none (JavaScript's `x || d`
        on an object that is either present or absent). */
    function GetOr(default: T): T {
      match this
      case Some(v) => v
      case None => default
    }
  }
}
