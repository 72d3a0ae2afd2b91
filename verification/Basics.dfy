/** Optional values and failing computations, shared by every part of the model. */
module Basics {

  datatype Option<+T> = None | Some(value: T) {
    function GetOr(default: T): T {
      match this
      case Some(v) => v
      case None => default
    }
  }

  /** The white space that stripping a text removes. */
  predicate IsSpace(c: char) {
    c in " \t\n\r"
  }

  /** `Err` stands for an exception raised by the modelled code. */
  datatype Result<+T, +E> = Ok(value: T) | Err(error: E)
}
