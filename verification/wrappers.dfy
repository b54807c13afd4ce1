/** The optional-value datatype shared by the model: `None` stands for Python's
    `None` (an absent JSON field, a failed parse, a raised exception). */
module Wrappers {

  datatype Option<+T> = None | Some(value: T) {

    /** Returns the value in Some, or `default` when None. */
    function GetOr(default: T): T {
      match this
      case Some(v) => v
      case None => default
    }
  }
}
