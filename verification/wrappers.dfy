/** The optional-value datatype used for JavaScript's `undefined` / "not found". */
module Wrappers {

  datatype Option<+T> = None | Some(value: T) {

    /** The wrapped value, or `default` when there is none (JavaScript's `x || default`
        for values whose only falsy form is "missing"). */
    function GetOr(default: T): T
    {
      match this
      case Some(v) => v
      case None => default
    }
  }
}
