/** The nullable values of the pages: a JavaScript `null` or `undefined`
    becomes `None`, a present value becomes `Some`. */
module Wrappers {

  datatype Option<+T> = None | Some(value: T) {

    /** The `x ?? d` operator: the value when present, else the default. */
    function OrElse(default: T): (r: T)
      ensures Some? ==> r == value
      ensures None? ==> r == default
    {
      match this
      case Some(v) => v
      case None => default
    }
  }
}
