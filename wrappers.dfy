/** Small value wrappers shared by the result algebra. */
module Wrappers {

  /** A value that may be absent: `Some(v)`, or `None` for the host language's `undefined`. */
  datatype Option<T> = None | Some(value: T) {

    /** The value held, or `default` when there is none. */
    function GetOr(default: T): (x: T)
      ensures Some? ==> x == value
      ensures None? ==> x == default
    {
      match this
      case Some(v) => v
      case None => default
    }
  }

  /** What a call that may raise produces: the value it returned, or the object it threw. */
  datatype Outcome<T, X> = Returned(value: T) | Thrown(thrown: X)
}
