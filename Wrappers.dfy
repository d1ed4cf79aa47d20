/** The optional value the JavaScript code expresses with `null`, `undefined` or a missing entry. */
module Wrappers {

  datatype Option<+T> = None | Some(value: T)
  {
    /** The value, or `fallback` when there is none. */
    function GetOr(fallback: T): T
    {
      match this
      case Some(v) => v
      case None => fallback
    }

    /** The value as a one-element list, or the empty list. */
    function ToSeq(): seq<T>
    {
      match this
      case Some(v) => [v]
      case None => []
    }
  }
}
