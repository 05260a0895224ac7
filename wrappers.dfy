/** Option type shared by the weather and tab-box models. It stands for a
    JavaScript value that may be `undefined` (a missing key, an empty
    `filter(...)[0]`). */
module Wrappers {

  datatype Option<+T> = None | Some(value: T) {

    /** The carried value, or `default` when there is none. */
    function GetOr(default: T): (r: T)
      ensures Some? ==> r == value
      ensures None? ==> r == default
    {
      match this
      case Some(v) => v
      case None => default
    }
  }
}
