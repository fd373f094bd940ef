/** Kotlin's nullable types (`T?`) as a value: `None` plays the part of `null`. */
module Nullable {

  datatype Option<+T> = None | Some(value: T) {

    /** `this ?: default`, Kotlin's elvis operator. */
    function OrElse(default: T): (r: T)
      ensures Some? ==> r == value
      ensures None? ==> r == default
    {
      match this
      case Some(v) => v
      case None => default
    }
  }
}
