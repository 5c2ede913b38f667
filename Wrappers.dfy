/** The optional value that stands for Kotlin's nullable types (`T?`). */
module Wrappers {

  datatype Option<+T> = None | Some(value: T) {

    /** Kotlin's elvis operator `this ?: other`. */
    function OrElse(other: Option<T>): Option<T>
    {
      if Some? then this else other
    }

    /** `this ?: default` for a non-null default, as in `orEmpty()`. */
    function GetOrElse(default: T): T
    {
      if Some? then value else default
    }
  }
}
