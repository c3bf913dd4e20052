/** A value that may be absent: Kotlin's nullable types and the `null` returns of the frame. */
module Options {

  datatype Option<T> = None | Some(value: T) {

    /** The value, or `default` when it is absent (`getInt(key, default)` on a missing preference). */
    function GetOr(default: T): T {
      if Some? then value else default
    }
  }
}
