/** An optional value: a probe that failed, a key that is absent, a stream that is not there. */
module Options {

  datatype Option<+T> = None | Some(value: T) {

    /** The value, or `default` when there is none (Python's `dict.get(key, default)`). */
    function GetOr(default: T): T {
      match this
      case Some(v) => v
      case None => default
    }
  }
}
