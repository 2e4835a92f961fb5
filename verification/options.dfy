/** The optional-value type used throughout the model for JavaScript's
    `undefined`/`null` results. */
module Options {

  datatype Option<T> = None | Some(value: T) {

    /** The value when present, `default` otherwise (JavaScript's `x ?? d`). */
    function GetOr(default: T): T {
      match this
      case Some(v) => v
      case None => default
    }
  }
}
