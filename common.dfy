/** Values the source writes as `T | null` (or an optional property) become Option<T>. */
module Common {

  datatype Option<+T> = None | Some(value: T) {

    /** The value, or `default` when absent: the source's `x ?? default`. */
    function GetOr(default: T): T {
      match this
      case Some(v) => v
      case None => default
    }
  }

  /** The outcome of a call into code outside the model that may throw instead of returning. */
  datatype Attempt<+T> = Raised | Returned(value: T)
}
