/** The optional value used across the model, as Rust's `Option`. */
module Options {

  datatype Option<T> = None | Some(value: T) {

    /** The value, or `default` when there is none (`unwrap_or`). */
    function GetOr(default: T): T
    {
      match this
      case Some(v) => v
      case None => default
    }
  }
}
