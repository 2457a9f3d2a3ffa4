/** The usual optional value, standing for Rust's `Option`. */
module Options {

  datatype Option<+T> = None | Some(value: T) {

    /** The value if there is one, otherwise `default` (Rust's `unwrap_or`). */
    function GetOr(default: T): T {
      match this
      case Some(v) => v
      case None => default
    }
  }
}
