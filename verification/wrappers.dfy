/** Optional values and fallible results, the model's rendering of Rust's `Option` and `Result`. */
module Wrappers {

  datatype Option<+T> = None | Some(value: T) {
    /** `Option::unwrap_or` */
    function UnwrapOr(default: T): T {
      match this
      case Some(v) => v
      case None => default
    }

    /** `Option::or`: this value if present, otherwise `other`. */
    function Or(other: Option<T>): Option<T> {
      if Some? then this else other
    }
  }

  datatype Result<+R, +E> = Ok(value: R) | Err(error: E)
}
