/** Small value wrappers shared by the other modules: Python's `None`-or-value
    results and `dict.get(key, default)` lookups become `Option`. */
module Common {

  datatype Option<+T> = None | Some(value: T) {

    /** `d.get(key, default)` for a key that maps to this option. */
    function GetOr(default: T): T {
      match this
      case Some(v) => v
      case None => default
    }

    /** `a if a is present else b`, as in `d.get(k1, d.get(k2, default))`. */
    function OrElse(other: Option<T>): Option<T> {
      if Some? then this else other
    }
  }

  datatype Result<+T, +E> = Ok(value: T) | Err(error: E)
}
