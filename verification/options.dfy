/** Python's `None`-or-value, as a datatype. */
module Options {

  datatype Option<+T> = None | Some(value: T) {

    /** `x or default` for a value whose only falsy form is None. */
    function GetOr(default: T): T {
      match this
      case Some(v) => v
      case None => default
    }
  }
}
