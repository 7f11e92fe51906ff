/** Swift's `Optional`, as far as the board uses it. */
module Optional {

  datatype Option<+T> = None | Some(value: T) {

    /** The nil-coalescing operator `x ?? default`. */
    function GetOr(default: T): T {
      match this
      case Some(v) => v
      case None => default
    }
  }
}
