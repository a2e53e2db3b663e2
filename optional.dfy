/** The optional value used for every field the source marks `?:` or `| null`. */
module Optional {

  datatype Option<+T> = None | Some(value: T) {

    /** The value, or `default` when unset (the source's `x ?? default`). */
    function GetOr(default: T): T {
      match this
      case Some(v) => v
      case None => default
    }
  }
}
