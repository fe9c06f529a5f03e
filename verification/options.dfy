/** The Some/None datatype used for fields a JavaScript object may lack and
    for a storage read that yields nothing usable. */
module Options {

  datatype Option<+T> = None | Some(value: T) {

    /** The wrapped value, or `default` when there is none. */
    function GetOr(default: T): T {
      match this
      case Some(v) => v
      case None => default
    }
  }
}
