/** The optional value used for every nullable document field (a MongoDB
    `null` and a missing key both read back as `None`) and for the outcome
    of parsing. */
module Options {

  datatype Option<+T> = None | Some(value: T) {

    /** The wrapped value, or `default` when there is none. */
    function GetOr(default: T): T {
      match this
      case Some(v) => v
      case None => default
    }
  }
}
