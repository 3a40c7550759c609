/** The nullable references of the plugin (a missing bundle entry, an
    absent error code) are modelled as an explicit Option. */
module Options {

  datatype Option<+T> = None | Some(value: T) {

    /** The value when present, or the given default. */
    function GetOr(default: T): T {
      match this
      case Some(v) => v
      case None => default
    }
  }
}
