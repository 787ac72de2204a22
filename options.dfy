/** The optional values the engine works with: an absent date (NaT), an absent
    override (None / NA), a text that does not parse as an integer. */
module Options {

  datatype Option<+T> = None | Some(value: T) {

    /** The value, or `default` when absent. */
    function GetOr(default: T): T {
      match this
      case Some(v) => v
      case None => default
    }
  }
}
