/** The optional value used for JavaScript's `undefined`: an omitted prop,
    a failed `Array.prototype.find`, an absent trigger text. */
module Optional {

  datatype Option<+T> = None | Some(value: T) {

    /** The value, or `default` when absent: JavaScript's default parameter. */
    function GetOr(default: T): T {
      match this
      case Some(v) => v
      case None => default
    }
  }
}
