/** The JavaScript `null`/`undefined` of the source, made explicit. */
module Wrappers {

  /** `None` stands for a value that is `null` or `undefined`. */
  datatype Option<+T> = None | Some(value: T) {

    /** The `??` operator: the value if present, otherwise `default`. */
    function GetOr(default: T): T {
      match this
      case Some(v) => v
      case None => default
    }
  }
}
