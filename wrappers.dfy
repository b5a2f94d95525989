/** The optional values of the TypeScript source (`T | undefined`). */
module Wrappers {

  datatype Option<+T> = None | Some(value: T) {

    /** `this ?? fallback` */
    function GetOr(fallback: T): T {
      match this
      case Some(v) => v
      case None => fallback
    }
  }
}
