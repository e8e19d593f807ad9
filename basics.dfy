/** Small wrapper types shared by the whole model. */
module Basics {

  /** A value that may be absent: a JavaScript `null`/`undefined` or a missing key. */
  datatype Option<+T> = None | Some(value: T)
  {
    function GetOr(default: T): T
    {
      match this
      case Some(v) => v
      case None => default
    }
  }

  /** What a backend call reports: success, or an error carrying its message. */
  datatype Outcome = Ok | Err(message: string)
}
