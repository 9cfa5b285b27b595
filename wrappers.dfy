/** A value that may be absent: the model of a C# reference or Nullable that may be null. */
module Wrappers {
  datatype Option<+T> = None | Some(value: T) {
    function GetOr(default: T): T {
      match this
      case Some(v) => v
      case None => default
    }
  }
}
