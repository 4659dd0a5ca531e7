/** Optional values, as std::optional is used throughout the repository. */
module Wrappers {

  datatype Option<+T> = None | Some(value: T) {

    /** std::optional::value_or */
    function GetOr(default: T): T {
      match this
      case Some(v) => v
      case None => default
    }
  }
}
