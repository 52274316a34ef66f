/** The optional-value datatype used for the fields a mark record may lack. */
module Wrappers {

  /** A value that is present (`Some`) or absent (`None`), like a missing dictionary key. */
  datatype Option<+T> = None | Some(value: T) {

    /** The value if present, otherwise `default`, like Python's `dict.get(key, default)`. */
    function GetOr(default: T): T {
      match this
      case Some(v) => v
      case None => default
    }
  }
}
