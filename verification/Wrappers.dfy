/** The optional values used throughout the model (SQL NULL, Python None, a missing key). */
module Wrappers {

  datatype Option<+T> = None | Some(value: T) {

    function GetOr(default: T): T {
      if Some? then value else default
    }
  }
}
