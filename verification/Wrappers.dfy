/** The optional value every component returns for a Go "value or error" pair whose error text is not modelled. */
module Wrappers {
  datatype Option<+T> = None | Some(value: T) {
    function GetOr(default: T): T {
      if Some? then value else default
    }
  }
}
