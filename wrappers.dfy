/** The optional value used wherever the source has a nullable reference. */
module Wrappers {

  datatype Option<+T> = None | Some(value: T) {

    /** The C# `??` operator: this value if present, else the fallback. */
    function OrElse(fallback: Option<T>): Option<T> {
      if Some? then this else fallback
    }

    function GetOr(default: T): T {
      if Some? then value else default
    }
  }
}
