/** Optional values, standing for the source's `T | null` and `T | undefined`. */
module Wrappers {

  datatype Option<+T> = None | Some(value: T) {

    /** This value when present, otherwise `other`. */
    function Or(other: Option<T>): Option<T> {
      if Some? then this else other
    }

    /** This value when present, otherwise the plain default `d`. */
    function GetOr(default: T): T {
      if Some? then value else default
    }
  }
}
