/** The one result type the other modules share. */
module Wrappers {
  datatype Option<+T> = None | Some(value: T) {
    function Or(other: Option<T>): Option<T> { if Some? then this else other }
  }
}
