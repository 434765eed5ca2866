/** The usual Some/None wrapper, used for values the source may leave
    unset (a NaN id, an `undefined` flag). */
module Wrappers {

  datatype Option<+T> = None | Some(value: T)
}
