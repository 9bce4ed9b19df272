/** The optional value returned by lookups that may find nothing
    (`URLSearchParams.get` returning `null`, an absent `description`). */
module Wrappers {

  datatype Option<+T> = None | Some(value: T)
}
