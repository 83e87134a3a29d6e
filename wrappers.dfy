/** Option type used for "may be absent" values: a search that finds nothing,
    a file that does not exist. */
module Wrappers {
  datatype Option<+T> = None | Some(value: T)
}
