/**
 * The optional value used where the source answers "nothing": a `match` that finds no
 * segment number, a window the comparator could not sort, a line that does not read back.
 */
module Wrappers {
  datatype Option<+T> = None | Some(value: T)
}
