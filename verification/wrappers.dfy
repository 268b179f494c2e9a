/** Optional values: a global that may still be `undefined`, or a branch of
    an `if`/`else if` chain that selects nothing. */
module Wrappers {

  datatype Option<+T> = None | Some(value: T)
}
