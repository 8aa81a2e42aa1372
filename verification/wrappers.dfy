/** Optional values, used wherever the source works with `Option` or an absent map entry. */
module Wrappers {

  datatype Option<+T> = None | Some(value: T)
}
