/** Optional values, used by the badge reader. */
module Wrappers {

  /** A value that may be absent: the reader returns None for a string that is not badge markup. */
  datatype Option<+T> = None | Some(value: T)
}
