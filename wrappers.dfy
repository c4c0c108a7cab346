/** Optional values, used for the optional header argument of writeHead and
    for the rejection reason of a request handler. */
module Wrappers {

  datatype Option<+T> = None | Some(value: T)
}
