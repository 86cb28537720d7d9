/** Optional values: a nullable SQL column, an absent query parameter, a row that was not found. */
module Wrappers {

  datatype Option<T> = None | Some(value: T)
}
