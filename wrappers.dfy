/** Optional values and pass/fail outcomes shared by the layer models. */
module Wrappers {

  datatype Option<T> = None | Some(value: T)

  /** The result of a step that either completes or stops with an error. */
  datatype Outcome<E> = Pass | Fail(error: E)
}
