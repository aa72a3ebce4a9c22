/** Optional values, for the evaluator's "could not rank these cards" and the host slot. */
module Wrappers {
  datatype Option<+T> = None | Some(value: T)
}
