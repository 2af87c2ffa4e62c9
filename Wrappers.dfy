/** Optional values: the model's stand-in for JavaScript's `undefined`, `NaN`
    and "Invalid Date" results. */
module Wrappers {

  datatype Option<+T> = None | Some(value: T)
}
