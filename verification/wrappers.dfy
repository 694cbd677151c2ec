/** Optional values: the model's stand-in for JavaScript's `null`, `false`
    and `undefined` where the source uses them to mean "nothing here". */
module Wrappers {

  datatype Option<+T> = None | Some(value: T)
}
