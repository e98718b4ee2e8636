/** Optional values: the model's counterpart of a TypeScript optional property. */
module Wrappers {

  datatype Option<+T> = None | Some(value: T)
}
