/** Small helper datatypes shared by the component models. */
module Wrappers {

  /** A value that may be absent; stands for a TypeScript `T | null`. */
  datatype Option<T> = None | Some(value: T)
}
