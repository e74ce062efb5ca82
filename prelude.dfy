/** Values that JavaScript represents with `null` or `undefined` when absent. */
module Prelude {

  datatype Option<T> = None | Some(value: T)
}
