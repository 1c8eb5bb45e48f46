/** Option, used where the ray tracer would divide by a zero magnitude. */
module Wrappers {

  datatype Option<+T> = None | Some(value: T)
}
