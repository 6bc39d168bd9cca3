/** The optional value used wherever the modelled code may produce "nothing" (JavaScript's NaN, a failed parse). */
module Wrappers {
  datatype Option<T> = None | Some(value: T)
}
