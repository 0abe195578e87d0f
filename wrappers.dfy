/** The Option type the adapter's Rust code uses everywhere (`Option<T>`). */
module Wrappers {
  datatype Option<+T> = None | Some(value: T)
}
