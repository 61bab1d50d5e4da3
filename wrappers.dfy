/** Rust's `Option`, as used for the stored selection and the OCR arguments. */
module Wrappers {
  datatype Option<+T> = None | Some(value: T)
}
