/** Shared vocabulary: optional values. */
module Prelude {
  datatype Option<+T> = None | Some(value: T)
}
