/** Identifiers and optional values, shared by all modules. */
module Basics {
  /** Opaque identifiers, names, keys and hashes. */
  type Id = nat

  datatype Option<+T> = None | Some(value: T)
}
