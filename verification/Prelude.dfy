/** Identifiers and the option type shared by every module. A UUID is a natural number: only its identity matters. */
module Prelude {
  type ProductId = nat
  type OrderId = nat
  type MessageId = nat

  // Upper bound of a Postgres INT column, and of a Go int32.
  const INT_MAX: int := 0x7FFF_FFFF

  datatype Option<+T> = None | Some(value: T)
}
