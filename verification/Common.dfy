/** Names that several modules share. */
module Common {

  datatype Option<+T> = None | Some(value: T)

  type Address = nat

  const MAX_UINT64: nat := 0xFFFF_FFFF_FFFF_FFFF

  // the three levels of the hierarchy
  const PRIME_CTX := 0
  const REGION_CTX := 1
  const ZONE_CTX := 2
}
