/** Values shared by every module of the model. */
module Common {

  datatype Option<+T> = None | Some(value: T)

  datatype Result<+T, +E> = Ok(value: T) | Err(error: E)

  /** The largest value of the source's `u64`. */
  const U64_MAX: nat := 0xFFFF_FFFF_FFFF_FFFF

  /** `u64::checked_add`. */
  function CheckedAdd(a: nat, b: nat): Option<nat> {
    if a + b <= U64_MAX then Some(a + b) else None
  }
}
