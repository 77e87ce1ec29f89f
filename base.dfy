/** Small shared vocabulary: optional values, pass/fail outcomes and the
    fixed-width unsigned integers the game uses for identifiers. */
module Base {

  datatype Option<+T> = None | Some(value: T)

  /** The result of a fallible operation that carries no value on success. */
  datatype Outcome<+E> = Pass | Fail(error: E)

  newtype u32 = x: int | 0 <= x < 0x1_0000_0000
  newtype u64 = x: int | 0 <= x < 0x1_0000_0000_0000_0000
}
