/** Types shared by every module of the model. */
module Common {

  /** `uint8_t`. */
  type Byte = bv8

  datatype Option<+T> = None | Some(value: T)

  /** The number of values of a `uint32_t` and of a `uint64_t`. */
  const TWO_TO_32: nat := 0x1_0000_0000
  const TWO_TO_64: nat := 0x1_0000_0000_0000_0000
}
