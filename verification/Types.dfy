/** Machine integers of the Arduino target, and the one arithmetic helper they need. */
module Types {
  newtype uint8 = x: int | 0 <= x < 0x100
  newtype uint16 = x: int | 0 <= x < 0x1_0000
  newtype uint32 = x: int | 0 <= x < 0x1_0000_0000

  const TWO_TO_THE_32: int := 0x1_0000_0000

  /** The contents of a buffer, an EEPROM cell or an address octet. */
  type Byte = bv8

  function Min(a: nat, b: nat): nat {
    if a <= b then a else b
  }

  datatype Option<+T> = None | Some(value: T)
}
