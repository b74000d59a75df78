/** Machine words as ranges of integers, and the conversions between them that the program uses. */
module Words {

  datatype Option<+T> = None | Some(value: T)

  type byte = x: int | 0 <= x < 0x100
  type u16 = x: int | 0 <= x < 0x1_0000
  type u32 = x: int | 0 <= x < 0x1_0000_0000
  type int16 = x: int | -0x8000 <= x < 0x8000
  type int32 = x: int | -0x8000_0000 <= x < 0x8000_0000

  /** static_cast<uint16_t> of an int: the value modulo 2^16, also for negative ones. */
  function ToU16(x: int): u16 {
    x % 0x1_0000
  }

  /** static_cast<int16_t>: two's complement. */
  function ToI16(x: u16): int16 {
    if x < 0x8000 then x else x - 0x1_0000
  }

  /** static_cast<int32_t>: two's complement. */
  function ToI32(x: u32): int32 {
    if x < 0x8000_0000 then x else x - 0x1_0000_0000
  }

  function High(x: u16): byte { x / 0x100 }

  function Low(x: u16): byte { x % 0x100 }

  /** Two bytes in network order. */
  function Word(high: byte, low: byte): u16 { high * 0x100 + low }

  /** Two registers, most significant first. */
  function Long(high: u16, low: u16): u32 { high * 0x1_0000 + low }
}
