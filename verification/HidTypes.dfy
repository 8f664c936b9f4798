/** The records the parser, the decoder and the central exchange. */
module HidTypes {
  import opened Bits

  const MAX_BUTTONS := 16
  const MAX_KEYS := 16

  /** Where one logical field sits in a payload; bitSize 0 means it is absent. */
  datatype Field = Field(bitOffset: uint16, bitSize: byte, isSigned: bool) {
    /** First bit past a field of `n` entries of this width. */
    function End(n: nat := 1): nat { bitOffset + n * bitSize }
  }

  const ABSENT := Field(0, 0, false)

  datatype PointerLayout = PointerLayout(
    reportId: byte,
    x: Field, y: Field, wheel: Field, hwheel: Field,
    buttons: Field, buttonCount: byte,
    valid: bool)

  const NO_LAYOUT := PointerLayout(0, ABSENT, ABSENT, ABSENT, ABSENT, ABSENT, 0, false)

  datatype KeyboardLayout = KeyboardLayout(
    reportId: byte, modifiers: Field, keys: Field, keyCount: byte, valid: bool)

  const NO_KBD_LAYOUT := KeyboardLayout(0, ABSENT, ABSENT, 0, false)

  datatype PointerReport = PointerReport(dx: int32, dy: int32, wheel: int32, hwheel: int32, buttons: uint32)

  /** `keys` is the used part of the C array, keys[0..key_count). */
  datatype KeyboardReport = KeyboardReport(modifiers: byte, keys: seq<byte>)
}
