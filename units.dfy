/** Fixed-width integer types of the C sources, as ranges of `int`, and an option type
    standing for a pointer that may be NULL. */
module Units {

  /** SDL's `Uint16`. */
  type Uint16 = x: int | 0 <= x <= 0xFFFF

  /** SDL's `Sint16`. */
  type Sint16 = x: int | -0x8000 <= x <= 0x7FFF

  /** SDL's `Uint8`. */
  type Byte = x: int | 0 <= x <= 0xFF

  datatype Option<+T> = None | Some(value: T)
}
