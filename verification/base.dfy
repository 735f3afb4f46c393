/** Failure-carrying wrappers used throughout the model. */
module Results {

  /** A value that may be absent. */
  datatype Option<+T> = None | Some(value: T)

  /** The outcome of an operation that may fail; `Err` carries the cause. */
  datatype Result<+T, +E> = Ok(value: T) | Err(error: E)
}

/** Fixed-width unsigned machine integers, modelled as bounded mathematical integers. */
module MachineInts {

  const ByteRange: int := 0x100
  const WordRange: int := 0x1_0000

  /** Rust `u8`. */
  type u8 = x: int | 0 <= x < 0x100

  /** Rust `u16`: a Modbus register value or register address. */
  type u16 = x: int | 0 <= x < 0x1_0000

  /** Rust `u32`: the bit pattern of an IEEE-754 single-precision float. */
  type u32 = x: int | 0 <= x < 0x1_0000_0000
}
