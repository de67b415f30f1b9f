/** Shared vocabulary of the driver model: status codes, fixed-width
    integer ranges, and the C arithmetic the driver relies on. */
module Common {

  /** Unsigned fixed-width ranges, as the C types of the driver. */
  type Byte = x: int | 0 <= x < 0x100
  type U16 = x: int | 0 <= x < 0x1_0000
  type U32 = x: int | 0 <= x < 0x1_0000_0000

  /** A nullable result, for optional inputs and outputs. */
  datatype Option<T> = None | Some(value: T)

  /** The NTSTATUS values the driver produces itself, and the ones it
      passes on unchanged from a driver-model callback (`Foreign`, by its
      32-bit code). */
  datatype Status =
    | Success
    | Unsuccessful
    | InvalidParameter
    | NoMemory
    | DeviceConfigurationError
    | GraphicsDriverMismatch
    | Foreign(code: U32)

  /** NT_SUCCESS: the status, read as a signed 32-bit value, is not negative.
      Every status the driver produces itself other than Success is an error. */
  predicate NtSuccess(s: Status) {
    match s
    case Success => true
    case Foreign(code) => code < 0x8000_0000
    case _ => false
  }

  /** Unsigned 32-bit wrap-around (C `UINT`/`ULONG` arithmetic). */
  function Wrap32(x: int): (r: U32)
    ensures 0 <= x < 0x1_0000_0000 ==> r == x
  {
    x % 0x1_0000_0000
  }

  /** Truncation to 16 bits (a C cast to `USHORT`). */
  function Wrap16(x: int): (r: U16)
    ensures 0 <= x < 0x1_0000 ==> r == x
  {
    x % 0x1_0000
  }

  /** Truncation to 8 bits (a C cast to `BYTE`). */
  function Wrap8(x: int): (r: Byte)
    ensures 0 <= x < 0x100 ==> r == x
  {
    x % 0x100
  }

  /** A C cast of a 32-bit unsigned value to `int` (two's complement). */
  function ToInt32(x: U32): (r: int)
    ensures -0x8000_0000 <= r < 0x8000_0000
    ensures r >= 0 <==> x < 0x8000_0000
    ensures Wrap32(r) == x
  {
    if x < 0x8000_0000 then x else x - 0x1_0000_0000
  }

  /** C integer division, which truncates toward zero (Dafny's `/` is Euclidean). */
  function CDiv(a: int, b: int): int
    requires b > 0
  {
    if a >= 0 then a / b else -((-a) / b)
  }

  function Max(a: int, b: int): (m: int)
    ensures m >= a && m >= b && (m == a || m == b)
  {
    if a >= b then a else b
  }
}
