/** Octets, fixed-width reads and the saturating arithmetic shared by the decoders. */
module Octets {
  type byte = b: int | 0 <= b < 256

  datatype Option<+T> = None | Some(value: T)

  datatype Result<+T, +E> = Ok(value: T) | Err(error: E)

  datatype Endian = BigEndian | LittleEndian

  const U32_MAX: nat := 0xFFFF_FFFF
  const U64_MAX: nat := 0xFFFF_FFFF_FFFF_FFFF

  /** A 16-bit field: `first` is the octet at the lower offset. */
  function Read16(e: Endian, first: byte, second: byte): nat {
    if e.BigEndian? then 256 * first + second else first + 256 * second
  }

  function Read32(e: Endian, a: byte, b: byte, c: byte, d: byte): nat {
    if e.BigEndian? then 65536 * Read16(e, a, b) + Read16(e, c, d)
    else Read16(e, a, b) + 65536 * Read16(e, c, d)
  }

  function Write16(e: Endian, n: nat): (bs: seq<byte>)
    requires n < 0x1_0000
    ensures |bs| == 2 && Read16(e, bs[0], bs[1]) == n
  {
    if e.BigEndian? then [n / 256, n % 256] else [n % 256, n / 256]
  }

  function Write32(e: Endian, n: nat): (bs: seq<byte>)
    requires n < 0x1_0000_0000
    ensures |bs| == 4 && Read32(e, bs[0], bs[1], bs[2], bs[3]) == n
  {
    if e.BigEndian? then Write16(e, n / 65536) + Write16(e, n % 65536)
    else Write16(e, n % 65536) + Write16(e, n / 65536)
  }

  /** Unsigned subtraction that stops at zero. */
  function SatSub(a: nat, b: nat): (d: nat)
    ensures a <= b ==> d == 0
    ensures a >= b ==> b + d == a
  {
    if a < b then 0 else a - b
  }

  /** 1 for a case that is counted, 0 for one that is not. */
  function Count(cond: bool): (n: nat)
    ensures n <= 1 && (n == 1 <==> cond)
  {
    if cond then 1 else 0
  }

  /** A 32-bit increment that stops at the largest value. */
  function SatInc32(n: nat): nat {
    if n < U32_MAX then n + 1 else n
  }
}
