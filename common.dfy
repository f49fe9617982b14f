/** Shared vocabulary of the send-latency model: optional values, results
    and the C integer widths the benchmark works with. */
module Common {

  datatype Option<+T> = None | Some(value: T)

  datatype Result<+T, +E> = Ok(value: T) | Err(error: E)

  /** 2^8, 2^16, 2^24, 2^32 and 2^64: the moduli of unsigned char, the 16-bit
      LID, the 24-bit QPN/PSN space, 32-bit int/unsigned and cycles_t. */
  const U8: nat := 0x100
  const U16: nat := 0x1_0000
  const U24: nat := 0x100_0000
  const U32: nat := 0x1_0000_0000
  const U64: nat := 0x1_0000_0000_0000_0000

  /** LONG_MAX / LLONG_MAX of a 64-bit C library: where strtol saturates. */
  const LongMax: nat := 0x7FFF_FFFF_FFFF_FFFF

  /** ULLONG_MAX: where strtoull saturates. */
  const ULongLongMax: nat := 0xFFFF_FFFF_FFFF_FFFF

  /** The transport: reliable connected, unreliable connected, datagram. */
  datatype Conn = RC | UC | UD

  /** A cycles_t value (unsigned long long). */
  type Cycles = x: int | 0 <= x < U64

  /** The room a UD receive leaves in front of the message for the 40-byte
      Global Routing Header. */
  const GrhRoom: nat := 40

  /** The NUL character that terminates C strings. */
  const NUL: char := 0 as char

  lemma MulNonneg(a: int, b: int)
    requires a >= 0 && b >= 0
    ensures a * b >= 0
  {
  }

  /** Division with remainder has one answer. */
  lemma ModUnique(x: int, d: int, q: int, r: int)
    requires d > 0 && x == q * d + r && 0 <= r < d
    ensures x / d == q && x % d == r
  {
    var q', r' := x / d, x % d;
    assert x == q' * d + r';
    assert (q - q') * d == r' - r;
    if q > q' {
      MulNonneg(q - q' - 1, d);
      assert false;
    } else if q < q' {
      MulNonneg(q' - q - 1, d);
      assert false;
    }
  }
}
