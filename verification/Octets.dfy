/** Machine integers as bounded integers, and the big-endian fields of the wire format. */
module Octets {

  type u8 = x: int | 0 <= x < 0x100
  type u32 = x: int | 0 <= x < 0x1_0000_0000
  type Bytes = seq<u8>

  datatype Option<+T> = None | Some(value: T)

  /** The library's error enum, without the message strings. */
  datatype Error = Io | Protocol | Compression | UnknownFrameType(code: nat) | StreamClosed | ConnectionClosed

  datatype Result<+T> = Ok(value: T) | Err(error: Error)

  /** `n as u32` for an unsigned n: the high bits are dropped. */
  function AsU32(n: nat): u32 {
    n % 0x1_0000_0000
  }

  /** `n & 0x7fff_ffff` */
  function Low31(n: u32): u32 {
    n % 0x8000_0000
  }

  /** `n & 0x00ff_ffff` */
  function Low24(n: u32): u32 {
    n % 0x100_0000
  }

  /** `to_be_bytes` */
  function ToBytes(n: u32): (b: Bytes)
    ensures |b| == 4
  {
    var n1 := n / 0x100;
    var n2 := n1 / 0x100;
    [n2 / 0x100, n2 % 0x100, n1 % 0x100, n % 0x100]
  }

  /** `from_be_bytes` of the first four bytes */
  function FromBytes(b: Bytes): u32
    requires |b| >= 4
  {
    (b[0] as int) * 0x100_0000 + (b[1] as int) * 0x1_0000 + (b[2] as int) * 0x100 + b[3]
  }

  lemma FromToBytes(n: u32, tail: Bytes)
    ensures FromBytes(ToBytes(n) + tail) == n
  {
    var n1 := n / 0x100;
    var n2 := n1 / 0x100;
    assert n == n1 * 0x100 + n % 0x100 && n1 == n2 * 0x100 + n1 % 0x100 && n2 == (n2 / 0x100) * 0x100 + n2 % 0x100;
  }

  lemma ConcatAssoc<T>(a: seq<T>, b: seq<T>, c: seq<T>)
    ensures a + b + c == a + (b + c)
  {
  }
}
