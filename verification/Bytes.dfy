// Bytes and small helpers shared by every module.
module Bytes {

  type byte = x: int | 0 <= x < 256

  const PACKET_SIZE := 188
  const SYNC_BYTE: byte := 0x47
  const PID_COUNT := 8192
  const NULL_PID := 0x1fff
  const U64 := 0x1_0000_0000_0000_0000

  /** One transport packet: the 188-byte buffers of the program. */
  type Raw = s: seq<byte> | |s| == PACKET_SIZE witness seq(PACKET_SIZE, _ => 0)

  datatype Option<+T> = None | Some(value: T)

  /** A byte as a number, outside the byte range's arithmetic. */
  function N(b: byte): (n: nat)
    ensures n == b
  {
    b
  }

  /** The bit of a number that counts for `weight`, a power of two: the `(x >> i) & 1` of the source. */
  predicate Bit(x: nat, weight: nat)
    requires weight > 0
  {
    x / weight % 2 == 1
  }

  /** A sequence with the bytes from `at` on replaced by `bytes`, as `memcpy(s + at, bytes, n)` leaves it. */
  function Splice(s: seq<byte>, at: nat, bytes: seq<byte>): (r: seq<byte>)
    requires at + |bytes| <= |s|
    ensures |r| == |s|
    ensures forall i :: 0 <= i < |s| ==> r[i] == if at <= i < at + |bytes| then bytes[i - at] else s[i]
  {
    s[..at] + bytes + s[at + |bytes|..]
  }
}
