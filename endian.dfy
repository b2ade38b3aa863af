/** How multi-byte integers sit in memory on the program's target, bpfel-unknown-none, which is
    little-endian: a `u16`/`u32` field read through a pointer is a little-endian load, and
    `u16::from_be`/`u32::from_be` (and `to_be`) reverse the byte order. `BigEndian16/32` give the
    value that network byte order denotes; they are the reference the conversions are proved against. */
module Endian {

  /** Value of two bytes in network (big-endian) order. */
  function BigEndian16(b: seq<bv8>): bv16
    requires |b| == 2
  {
    (b[0] as bv16) * 256 + b[1] as bv16
  }

  /** Value of four bytes in network (big-endian) order. */
  function BigEndian32(b: seq<bv8>): bv32
    requires |b| == 4
  {
    (b[0] as bv32) * 0x100_0000 + (b[1] as bv32) * 0x1_0000 + (b[2] as bv32) * 0x100 + b[3] as bv32
  }

  /** A `u16` load on a little-endian target. */
  function Load16(b: seq<bv8>): bv16
    requires |b| == 2
  {
    (b[1] as bv16 << 8) | b[0] as bv16
  }

  /** A `u16` store on a little-endian target. */
  function Store16(x: bv16): (b: seq<bv8>)
    ensures |b| == 2 && Load16(b) == x
  {
    [(x & 0xFF) as bv8, (x >> 8) as bv8]
  }

  /** A `u32` load on a little-endian target. */
  function Load32(b: seq<bv8>): bv32
    requires |b| == 4
  {
    (b[3] as bv32 << 24) | (b[2] as bv32 << 16) | (b[1] as bv32 << 8) | b[0] as bv32
  }

  /** A `u32` store on a little-endian target. */
  function Store32(x: bv32): (b: seq<bv8>)
    ensures |b| == 4 && Load32(b) == x
  {
    [(x & 0xFF) as bv8, ((x >> 8) & 0xFF) as bv8, ((x >> 16) & 0xFF) as bv8, (x >> 24) as bv8]
  }

  /** `u16::from_be` on a little-endian target reverses the two bytes. */
  function FromBe16(x: bv16): bv16 {
    (x << 8) | (x >> 8)
  }

  /** `u16::to_be` on a little-endian target: the same byte reversal. */
  function ToBe16(x: bv16): (r: bv16)
    ensures FromBe16(r) == x
  {
    (x << 8) | (x >> 8)
  }

  /** `u32::from_be` on a little-endian target reverses the four bytes. */
  function FromBe32(x: bv32): bv32 {
    (x << 24) | ((x << 8) & 0xFF_0000) | ((x >> 8) & 0xFF00) | (x >> 24)
  }

  /** `u32::to_be` on a little-endian target: the same byte reversal. */
  function ToBe32(x: bv32): (r: bv32)
    ensures FromBe32(r) == x
  {
    (x << 24) | ((x << 8) & 0xFF_0000) | ((x >> 8) & 0xFF00) | (x >> 24)
  }

  /** A store followed by a load of the same width gives back the bytes unchanged. */
  lemma StoreLoad16(b: seq<bv8>)
    requires |b| == 2
    ensures Store16(Load16(b)) == b
  {
  }

  /** Loading a big-endian field and converting it with `from_be` yields the network-order value. */
  lemma FromBeLoad16(b: seq<bv8>)
    requires |b| == 2
    ensures FromBe16(Load16(b)) == BigEndian16(b)
  {
  }

  lemma FromBeLoad32(b: seq<bv8>)
    requires |b| == 4
    ensures FromBe32(Load32(b)) == BigEndian32(b)
  {
  }

  /** Writing a host-order value back with `to_be` restores the network-order bytes it was
      read from: the fact the in-place swap of addresses and ports relies on. */
  lemma ToBeStore16(b: seq<bv8>)
    requires |b| == 2
    ensures Store16(ToBe16(BigEndian16(b))) == b
  {
  }

  lemma ToBeStore32(b: seq<bv8>)
    requires |b| == 4
    ensures Store32(ToBe32(BigEndian32(b))) == b
  {
  }
}
