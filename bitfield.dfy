/** `BitfieldUnit<[u8; N]>` from the network-types crate, as bindgen generates it, on a
    little-endian target: bit `index` of the unit is bit `index % 8` (counting from the least
    significant) of byte `index / 8`, and `get(offset, width)` assembles bits
    `offset .. offset + width` into a `u64`, the first of them as its least significant bit. */
module Bitfield {

  /** `get_bit(index)`: the mask `1 << (index % 8)` tested against byte `index / 8`. */
  predicate GetBit(storage: seq<bv8>, index: nat)
    requires index / 8 < |storage|
  {
    var mask := (1 as bv8) << (index % 8);
    storage[index / 8] & mask == mask
  }

  /** `get(bitOffset, bitWidth)`: bit `i` of the result is storage bit `bitOffset + i`. The source
      loops over `i` and ORs in `1 << i`; peeling off bit 0 and shifting the rest up is the
      same sum. The requires are the source's debug assertions. */
  function Get(storage: seq<bv8>, bitOffset: nat, bitWidth: nat): (r: bv64)
    requires bitWidth <= 64 && bitOffset + bitWidth <= 8 * |storage|
    decreases bitWidth
  {
    if bitWidth == 0 then 0
    else (if GetBit(storage, bitOffset) then 1 else 0) | (Get(storage, bitOffset + 1, bitWidth - 1) << 1)
  }
}
