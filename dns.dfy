/** The fixed 12-byte DNS message header (section 4.1.1 of RFC 1035, with the AD and CD bits of
    section 3.2 of RFC 4035) as the `DnsHdr` struct lays it out in memory, and its accessors. */
module Dns {
  import opened Endian
  import Bitfield

  const DnsHdrLen: nat := 12

  /** The two flag bytes, in wire order. */
  type FlagBytes = s: seq<bv8> | |s| == 2 witness [0, 0]

  /** The struct as read from the frame: every `u16` holds the raw in-memory value (the
      little-endian load of two big-endian wire bytes). The fields are assumed to lie in
      declaration order with no padding; the struct is not `#[repr(C)]`, so Rust does not
      promise that order. */
  datatype DnsHdr = DnsHdr(id: bv16, bitfield1: FlagBytes, qdcount: bv16, ancount: bv16,
                           nscount: bv16, arcount: bv16)
  {
    /** The header's memory image: the 12 bytes the struct occupies. */
    function Bytes(): (b: seq<bv8>)
      ensures |b| == DnsHdrLen
    {
      Store16(id) + bitfield1 + Store16(qdcount) + Store16(ancount) + Store16(nscount) + Store16(arcount)
    }

    function Id(): bv16 {
      FromBe16(id)
    }

    /** QR: bit 7 of flag byte 0. `as u16` truncates the `u64` that `get` returns. */
    function Qr(): (r: bv16)
      ensures r <= 1 && r == ((bitfield1[0] >> 7) & 1) as bv16
    {
      (Bitfield.Get(bitfield1, 7, 1) & 0xFFFF) as bv16
    }

    /** Opcode: bits 3 to 6 of flag byte 0. */
    function Opcode(): (r: bv16)
      ensures r < 16 && r == ((bitfield1[0] >> 3) & 0xF) as bv16
    {
      (Bitfield.Get(bitfield1, 3, 4) & 0xFFFF) as bv16
    }

    /** AA: bit 2 of flag byte 0. */
    function Aa(): (r: bv16)
      ensures r <= 1 && r == ((bitfield1[0] >> 2) & 1) as bv16
    {
      (Bitfield.Get(bitfield1, 2, 1) & 0xFFFF) as bv16
    }

    /** TC: bit 1 of flag byte 0. */
    function Tc(): (r: bv16)
      ensures r <= 1 && r == ((bitfield1[0] >> 1) & 1) as bv16
    {
      (Bitfield.Get(bitfield1, 1, 1) & 0xFFFF) as bv16
    }

    /** RD: bit 0 of flag byte 0. */
    function Rd(): (r: bv16)
      ensures r <= 1 && r == (bitfield1[0] & 1) as bv16
    {
      (Bitfield.Get(bitfield1, 0, 1) & 0xFFFF) as bv16
    }

    /** RA: bit 7 of flag byte 1 (unit bit 15). */
    function Ra(): (r: bv16)
      ensures r <= 1 && r == ((bitfield1[1] >> 7) & 1) as bv16
    {
      (Bitfield.Get(bitfield1, 15, 1) & 0xFFFF) as bv16
    }

    /** AD: bit 5 of flag byte 1 (unit bit 13). */
    function Ad(): (r: bv16)
      ensures r <= 1 && r == ((bitfield1[1] >> 5) & 1) as bv16
    {
      (Bitfield.Get(bitfield1, 13, 1) & 0xFFFF) as bv16
    }

    /** CD: bit 4 of flag byte 1 (unit bit 12). */
    function Cd(): (r: bv16)
      ensures r <= 1 && r == ((bitfield1[1] >> 4) & 1) as bv16
    {
      (Bitfield.Get(bitfield1, 12, 1) & 0xFFFF) as bv16
    }

    /** RCODE: the low four bits of flag byte 1 (unit bits 8 to 11). */
    function Rcode(): (r: bv16)
      ensures r < 16 && r == (bitfield1[1] & 0xF) as bv16
    {
      (Bitfield.Get(bitfield1, 8, 4) & 0xFFFF) as bv16
    }

    function Qdcount(): bv16 {
      FromBe16(qdcount)
    }

    function Ancount(): bv16 {
      FromBe16(ancount)
    }

    function Nscount(): bv16 {
      FromBe16(nscount)
    }

    function Arcount(): bv16 {
      FromBe16(arcount)
    }
  }

  /** The bitwise copy `core::ptr::read` makes when `own_at` returns a `DnsHdr`. */
  function FromBytes(b: seq<bv8>): (h: DnsHdr)
    requires |b| == DnsHdrLen
    ensures h.Bytes() == b
  {
    StoreLoad16(b[0..2]);
    StoreLoad16(b[4..6]);
    StoreLoad16(b[6..8]);
    StoreLoad16(b[8..10]);
    StoreLoad16(b[10..12]);
    assert b == b[0..2] + b[2..4] + b[4..6] + b[6..8] + b[8..10] + b[10..12];
    DnsHdr(Load16(b[0..2]), b[2..4], Load16(b[4..6]), Load16(b[6..8]), Load16(b[8..10]), Load16(b[10..12]))
  }

  /** Decoding the memory image of a header gives that header back. */
  lemma FromBytesBytes(h: DnsHdr)
    ensures FromBytes(h.Bytes()) == h
  {
    var b := h.Bytes();
    assert b[0..2] == Store16(h.id) && b[2..4] == h.bitfield1;
    assert b[4..6] == Store16(h.qdcount) && b[6..8] == Store16(h.ancount);
    assert b[8..10] == Store16(h.nscount) && b[10..12] == Store16(h.arcount);
  }

  /** `id()` and the four counts are the big-endian values of bytes 0-1, 4-5, 6-7, 8-9, 10-11. */
  lemma FieldsAreBigEndian(b: seq<bv8>)
    requires |b| == DnsHdrLen
    ensures FromBytes(b).Id() == BigEndian16(b[0..2])
    ensures FromBytes(b).Qdcount() == BigEndian16(b[4..6])
    ensures FromBytes(b).Ancount() == BigEndian16(b[6..8])
    ensures FromBytes(b).Nscount() == BigEndian16(b[8..10])
    ensures FromBytes(b).Arcount() == BigEndian16(b[10..12])
  {
    FromBeLoad16(b[0..2]);
    FromBeLoad16(b[4..6]);
    FromBeLoad16(b[6..8]);
    FromBeLoad16(b[8..10]);
    FromBeLoad16(b[10..12]);
  }

  /** The flags are read from header bytes 2 and 3. */
  lemma FlagBytesAt(b: seq<bv8>)
    requires |b| == DnsHdrLen
    ensures FromBytes(b).bitfield1 == [b[2], b[3]]
  {
  }

  /** The first flag byte is recovered exactly from QR, Opcode, AA, TC and RD. */
  lemma FlagByte0RoundTrip(h: DnsHdr)
    ensures h.bitfield1[0] as bv16 == h.Qr() * 128 + h.Opcode() * 8 + h.Aa() * 4 + h.Tc() * 2 + h.Rd()
  {
  }

  /** The second flag byte is recovered from RA, AD, CD and RCODE, except for the reserved Z bit
      (bit 6), which has no accessor. */
  lemma FlagByte1RoundTrip(h: DnsHdr)
    ensures h.bitfield1[1] as bv16 & 0xBF == h.Ra() * 128 + h.Ad() * 32 + h.Cd() * 16 + h.Rcode()
  {
  }

  /** A standard response with recursion: id 0x1234, flags 0x81 0x80, one question, one answer. */
  lemma StandardResponseExample()
    ensures var h := FromBytes([0x12, 0x34, 0x81, 0x80, 0x00, 0x01, 0x00, 0x01, 0x00, 0x00, 0x00, 0x00]);
      && h.Id() == 0x1234 && h.Qr() == 1 && h.Opcode() == 0 && h.Aa() == 0 && h.Tc() == 0
      && h.Rd() == 1 && h.Ra() == 1 && h.Ad() == 0 && h.Cd() == 0 && h.Rcode() == 0
      && h.Qdcount() == 1 && h.Ancount() == 1 && h.Nscount() == 0 && h.Arcount() == 0
  {
  }
}
