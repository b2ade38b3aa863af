/** The fixed layouts of the Ethernet, IPv4 and UDP headers the pipeline reads (the
    network-types crate's `EthHdr`, `Ipv4Hdr` and `UdpHdr`), reduced to the fields it uses.
    Multi-byte fields hold raw in-memory values, as the structs do; IPv4 is taken to be the
    20-byte header without options. */
module Headers {
  import opened Endian

  const EthHdrLen: nat := 14
  const Ipv4HdrLen: nat := 20
  const UdpHdrLen: nat := 8

  // Field offsets within each header.
  const EthDstAddrOffset: nat := 0
  const EthSrcAddrOffset: nat := 6
  const EthTypeOffset: nat := 12
  const Ipv4ProtoOffset: nat := 9
  const Ipv4SrcAddrOffset: nat := 12
  const Ipv4DstAddrOffset: nat := 16
  const UdpSourceOffset: nat := 0
  const UdpDestOffset: nat := 2

  /** The IPv4 ethertype (host order) and `EtherType::Ipv4`, its raw representation `0x0800.to_be()`. */
  const EtherTypeIpv4: bv16 := 0x0800
  const EtherTypeIpv4Repr: bv16 := ToBe16(EtherTypeIpv4)

  /** `IpProto::Udp` (section 3.1 of RFC 791, protocol number 17). */
  const IpProtoUdp: bv8 := 17

  datatype EthHdr = EthHdr(dstAddr: seq<bv8>, srcAddr: seq<bv8>, etherType: bv16)

  datatype Ipv4Hdr = Ipv4Hdr(proto: bv8, srcAddr: bv32, dstAddr: bv32)

  datatype UdpHdr = UdpHdr(source: bv16, dest: bv16)

  /** The struct copy `*ethhdr` of the 14 bytes `b`. */
  function EthHdrFromBytes(b: seq<bv8>): (h: EthHdr)
    requires |b| == EthHdrLen
    ensures h.dstAddr == b[0..6] && h.srcAddr == b[6..12]
    ensures FromBe16(h.etherType) == BigEndian16(b[12..14])
    ensures h.etherType == EtherTypeIpv4Repr <==> b[12] == 0x08 && b[13] == 0x00
  {
    FromBeLoad16(b[12..14]);
    EthHdr(b[EthDstAddrOffset..EthDstAddrOffset + 6], b[EthSrcAddrOffset..EthSrcAddrOffset + 6],
           Load16(b[EthTypeOffset..EthTypeOffset + 2]))
  }

  /** The fields of `*ipv4hdr` that the pipeline reads, from the 20 bytes `b`. */
  function Ipv4HdrFromBytes(b: seq<bv8>): (h: Ipv4Hdr)
    requires |b| == Ipv4HdrLen
    ensures h.proto == b[9]
    ensures FromBe32(h.srcAddr) == BigEndian32(b[12..16])
    ensures FromBe32(h.dstAddr) == BigEndian32(b[16..20])
  {
    FromBeLoad32(b[12..16]);
    FromBeLoad32(b[16..20]);
    Ipv4Hdr(b[Ipv4ProtoOffset], Load32(b[Ipv4SrcAddrOffset..Ipv4SrcAddrOffset + 4]),
            Load32(b[Ipv4DstAddrOffset..Ipv4DstAddrOffset + 4]))
  }

  /** The port fields of `*udphdr`, from the 8 bytes `b`. */
  function UdpHdrFromBytes(b: seq<bv8>): (h: UdpHdr)
    requires |b| == UdpHdrLen
    ensures FromBe16(h.source) == BigEndian16(b[0..2])
    ensures FromBe16(h.dest) == BigEndian16(b[2..4])
  {
    FromBeLoad16(b[0..2]);
    FromBeLoad16(b[2..4]);
    UdpHdr(Load16(b[UdpSourceOffset..UdpSourceOffset + 2]), Load16(b[UdpDestOffset..UdpDestOffset + 2]))
  }
}
