/** The bounds-checked accessors of ebpf/src/helper.rs and the two diagnostic readers built on
    them. A context is the address of the frame's first byte (`data()`) and the frame's bytes;
    `data_end()` is their end. A view is the address where it starts. */
module Helper {
  import opened Wrappers
  import opened Endian
  import opened Headers
  import Dns

  datatype XdpContext = XdpContext(data: nat, bytes: seq<bv8>) {
    function DataEnd(): nat {
      data + |bytes|
    }
  }

  /** `ptr_at::<T>(ctx, offset)` for a `T` of `size` bytes. */
  function PtrAt(ctx: XdpContext, offset: nat, size: nat): (r: Result<nat>)
    ensures r.Ok? <==> offset + size <= |ctx.bytes|
    ensures r.Ok? ==> r.value == ctx.data + offset
    ensures r.Ok? ==> ctx.data <= r.value && r.value + size <= ctx.DataEnd()
  {
    var start, end := ctx.data, ctx.DataEnd();
    if start + offset + size > end then Err else Ok(start + offset)
  }

  /** `ptr_at_mut`: the same check and the same address, as a mutable view. */
  function PtrAtMut(ctx: XdpContext, offset: nat, size: nat): (r: Result<nat>)
    ensures r == PtrAt(ctx, offset, size)
    ensures r.Ok? <==> offset + size <= |ctx.bytes|
    ensures r.Ok? ==> r.value == ctx.data + offset
  {
    var ptr :- PtrAt(ctx, offset, size);
    Ok(ptr)
  }

  /** `own_at`: a copy of the `size` bytes at `offset`, taken only when `ptr_at` admits them. */
  function OwnAt(ctx: XdpContext, offset: nat, size: nat): (r: Result<seq<bv8>>)
    ensures r.Ok? <==> PtrAt(ctx, offset, size).Ok?
    ensures r.Ok? ==> offset + size <= |ctx.bytes| && r.value == ctx.bytes[offset..offset + size]
  {
    var ptr :- PtrAt(ctx, offset, size);
    Ok(ctx.bytes[ptr - ctx.data..ptr - ctx.data + size])
  }

  /** What `own_at` returns depends only on the bytes it covers, so two reads of a frame that
      agrees on them (in particular, two reads of an unchanged frame) give the same value. */
  lemma OwnAtDependsOnlyOnWindow(ctx: XdpContext, other: XdpContext, offset: nat, size: nat)
    requires |ctx.bytes| == |other.bytes|
    requires offset + size <= |ctx.bytes| ==> ctx.bytes[offset..offset + size] == other.bytes[offset..offset + size]
    ensures OwnAt(ctx, offset, size) == OwnAt(other, offset, size)
  {
  }

  /** The struct behind a view: `unsafe { *view }`. */
  function ReadEthHdr(ctx: XdpContext, view: nat): EthHdr
    requires ctx.data <= view && view + EthHdrLen <= ctx.DataEnd()
  {
    var at := view - ctx.data;
    EthHdrFromBytes(ctx.bytes[at..at + EthHdrLen])
  }

  function ReadIpv4Hdr(ctx: XdpContext, view: nat): Ipv4Hdr
    requires ctx.data <= view && view + Ipv4HdrLen <= ctx.DataEnd()
  {
    var at := view - ctx.data;
    Ipv4HdrFromBytes(ctx.bytes[at..at + Ipv4HdrLen])
  }

  function ReadUdpHdr(ctx: XdpContext, view: nat): UdpHdr
    requires ctx.data <= view && view + UdpHdrLen <= ctx.DataEnd()
  {
    var at := view - ctx.data;
    UdpHdrFromBytes(ctx.bytes[at..at + UdpHdrLen])
  }

  /** `print_dns`: copies the DNS header that follows the UDP header and would log its fields.
      Only the read and its bounds check are modelled. */
  function PrintDns(ctx: XdpContext): (r: Result<()>)
    ensures r.Err? <==> |ctx.bytes| < UdpHdrLen + EthHdrLen + Ipv4HdrLen + Dns.DnsHdrLen
  {
    var bytes :- OwnAt(ctx, UdpHdrLen + EthHdrLen + Ipv4HdrLen, Dns.DnsHdrLen);
    var dnshdr := Dns.FromBytes(bytes);
    Ok(())
  }

  /** The addresses and ports a frame's headers carry, in host order. */
  datatype Endpoints = Endpoints(ethSrc: seq<bv8>, ethDst: seq<bv8>, ipSrc: bv32, ipDst: bv32,
                                 udpSrcPort: bv16, udpDstPort: bv16)

  /** The locals that `print_pkt` and `try_xdp_firewall` fill from the three header views:
      both MACs copied, addresses and ports converted with `from_be`. */
  function ReadEndpoints(ctx: XdpContext): (e: Endpoints)
    requires |ctx.bytes| >= EthHdrLen + Ipv4HdrLen + UdpHdrLen
    ensures e.ethDst == ctx.bytes[0..6] && e.ethSrc == ctx.bytes[6..12]
    ensures e.ipSrc == BigEndian32(ctx.bytes[26..30]) && e.ipDst == BigEndian32(ctx.bytes[30..34])
    ensures e.udpSrcPort == BigEndian16(ctx.bytes[34..36]) && e.udpDstPort == BigEndian16(ctx.bytes[36..38])
  {
    var eth := ReadEthHdr(ctx, ctx.data);
    var ip := ReadIpv4Hdr(ctx, ctx.data + EthHdrLen);
    var udp := ReadUdpHdr(ctx, ctx.data + EthHdrLen + Ipv4HdrLen);
    assert ctx.bytes[14..34][12..16] == ctx.bytes[26..30] && ctx.bytes[14..34][16..20] == ctx.bytes[30..34];
    assert ctx.bytes[34..42][0..2] == ctx.bytes[34..36] && ctx.bytes[34..42][2..4] == ctx.bytes[36..38];
    Endpoints(eth.srcAddr, eth.dstAddr, FromBe32(ip.srcAddr), FromBe32(ip.dstAddr),
              FromBe16(udp.source), FromBe16(udp.dest))
  }

  /** `print_pkt`: takes the three header views and would log the addresses and ports.
      Only the views and their bounds checks are modelled. */
  function PrintPkt(ctx: XdpContext): (r: Result<()>)
    ensures r.Err? <==> |ctx.bytes| < EthHdrLen + Ipv4HdrLen + UdpHdrLen
  {
    var ethhdr :- PtrAtMut(ctx, 0, EthHdrLen);
    var ipv4hdr :- PtrAtMut(ctx, EthHdrLen, Ipv4HdrLen);
    var udphdr :- PtrAtMut(ctx, EthHdrLen + Ipv4HdrLen, UdpHdrLen);
    var endpoints := ReadEndpoints(ctx);
    Ok(())
  }
}
