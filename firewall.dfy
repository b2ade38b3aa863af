/** The XDP program of ebpf/src/main.rs: the two block-list lookups, the decision chain of
    `try_xdp_firewall`, its in-place reflection of DNS frames, and the action mapping of
    `xdp_firewall`. */
module Firewall {
  import opened Wrappers
  import opened Endian
  import opened Headers
  import opened Helper
  import Dns

  // XDP action codes (linux/bpf.h).
  const XdpAborted: bv32 := 0
  const XdpDrop: bv32 := 1
  const XdpPass: bv32 := 2
  const XdpTx: bv32 := 3
  const XdpRedirect: bv32 := 4

  const DnsPort: bv16 := 53

  /** The frame must hold at least the three header views before the swap is done. */
  const HeadersLen: nat := EthHdrLen + Ipv4HdrLen + UdpHdrLen

  /** The two `HashMap`s `BLOCKLIST: u32 -> u32` and `BLOCKLIST_PORT: u16 -> bool`, as the
      pipeline sees them: read-only. */
  datatype BlockLists = BlockLists(blocklist: map<bv32, bv32>, blocklistPort: map<bv16, bool>)

  /** `HashMap::get`. */
  function MapGet<K, V>(m: map<K, V>, key: K): (r: Option<V>)
    ensures r.Some? <==> key in m
    ensures r.Some? ==> r.value == m[key]
  {
    if key in m then Some(m[key]) else None
  }

  /** `block_ip`: whether the address is a key of BLOCKLIST. */
  function BlockIp(lists: BlockLists, address: bv32): (r: bool)
    ensures r <==> address in lists.blocklist
  {
    MapGet(lists.blocklist, address).Some?
  }

  /** `block_port`: whether the port is a key of BLOCKLIST_PORT. */
  function BlockPort(lists: BlockLists, port: bv16): (r: bool)
    ensures r <==> port in lists.blocklistPort
  {
    MapGet(lists.blocklistPort, port).Some?
  }

  /** The loader's start-up population: 1.1.1.1 in BLOCKLIST, port 53 in BLOCKLIST_PORT. Only
      the inserted keys are blocked. */
  lemma LoaderEntriesBlocked()
    ensures var lists := BlockLists(map[0x0101_0101 := 0], map[53 := false]);
      && BlockIp(lists, 0x0101_0101) && !BlockIp(lists, 0x0101_0102)
      && BlockPort(lists, 53) && !BlockPort(lists, 54)
  {
  }

  /** An empty block list blocks nothing. */
  lemma EmptyBlockListsBlockNothing(address: bv32, port: bv16)
    ensures !BlockIp(BlockLists(map[], map[]), address) && !BlockPort(BlockLists(map[], map[]), port)
  {
  }

  /** The match of `xdp_firewall`: an error becomes XDP_ABORTED, an action is passed through. */
  function XdpFirewallAction(r: Result<bv32>): (action: bv32)
    ensures r.Err? ==> action == XdpAborted
    ensures r.Ok? ==> action == r.value
  {
    match r
    case Ok(ret) => ret
    case Err => XdpAborted
  }

  /** Position `i` of a reflected frame holds the byte that was at `Mirror(i)`: the two MAC
      addresses (0-5, 6-11), the two IPv4 addresses (26-29, 30-33) and the two UDP ports
      (34-35, 36-37) trade places. */
  function Mirror(i: nat): (j: nat)
    ensures i < 38 <==> j < 38
    ensures i >= 38 ==> j == i
  {
    if i < 6 then i + 6
    else if i < 12 then i - 6
    else if 26 <= i < 30 then i + 4
    else if 30 <= i < 34 then i - 4
    else if 34 <= i < 36 then i + 2
    else if 36 <= i < 38 then i - 2
    else i
  }

  /** Mirroring twice is the identity, so `Mirror` is a bijection that exchanges the fields. */
  lemma MirrorInvolution(i: nat)
    ensures Mirror(Mirror(i)) == i
  {
  }

  /** The frame after the swap of `try_xdp_firewall`. */
  function Reflect(bytes: seq<bv8>): (r: seq<bv8>)
    requires |bytes| >= HeadersLen
    ensures |r| == |bytes|
  {
    seq(|bytes|, i requires 0 <= i < |bytes| => bytes[Mirror(i)])
  }

  /** A byte that belongs to none of the six swapped fields. */
  predicate Untouched(i: nat) {
    12 <= i < 26 || 38 <= i
  }

  /** Reflection exchanges the six fields pairwise and keeps every other byte: no length
      change and no checksum update. */
  lemma ReflectSwapsFields(bytes: seq<bv8>)
    requires |bytes| >= HeadersLen
    ensures var r := Reflect(bytes);
      && r[0..6] == bytes[6..12] && r[6..12] == bytes[0..6]
      && r[26..30] == bytes[30..34] && r[30..34] == bytes[26..30]
      && r[34..36] == bytes[36..38] && r[36..38] == bytes[34..36]
      && forall i :: 0 <= i < |bytes| && Untouched(i) ==> r[i] == bytes[i]
  {
  }

  /** The swap is its own inverse. */
  lemma ReflectInvolution(bytes: seq<bv8>)
    requires |bytes| >= HeadersLen
    ensures Reflect(Reflect(bytes)) == bytes
  {
  }

  /** The decision of `try_xdp_firewall`: the guard chain, with every `?` an early `Err`. The
      second `print_pkt` sees the reflected frame. */
  function Classify(ctx: XdpContext): Result<bv32> {
    var ethhdr :- PtrAtMut(ctx, 0, EthHdrLen);
    if ReadEthHdr(ctx, ethhdr).etherType != EtherTypeIpv4Repr then Ok(XdpPass) else
    var ipv4hdr :- PtrAtMut(ctx, EthHdrLen, Ipv4HdrLen);
    if ReadIpv4Hdr(ctx, ipv4hdr).proto != IpProtoUdp then Ok(XdpPass) else
    var udphdr :- PtrAtMut(ctx, EthHdrLen + Ipv4HdrLen, UdpHdrLen);
    if FromBe16(ReadUdpHdr(ctx, udphdr).dest) != DnsPort then Ok(XdpPass) else
    var dnsLogged :- PrintDns(ctx);
    if PrintPkt(ctx).Err? then Err
    else if PrintPkt(XdpContext(ctx.data, Reflect(ctx.bytes))).Err? then Err
    else Ok(XdpTx)
  }

  /** The action `xdp_firewall` returns for a frame. */
  function Verdict(ctx: XdpContext): bv32 {
    XdpFirewallAction(Classify(ctx))
  }

  /** The IPv4 ethertype test, on the wire: bytes 12-13 are 0x08 0x00. */
  predicate IsIpv4(bytes: seq<bv8>)
    requires |bytes| >= EthHdrLen
  {
    BigEndian16(bytes[12..14]) == EtherTypeIpv4
  }

  predicate IsUdp(bytes: seq<bv8>)
    requires |bytes| >= EthHdrLen + Ipv4HdrLen
  {
    bytes[EthHdrLen + Ipv4ProtoOffset] == IpProtoUdp
  }

  predicate IsToDnsPort(bytes: seq<bv8>)
    requires |bytes| >= HeadersLen
  {
    BigEndian16(bytes[36..38]) == DnsPort
  }

  /** Every frame gets exactly one of ABORTED, PASS and TX. */
  lemma VerdictIsAbortedPassOrTx(ctx: XdpContext)
    ensures Classify(ctx) in {Err, Ok(XdpPass), Ok(XdpTx)}
    ensures Verdict(ctx) in {XdpAborted, XdpPass, XdpTx}
    ensures Verdict(ctx) != XdpDrop && Verdict(ctx) != XdpRedirect
  {
  }

  lemma ShortFrameAborted(ctx: XdpContext)
    requires |ctx.bytes| < EthHdrLen
    ensures Verdict(ctx) == XdpAborted
  {
  }

  lemma NonIpv4Passes(ctx: XdpContext)
    requires |ctx.bytes| >= EthHdrLen && !IsIpv4(ctx.bytes)
    ensures Verdict(ctx) == XdpPass
  {
  }

  lemma TruncatedIpv4Aborted(ctx: XdpContext)
    requires EthHdrLen <= |ctx.bytes| < EthHdrLen + Ipv4HdrLen && IsIpv4(ctx.bytes)
    ensures Verdict(ctx) == XdpAborted
  {
  }

  lemma NonUdpPasses(ctx: XdpContext)
    requires |ctx.bytes| >= EthHdrLen + Ipv4HdrLen && IsIpv4(ctx.bytes) && !IsUdp(ctx.bytes)
    ensures Verdict(ctx) == XdpPass
  {
  }

  lemma TruncatedUdpAborted(ctx: XdpContext)
    requires EthHdrLen + Ipv4HdrLen <= |ctx.bytes| < HeadersLen && IsIpv4(ctx.bytes) && IsUdp(ctx.bytes)
    ensures Verdict(ctx) == XdpAborted
  {
  }

  lemma NonDnsPortPasses(ctx: XdpContext)
    requires |ctx.bytes| >= HeadersLen && IsIpv4(ctx.bytes) && IsUdp(ctx.bytes) && !IsToDnsPort(ctx.bytes)
    ensures Verdict(ctx) == XdpPass
  {
    assert ctx.bytes[EthHdrLen + Ipv4HdrLen..HeadersLen][2..4] == ctx.bytes[36..38];
  }

  /** A UDP/53 frame too short for the DNS header is aborted: TX needs 54 bytes, not 42. */
  lemma TruncatedDnsAborted(ctx: XdpContext)
    requires HeadersLen <= |ctx.bytes| < HeadersLen + Dns.DnsHdrLen
    requires IsIpv4(ctx.bytes) && IsUdp(ctx.bytes) && IsToDnsPort(ctx.bytes)
    ensures Verdict(ctx) == XdpAborted
  {
    assert ctx.bytes[EthHdrLen + Ipv4HdrLen..HeadersLen][2..4] == ctx.bytes[36..38];
  }

  /** Every IPv4/UDP frame to port 53 with a full DNS header is reflected. */
  lemma DnsFrameReflected(ctx: XdpContext)
    requires |ctx.bytes| >= HeadersLen + Dns.DnsHdrLen
    requires IsIpv4(ctx.bytes) && IsUdp(ctx.bytes) && IsToDnsPort(ctx.bytes)
    ensures Verdict(ctx) == XdpTx
  {
    assert ctx.bytes[EthHdrLen + Ipv4HdrLen..HeadersLen][2..4] == ctx.bytes[36..38];
  }

  /** A TX verdict happens only for such frames. */
  lemma TxOnlyForDnsFrames(ctx: XdpContext)
    requires Verdict(ctx) == XdpTx
    ensures |ctx.bytes| >= HeadersLen + Dns.DnsHdrLen
    ensures IsIpv4(ctx.bytes) && IsUdp(ctx.bytes) && IsToDnsPort(ctx.bytes)
  {
    assert ctx.bytes[EthHdrLen + Ipv4HdrLen..HeadersLen][2..4] == ctx.bytes[36..38];
  }

  /** The splice a store of `bytes` at index `at` makes in a frame. */
  function Overwrite(frame: seq<bv8>, at: nat, bytes: seq<bv8>): (r: seq<bv8>)
    requires at + |bytes| <= |frame|
    ensures |r| == |frame|
  {
    seq(|frame|, i requires 0 <= i < |frame| => if at <= i < at + |bytes| then bytes[i - at] else frame[i])
  }

  /** A `copy_from_slice` into, or a field store through, a mutable view. */
  method Store(frame: array<bv8>, at: nat, bytes: seq<bv8>)
    requires at + |bytes| <= frame.Length
    modifies frame
    ensures frame[..] == Overwrite(old(frame[..]), at, bytes)
  {
    forall i | 0 <= i < |bytes| {
      frame[at + i] := bytes[i];
    }
  }

  /** The swap of lines 72-88 of `try_xdp_firewall`: copy the six fields into locals (addresses
      and ports in host order), then store them back crosswise through the three views that
      `ptr_at_mut` admitted, converting back with `to_be`. */
  method SwapAddresses(frame: array<bv8>, data: nat, ethhdr: nat, ipv4hdr: nat, udphdr: nat)
    requires PtrAtMut(XdpContext(data, frame[..]), 0, EthHdrLen) == Ok(ethhdr)
    requires PtrAtMut(XdpContext(data, frame[..]), EthHdrLen, Ipv4HdrLen) == Ok(ipv4hdr)
    requires PtrAtMut(XdpContext(data, frame[..]), EthHdrLen + Ipv4HdrLen, UdpHdrLen) == Ok(udphdr)
    modifies frame
    ensures frame.Length >= HeadersLen && frame[..] == Reflect(old(frame[..]))
  {
    var ctx := XdpContext(data, frame[..]);
    var e := ReadEndpoints(ctx);
    StoreEthSwap(frame, ethhdr - data, e);
    StoreIpv4Swap(frame, ipv4hdr - data, e);
    StoreUdpSwap(frame, udphdr - data, e);
    SwapStoresReflect(ctx);
  }

  /** Lines 82-83: the Ethernet view at frame index `eth` gets the two MACs crosswise. */
  method StoreEthSwap(frame: array<bv8>, eth: nat, e: Endpoints)
    requires eth + EthHdrLen <= frame.Length && |e.ethSrc| == 6 && |e.ethDst| == 6
    modifies frame
    ensures frame[..] == EthSwapStores(old(frame[..]), eth, e)
  {
    Store(frame, eth + EthSrcAddrOffset, e.ethDst);
    Store(frame, eth + EthDstAddrOffset, e.ethSrc);
  }

  /** Lines 84-85: the IPv4 view at frame index `ip` gets the two addresses crosswise. */
  method StoreIpv4Swap(frame: array<bv8>, ip: nat, e: Endpoints)
    requires ip + Ipv4HdrLen <= frame.Length
    modifies frame
    ensures frame[..] == Ipv4SwapStores(old(frame[..]), ip, e)
  {
    Store(frame, ip + Ipv4SrcAddrOffset, Store32(ToBe32(e.ipDst)));
    Store(frame, ip + Ipv4DstAddrOffset, Store32(ToBe32(e.ipSrc)));
  }

  /** Lines 86-87: the UDP view at frame index `udp` gets the two ports crosswise. */
  method StoreUdpSwap(frame: array<bv8>, udp: nat, e: Endpoints)
    requires udp + UdpHdrLen <= frame.Length
    modifies frame
    ensures frame[..] == UdpSwapStores(old(frame[..]), udp, e)
  {
    Store(frame, udp + UdpSourceOffset, Store16(ToBe16(e.udpDstPort)));
    Store(frame, udp + UdpDestOffset, Store16(ToBe16(e.udpSrcPort)));
  }

  /** The Ethernet view of frame `b` after the MAC stores of the swap, with the locals `e`. */
  function EthSwapStores(b: seq<bv8>, eth: nat, e: Endpoints): (r: seq<bv8>)
    requires eth + EthHdrLen <= |b| && |e.ethSrc| == 6 && |e.ethDst| == 6
    ensures |r| == |b|
  {
    Overwrite(Overwrite(b, eth + EthSrcAddrOffset, e.ethDst), eth + EthDstAddrOffset, e.ethSrc)
  }

  /** The IPv4 view after the address stores, converted back with `to_be`. */
  function Ipv4SwapStores(b: seq<bv8>, ip: nat, e: Endpoints): (r: seq<bv8>)
    requires ip + Ipv4HdrLen <= |b|
    ensures |r| == |b|
  {
    Overwrite(Overwrite(b, ip + Ipv4SrcAddrOffset, Store32(ToBe32(e.ipDst))),
      ip + Ipv4DstAddrOffset, Store32(ToBe32(e.ipSrc)))
  }

  /** The UDP view after the port stores, converted back with `to_be`. */
  function UdpSwapStores(b: seq<bv8>, udp: nat, e: Endpoints): (r: seq<bv8>)
    requires udp + UdpHdrLen <= |b|
    ensures |r| == |b|
  {
    Overwrite(Overwrite(b, udp + UdpSourceOffset, Store16(ToBe16(e.udpDstPort))),
      udp + UdpDestOffset, Store16(ToBe16(e.udpSrcPort)))
  }

  /** Storing a frame's own endpoints back crosswise reflects it. */
  lemma SwapStoresReflect(ctx: XdpContext)
    requires |ctx.bytes| >= HeadersLen
    ensures var e := ReadEndpoints(ctx);
      UdpSwapStores(Ipv4SwapStores(EthSwapStores(ctx.bytes, 0, e), EthHdrLen, e), EthHdrLen + Ipv4HdrLen, e)
      == Reflect(ctx.bytes)
  {
    var b := ctx.bytes;
    ToBeStore32(b[26..30]);
    ToBeStore32(b[30..34]);
    ToBeStore16(b[34..36]);
    ToBeStore16(b[36..38]);
    SixStoresReflect(b);
  }

  /** The six stores of the swap, in the source's order, compose to the reflection. */
  lemma SixStoresReflect(b: seq<bv8>)
    requires |b| >= HeadersLen
    ensures Overwrite(Overwrite(Overwrite(Overwrite(Overwrite(Overwrite(b,
              6, b[0..6]), 0, b[6..12]), 26, b[30..34]), 30, b[26..30]), 34, b[36..38]), 36, b[34..36])
            == Reflect(b)
  {
  }

  /** `try_xdp_firewall` on the frame buffer `frame` whose first byte is at address `data`.
      Every early return leaves the frame as it was; TX leaves it reflected. */
  method TryXdpFirewall(frame: array<bv8>, data: nat) returns (r: Result<bv32>)
    modifies frame
    ensures r == Classify(XdpContext(data, old(frame[..])))
    ensures r == Ok(XdpTx) ==> frame.Length >= HeadersLen && frame[..] == Reflect(old(frame[..]))
    ensures r != Ok(XdpTx) ==> frame[..] == old(frame[..])
  {
    var ctx := XdpContext(data, frame[..]);
    var ethhdr :- PtrAtMut(ctx, 0, EthHdrLen);
    if ReadEthHdr(ctx, ethhdr).etherType != EtherTypeIpv4Repr {
      return Ok(XdpPass);
    }
    var ipv4hdr :- PtrAtMut(ctx, EthHdrLen, Ipv4HdrLen);
    if ReadIpv4Hdr(ctx, ipv4hdr).proto != IpProtoUdp {
      return Ok(XdpPass);
    }
    var udphdr :- PtrAtMut(ctx, EthHdrLen + Ipv4HdrLen, UdpHdrLen);
    if FromBe16(ReadUdpHdr(ctx, udphdr).dest) != DnsPort {
      return Ok(XdpPass);
    }
    var dnsLogged :- PrintDns(ctx);
    // print_pkt cannot fail once the UDP view exists: its `?` never returns early.
    var pktLogged := PrintPkt(ctx);
    assert pktLogged.Ok?;

    SwapAddresses(frame, data, ethhdr, ipv4hdr, udphdr);

    var reflectedLogged := PrintPkt(XdpContext(data, frame[..]));
    assert reflectedLogged.Ok?;
    r := Ok(XdpTx);
  }

  /** `xdp_firewall`: the frame's action. The block lists are in scope but never consulted, so
      the action is a function of the frame alone. */
  method XdpFirewall(frame: array<bv8>, data: nat, lists: BlockLists) returns (action: bv32)
    modifies frame
    ensures action == Verdict(XdpContext(data, old(frame[..])))
    ensures action == XdpTx ==> frame.Length >= HeadersLen && frame[..] == Reflect(old(frame[..]))
    ensures action != XdpTx ==> frame[..] == old(frame[..])
  {
    var r := TryXdpFirewall(frame, data);
    action := XdpFirewallAction(r);
  }
}
