# XDP DNS reflector — Dafny model

This project models the eBPF side of a small XDP firewall written in Rust with aya. The
kernel calls the program once for every frame that arrives on an interface. It reads the
Ethernet, IPv4 and UDP headers through bounds-checked views. A frame too short for the view
it needs next is aborted (`XDP_ABORTED`). A frame whose ethertype is not IPv4, whose protocol
is not UDP, or whose UDP destination port is not 53 is passed on unchanged (`XDP_PASS`).
Every other frame, query or response alike (the QR bit is never tested), has its 12-byte DNS
header copied out; that copy too aborts a frame shorter than 54 bytes. The program then
swaps the two MAC addresses, the two IPv4 addresses and the two UDP ports in place and sends
the frame back out of the same interface (`XDP_TX`). The model also covers the `DnsHdr`
decoder of the shared crate and its flag accessors over a two-byte bitfield.

Modules, one per file:

- `Wrappers` (wrappers.dfy): `Option` and the `Result` that models Rust's `Result<_, ()>`.
  Its failure-compatible form lets `:-` stand for `?`.
- `Endian` (endian.dfy): the target is little-endian (bpfel). A `u16`/`u32` struct field is
  therefore the little-endian load of its bytes, and `from_be`/`to_be` are byte swaps. The
  network-order value of a byte run (`BigEndian16/32`) is the reference these are proved
  against.
- `Bitfield` (bitfield.dfy): `BitfieldUnit::get` over a byte array, with bits read
  LSB-first within each byte.
- `Dns` (dns.dfy): `DnsHdr`, its memory image, and its fourteen accessors (section 4.1.1 of
  RFC 1035; the AD and CD bits are from section 3.2 of RFC 4035).
- `Headers` (headers.dfy): the fields of the Ethernet, IPv4 and UDP headers that the program
  reads, at their fixed offsets.
- `Helper` (helper.dfy): `ptr_at`, `ptr_at_mut`, `own_at`, `print_dns` and `print_pkt`.
  A context is the address of the frame's first byte plus the frame's bytes. A view is an
  address.
- `Firewall` (firewall.dfy): the block-list lookups, the decision (`Classify`, `Verdict`) as a
  pure specification, and `try_xdp_firewall`/`xdp_firewall` as methods that rewrite an
  `array<bv8>` in place and are proved against that specification.

The frame length needed to reach TX is 54 bytes, although the three header views end at byte 42. `print_dns` copies the 12-byte DNS
header at offset 42 (ebpf/src/helper.rs:33), and its `?` at ebpf/src/main.rs:69 turns a
failed copy into `Err`. So a UDP/53 frame of 42 to 53 bytes is aborted
(`Firewall.TruncatedDnsAborted`, `Firewall.DnsFrameReflected`).

## Model

| member | source | states |
|---|---|---|
| Endian.Store16 | ebpf/src/main.rs:86-87 | a 16-bit field store writes two bytes whose little-endian load is the stored value |
| Endian.Store32 | ebpf/src/main.rs:84-85 | a 32-bit field store writes four bytes whose little-endian load is the stored value |
| Endian.ToBe16 | ebpf/src/main.rs:86-87 | `to_be` on u16 is undone by `from_be` |
| Endian.ToBe32 | ebpf/src/main.rs:84-85 | `to_be` on u32 is undone by `from_be` |
| Endian.StoreLoad16 | common/src/lib.rs:5-10 | loading a u16 field and storing it back reproduces its two bytes |
| Endian.FromBeLoad16 | common/src/lib.rs:14-16 | `from_be` of a loaded u16 field is the network-order value of its bytes |
| Endian.FromBeLoad32 | ebpf/src/main.rs:76-77 | `from_be` of a loaded u32 field is the network-order value of its bytes |
| Endian.ToBeStore16 | ebpf/src/main.rs:86-87 | storing `to_be` of a port's network-order value writes back exactly its bytes |
| Endian.ToBeStore32 | ebpf/src/main.rs:84-85 | storing `to_be` of an address's network-order value writes back exactly its bytes |
| Dns.DnsHdr.Bytes | common/src/lib.rs:4-11 | the memory image of a header is 12 bytes |
| Dns.FromBytes | ebpf/src/helper.rs:28 | the bitwise copy of 12 bytes into a `DnsHdr` has exactly those bytes as its image |
| Dns.FromBytesBytes | common/src/lib.rs:4-11 | copying a header's image back gives the same header |
| Dns.FieldsAreBigEndian | common/src/lib.rs:14-68 | `id`, `qdcount`, `ancount`, `nscount` and `arcount` are the big-endian values of header bytes 0-1, 4-5, 6-7, 8-9 and 10-11 |
| Dns.FlagBytesAt | common/src/lib.rs:6 | the bitfield holds header bytes 2 and 3 |
| Dns.DnsHdr.Qr | common/src/lib.rs:18-20 | QR is bit 7 of flag byte 0, so it is 0 or 1 |
| Dns.DnsHdr.Opcode | common/src/lib.rs:22-24 | OPCODE is bits 3-6 of flag byte 0, so it is below 16 |
| Dns.DnsHdr.Aa | common/src/lib.rs:26-28 | AA is bit 2 of flag byte 0, so it is 0 or 1 |
| Dns.DnsHdr.Tc | common/src/lib.rs:30-32 | TC is bit 1 of flag byte 0, so it is 0 or 1 |
| Dns.DnsHdr.Rd | common/src/lib.rs:34-36 | RD is bit 0 of flag byte 0, so it is 0 or 1 |
| Dns.DnsHdr.Ra | common/src/lib.rs:38-40 | RA is bit 7 of flag byte 1, so it is 0 or 1 |
| Dns.DnsHdr.Ad | common/src/lib.rs:42-44 | AD is bit 5 of flag byte 1, so it is 0 or 1 |
| Dns.DnsHdr.Cd | common/src/lib.rs:46-48 | CD is bit 4 of flag byte 1, so it is 0 or 1 |
| Dns.DnsHdr.Rcode | common/src/lib.rs:50-52 | RCODE is the low four bits of flag byte 1, so it is below 16 |
| Dns.FlagByte0RoundTrip | common/src/lib.rs:18-36 | flag byte 0 equals qr*128 + opcode*8 + aa*4 + tc*2 + rd |
| Dns.FlagByte1RoundTrip | common/src/lib.rs:38-52 | flag byte 1, without its unexposed Z bit 6, equals ra*128 + ad*32 + cd*16 + rcode |
| Dns.StandardResponseExample | common/src/lib.rs:14-68 | the header 12 34 81 80 00 01 00 01 00 00 00 00 decodes to id 0x1234, qr 1, opcode 0, aa 0, tc 0, rd 1, ra 1, ad 0, cd 0, rcode 0, one question and one answer |
| Headers.EthHdrFromBytes | ebpf/src/main.rs:52-55 | the Ethernet view's addresses are bytes 0-5 and 6-11, its ethertype is the big-endian value of bytes 12-13, and it equals IPv4's exactly when those bytes are 08 00 |
| Headers.Ipv4HdrFromBytes | ebpf/src/main.rs:58-61 | the IPv4 view's protocol is header byte 9, and `from_be` of its addresses gives the big-endian values of bytes 12-15 and 16-19 |
| Headers.UdpHdrFromBytes | ebpf/src/main.rs:64-67 | `from_be` of the UDP view's ports gives the big-endian values of header bytes 0-1 and 2-3 |
| Helper.PtrAt | ebpf/src/helper.rs:8-18 | succeeds exactly when `offset + size` fits in the frame, and then returns `start + offset`, a view lying inside `[start, end)` |
| Helper.PtrAtMut | ebpf/src/helper.rs:21-24 | the same outcome, success condition and address as `ptr_at` |
| Helper.OwnAt | ebpf/src/helper.rs:27-30 | fails exactly when `ptr_at` fails, and otherwise returns a copy of bytes `[offset, offset + size)` |
| Helper.OwnAtDependsOnlyOnWindow | ebpf/src/helper.rs:27-30 | the copy depends only on the bytes it covers, so two reads of an unchanged frame are equal |
| Helper.PrintDns | ebpf/src/helper.rs:32-49 | fails exactly when the frame is shorter than 8 + 14 + 20 + 12 = 54 bytes |
| Helper.ReadEndpoints | ebpf/src/helper.rs:56-63 | the six locals are the MACs at bytes 0-5 and 6-11, the big-endian IPv4 addresses at 26-29 and 30-33, and the big-endian ports at 34-35 and 36-37 |
| Helper.PrintPkt | ebpf/src/helper.rs:51-77 | fails exactly when the frame is shorter than 42 bytes; as a function it only reads the frame |
| Firewall.MapGet | ebpf/src/main.rs:43 | `HashMap::get` finds a value exactly when the key is present, and the value is the map's |
| Firewall.BlockIp | ebpf/src/main.rs:42-44 | true exactly when the address is a key of BLOCKLIST |
| Firewall.BlockPort | ebpf/src/main.rs:46-48 | true exactly when the port is a key of BLOCKLIST_PORT |
| Firewall.LoaderEntriesBlocked | ebpf/src/main.rs:28-31 | with 1.1.1.1 and port 53 inserted, those keys are blocked and neighbouring ones are not |
| Firewall.EmptyBlockListsBlockNothing | ebpf/src/main.rs:42-48 | empty block lists block no address and no port |
| Firewall.XdpFirewallAction | ebpf/src/main.rs:35-38 | an `Err` becomes XDP_ABORTED and `Ok(a)` becomes `a` |
| Firewall.Mirror | ebpf/src/main.rs:81-88 | a position below 38 is sent to a position below 38, and every later position is fixed |
| Firewall.MirrorInvolution | ebpf/src/main.rs:81-88 | mirroring twice is the identity, so the swap is a bijection on positions that exchanges the fields pairwise |
| Firewall.ReflectSwapsFields | ebpf/src/main.rs:72-88 | on TX, bytes 0-5 and 6-11, 26-29 and 30-33, 34-35 and 36-37 are exchanged, every other byte is unchanged, and the length stays the same |
| Firewall.ReflectInvolution | ebpf/src/main.rs:81-88 | swapping twice restores the original frame |
| Firewall.VerdictIsAbortedPassOrTx | ebpf/src/main.rs:34-39 | every frame gets ABORTED, PASS or TX, never DROP or REDIRECT |
| Firewall.ShortFrameAborted | ebpf/src/main.rs:51 | a frame shorter than 14 bytes is aborted |
| Firewall.NonIpv4Passes | ebpf/src/main.rs:52-55 | a frame whose ethertype is not IPv4 passes |
| Firewall.TruncatedIpv4Aborted | ebpf/src/main.rs:57 | an IPv4 frame of 14 to 33 bytes is aborted |
| Firewall.NonUdpPasses | ebpf/src/main.rs:58-61 | an IPv4 frame whose protocol is not UDP passes |
| Firewall.TruncatedUdpAborted | ebpf/src/main.rs:63 | an IPv4/UDP frame of 34 to 41 bytes is aborted |
| Firewall.NonDnsPortPasses | ebpf/src/main.rs:64-67 | an IPv4/UDP frame whose big-endian destination port is not 53 passes |
| Firewall.TruncatedDnsAborted | ebpf/src/main.rs:69 | an IPv4/UDP/53 frame of 42 to 53 bytes is aborted |
| Firewall.DnsFrameReflected | ebpf/src/main.rs:69-92 | every IPv4/UDP/53 frame of at least 54 bytes gets TX |
| Firewall.TxOnlyForDnsFrames | ebpf/src/main.rs:50-92 | TX happens only for IPv4/UDP/53 frames of at least 54 bytes |
| Firewall.Store | ebpf/src/main.rs:82-87 | a field store or `copy_from_slice` through a view overwrites exactly the covered bytes |
| Firewall.SwapAddresses | ebpf/src/main.rs:72-88 | given the three views `ptr_at_mut` admitted, copying the six fields into locals and storing them back crosswise through those views leaves the frame reflected |
| Firewall.StoreEthSwap | ebpf/src/main.rs:82-83 | the two stores through the Ethernet view put the old destination MAC in the source field and the old source MAC in the destination field, and change nothing else |
| Firewall.StoreIpv4Swap | ebpf/src/main.rs:84-85 | the two stores through the IPv4 view write `to_be` of the other address into each address field, and change nothing else |
| Firewall.StoreUdpSwap | ebpf/src/main.rs:86-87 | the two stores through the UDP view write `to_be` of the other port into each port field, and change nothing else |
| Firewall.SwapStoresReflect | ebpf/src/main.rs:72-88 | the six stores, in the source's order, through views at indices 0, 14 and 34 and with the locals read from the frame, give the reflected frame |
| Firewall.SixStoresReflect | ebpf/src/main.rs:81-88 | the six byte-level stores compose to the reflection |
| Firewall.TryXdpFirewall | ebpf/src/main.rs:50-93 | the result is the decision `Classify` of the input frame; on TX the frame is reflected, and on every other outcome it is unchanged |
| Firewall.XdpFirewall | ebpf/src/main.rs:33-39 | the action is `Verdict` of the input frame whatever the block lists hold; on TX the frame is reflected, and otherwise it is unchanged |

## Left out

- The loader (loader/src/main.rs) and the build helper (xtask/src/run_docker.rs) are not part of this model. They are I/O and process plumbing: loading the object, attaching it, populating the maps, and running cargo and docker.
- The `info!` logging of `print_dns` and `print_pkt` is left out. Only their views, copies and bounds checks are modelled.
- The panic handler (ebpf/src/main.rs:23-26) is left out. It is compiler plumbing that no modelled path reaches.
- Kernel map semantics are left out: the 1024-entry capacity, eviction, and concurrent writes by the loader. The block lists are immutable maps handed to `Firewall.XdpFirewall`, because the program only reads them.
- Checksums, the IPv4 header length field and IPv4 options are left out. The program never reads or recomputes them, so the model has no notion of them.
- Helper.PtrAt: uses unbounded naturals, so the `usize` sum `start + offset + len` cannot wrap. In the kernel the verifier-bounded packet pointers keep it from wrapping as well.
- Dns.DnsHdr.Qr: this and the other flag accessors are stated at their fixed offsets and widths only. The model has no general lemma for `BitfieldUnit::get` at arbitrary offsets.
- `BitfieldUnit` comes from the network-types crate, which is not part of this model. Its `get` is modelled as a recursion over the bits, not as its loop, with bit `i` read from bit `i % 8` of byte `i / 8`, as on a little-endian target.
- Dns.DnsHdr.Bytes: assumes the fields lie in declaration order with no padding (id at bytes 0-1, flags at 2-3, the counts at 4-11). `DnsHdr` (common/src/lib.rs:4) is not `#[repr(C)]`, so Rust does not promise this layout; `Dns.FromBytes`, `Dns.FieldsAreBigEndian`, `Dns.FlagBytesAt` and `Dns.StandardResponseExample` rest on the same assumption.
- The network-types header structs are reduced to the fields the program reads. The `EtherType` and `IpProto` enum matches become comparisons with the raw values 0x0800 (stored in network order) and 17.
- The frame is a byte array together with the address of its first byte. Raw pointers and aliasing of the three views are modelled as offsets into that one array.
