# Packet decoding and rule matching of Snort, in Dafny

This project models five parts of Snort's C code and proves what they keep over
whole runs, for every input.

- **The Internet checksum** (`src/checksum.h`): seven unrolled routines with a
  32-bit accumulator that defers its carries. Each is a method, proved equal to
  the one-word-at-a-time sum of RFC 1071, section 1, for every permitted length
  up to 65537 words, and for every longer one the exact condition is given.
- **The layered packet decoder** (`src/decode.c`), IPv4 side: Ethernet, VLAN,
  PPPoE, PPP, ARP, IPv4, ESP, GRE, transparent bridging, UDP, GTP, TCP, ICMP.
  `DecoderModel` is the machine that makes one decoder call at a time; `Decoder`
  holds the functions that call one another and fill one packet, each proved to
  do what the machine does. The laws are about whole runs: where the recorded
  layers lie, exactly when they are in order, how far they reach, how often a
  header can occur, that hosts of both byte orders record the same, that
  decoding what a sender encoded gives back the stack of headers, and exactly
  when what is recorded for a capture is a parse of it, ESP trailers included.
- **The walks inside the decoder**: TCP and IPv4 options, GRE source routes, GTP
  extension headers, the IPv6 extension chain and its order check. Each has an
  encoding, and the walk and the encoding are proved to be inverse.
- **The detector of the BSD IPv6 fragment pattern** (`CheckIPV6Frag`): an alert
  is characterised by the history of all packets before it, over every eviction
  of the table.
- **Rule headers, activate and dynamic rules** (`src/detect.c`): address lists,
  the chain of tests, the bidirectional test, and the coupled countdowns of
  option nodes and rule nodes.

The build modelled has GRE and neither IPv6 support nor MPLS; only
`Ip6Extensions` models the build with IPv6 support. `LAYER_MAX`, `IP6_EXTMAX`
and all configuration flags are parameters, and so are the time of a packet, the
evictions of the fragment table and whether it is out of memory.

## What the proofs found

Where a property one would expect does not hold of the code, the model keeps the
code as it is, and the exact condition is proved.

- Layers need not come in order. The branch of the VLAN decoder for a tag
  followed by an LLC header hands on the slice that starts 12 octets into the
  capture, wherever the tag was (`src/decode.c:1286-1400`). The layers are in
  order exactly when no call behind that branch passes the tests its decoder
  makes before it records a layer (`DecoderOrder.DecodeInOrderIff`);
  `DecoderOrder.OverlapExample` is a capture of 30 octets. Branch or not, they
  lie inside the capture and are no more than the table holds
  (`DecoderOrder.DecodeStaysInside`). A capture without two
  octets 0xaa side by side never takes the branch, whatever else it holds
  (`DecoderWrites.NoMarkNoRebase`).
- Nor need the layers be a parse of the capture. They are exactly when no call
  behind that branch records one, and, should the branch be taken with the table
  full, the PPP decoder behind it writes into no octet that a recorded header
  depends on, the next-header octet of an ESP trailer among them
  (`DecoderParseIff.DecodeParsesIff`, `DecoderSpoils.SpoilsIff`).
  `DecoderFullTable.FullTableSpoils` is a capture of 86 octets, with a table of
  six layers, whose IPv4 fragment field is overwritten after it was read. A late
  write cannot hit a length field of IPv4 or UDP, so how far layers reach is a law
  of every capture (`DecoderExtents.DecodeKeepsExtents`).
- A TCP or UDP header right inside ESP is checked with the protocol number of
  ESP in the pseudo-header, so a right checksum counts as wrong, wherever it is
  looked at, and the header is dropped (`EspStacks.RightIsRefused`,
  `EspChecksums.TcpInsideEsp`, `EspChecksums.UdpInsideEsp`). With TCP checksums
  verified, of Ethernet, IPv4, ESP and TCP as their sender builds them only the
  first two are recorded (`EspStacks.EspStackDecodes`); `EspStacks.EspCapture`
  is a capture of 76 octets.
- PPPoE is recognised by the type field of the Ethernet header last laid, not by
  the type of the VLAN tag in front of it (`src/decode.c:1489-1747`). Behind a
  tag it is recorded exactly when there is room, six octets are left, and that
  field is 0x8864 (`DecoderPppoe.PppoeBehindTagIff`). Behind a tag that stands
  right behind Ethernet it never is (`DecoderPppoe.TagHidesPppoe`); behind a GRE
  header that hands on a tag (`src/decode.c:4934`) it can be
  (`DecoderPppoe.GreTagShowsPppoe`), and nowhere but below GRE
  (`DecoderPppoe.TaggedPppoeIsBehindGre`).
- Beyond 65537 words the checksum routines can lose carries. No call of the
  decoders gets there: the lengths they pass fit 16 bits, as `DecoderModel.Ready`
  records, and the pseudo-header adds six words. What the routines return is the
  checksum of RFC 1071 exactly when the sum of all words fits 32 bits, or the
  carries lost are a multiple of 65535 and something is left
  (`ChecksumLaws.DeferredCarryIff`); `ChecksumLaws.DeferredCarryLimit` is an
  input of 65538 words.
- The two tests before a dynamic rule is evaluated look at the rule node and the
  global counter only. With two option nodes on one rule node, or after a second
  activation, they let through nodes that are not active; the counter can then
  reach zero with a node still active. Both happen in every such system, wherever
  the count is positive (`DynamicLaws.SharedRuleFails`,
  `DynamicLaws.SecondActivationFails`). With one option node to a rule node and no
  activation of an active node they suffice (`DynamicLaws.GateSuffices`).
- The count of a dynamic rule may be zero, although the message for a bad one
  asks for a positive integer (`src/parser.c:10385-10391`); activating such a
  node leaves its flag up with nothing to count, which is the case that
  `DynamicLaws.StepHealthyIff` excludes.
- The extension order check does not look for Routing in the first header, so
  Routing followed by Destination Options is reported
  (`Ip6Extensions.RoutingFirstIsReported`).
- The exception flag of an address selects one of two branches in `CheckAddrPort`
  that accept the same addresses (`src/detect.c:648-740`).
- A malformed IPv4 option in an encapsulated packet leaves in place the option
  count of the outer IPv4 header of the same packet (`src/decode.c:2484-2507`,
  `OptionDecoder.DecodeTunnelOptions`); `OptionDecoder.LeftOverCount` is an input
  for which four options are counted and the inner header has none.
- The slot of a refused TCP SACK option may still hold the pointer of an earlier
  packet, and whether the option is called bad or truncated depends on it
  exactly when the length is not wrong and the option is not accepted
  (`OptionDecoder.RefusalDiffersIff`); a kind octet for SACK and nothing else
  is such an option (`OptionDecoder.LoneSack`).

## Model

| member | source | states |
|---|---|---|
| ChecksumRoutines.InChksumIp | src/checksum.h:48-79 | the checksum of an IPv4 header of any length that is a multiple of four equals the RFC 1071 sum |
| ChecksumRoutines.InChksumTcp | src/checksum.h:89-169 | pseudo-header and segment of any length, odd ones included: the RFC 1071 sum up to 65537 words, the sum modulo 2^32 folded beyond |
| ChecksumRoutines.InChksumTcp6 | src/checksum.h:178-270 | the same with the IPv6 pseudo-header |
| ChecksumRoutines.InChksumUdp6 | src/checksum.h:280-362 | the same for UDP over IPv6 |
| ChecksumRoutines.InChksumUdp | src/checksum.h:366-436 | the same for UDP over IPv4 |
| ChecksumRoutines.InChksumIcmp | src/checksum.h:441-495 | the same for ICMP, without a pseudo-header |
| ChecksumRoutines.InChksumIcmp6 | src/checksum.h:500-574 | the same for ICMPv6 |
| ChecksumRoutines.Finish | src/checksum.h:165-168 | two folds and the complement give the canonical residue modulo 65535 |
| ChecksumRoutines.NoCarryLost | src/checksum.h:151-168 | up to 65537 words the accumulator cannot wrap |
| Checksum.TwoFoldsSuffice | src/checksum.h:75-78 | two folds equal folding until the value fits 16 bits, for every accumulator value |
| Checksum.OnesSumIsCanon | src/checksum.h:155-168 | adding with end-around carries, one word at a time, depends on the plain sum only |
| ChecksumLaws.ByteOrderIndependent | src/checksum.h:25-27 | reading all words in the other byte order gives the byte-swapped checksum; zero stays zero |
| ChecksumLaws.StoredChecksumVerifies | src/checksum.h:48-79 | storing the returned checksum in a zeroed word makes the receiver's sum zero |
| ChecksumLaws.OneWordChange | src/checksum.h:89-169 | a change in one word goes unnoticed iff the values are 0x0000 and 0xffff and another word is not zero |
| ChecksumLaws.DeferredCarryIff | src/checksum.h:151-168 | for input of any length, the result is that of RFC 1071 iff the plain sum is below 2^32, or the carries lost are a multiple of 65535 and something is left |
| ChecksumLaws.DeferredCarryLimit | src/checksum.h:151-168 | with 65538 words of 0xffff the accumulator wraps and the result is 1 where RFC 1071 has 0 |
| Options.HeadOfEncoded | src/decode.c:5691-5752 | an encoded option reads back, wherever it stands |
| Options.ScanTcpTiles | src/decode.c:5802-6000 | what the TCP walk finds tiles a prefix of the bytes; it stops well only at the end or on end-of-list |
| Options.ScanTcpStopsAtBad | src/decode.c:5949-5971 | where the walk stops badly no well-formed option starts, so the count is that of the well-formed options before |
| Options.ScanTcpEncoded | src/decode.c:5802-6000 | decoding the encoding of any well-formed option list returns that list |
| Options.TileIsEncoding | src/decode.c:5802-6000 | a stretch that is tiled is the encoding of the options found |
| Options.ScanIpIff | src/decode.c:6014-6087 | the IPv4 walk succeeds iff the bytes encode some list of well-formed options, and then records the longest prefix of that list without an end-of-list |
| Options.ScanIpTiles | src/decode.c:6014-6087 | well or badly, the recorded IPv4 options tile the bytes they cover |
| Options.ScanIpBounds | src/decode.c:6014-6087 | an end-of-list is never recorded, nor more options than there are slots |
| OptionDecoder.Packet.OptLenValidate | src/decode.c:5691-5752 | accepts exactly a present, sufficient length octet that fits and is the expected one; fills one slot and no other |
| OptionDecoder.Packet.ReadTcpOption | src/decode.c:5841-5947 | reads the option into its slot iff a well-formed one stands there |
| OptionDecoder.Packet.ReadIpOption | src/decode.c:6028-6057 | the same for IPv4 options |
| OptionDecoder.Packet.TurnTCPOption | src/decode.c:5841-5971 | one turn of the loop: a well-formed option goes into the next slot with its alert and class, a bad one ends the walk with the alert that says why |
| OptionDecoder.Packet.WalkTCPOptions | src/decode.c:5841-5976 | the loop fills the table with the options found up to the end, an end-of-list or a bad option, and touches no slot behind |
| OptionDecoder.Packet.DecodeTCPOptions | src/decode.c:5802-6000 | the count, the table and the alerts are those of the scan of the option bytes; slots behind are untouched |
| OptionDecoder.Packet.DecodeIPOptions | src/decode.c:6014-6087 | on success the table records the options before the first end-of-list, on a malformed option the previous count stays |
| OptionDecoder.SeenMeans | src/decode.c:5980-5997 | a class of option is seen iff some option found is of that class |
| OptionDecoder.RefusalDiffersIff | src/decode.c:5900-5971 | the pointer left over in a slot changes the alert for a refused option iff it is SACK, its length is not wrong, and it is not accepted |
| OptionDecoder.LoneSack | src/decode.c:5900-5904 | a kind octet for SACK and nothing else is called bad with a null slot, truncated with one in use |
| OptionDecoder.Packet.DecodeHeaderOptions | src/decode.c:2482-2507 | a header without options sets the count to zero, one with malformed options leaves it |
| OptionDecoder.DecodeTunnelOptions | src/decode.c:2482-2507 | of two IPv4 headers the count is that of the inner one, or of the outer one when the inner options are malformed |
| OptionDecoder.LeftOverCount | src/decode.c:6014-6087 | four options outside and one of length zero inside: four are left counted |
| GreHeader.HeaderLength | src/decode.c:4784-4900 | the walk with pointer and length side by side finds the length of the header, or refuses it |
| GreHeader.LengthOfEncoded | src/decode.c:4784-4900 | for every encoded header, with any list of source route entries, the length is exactly that of the encoding |
| GreHeader.LengthDecodes | src/decode.c:4784-4900 | every accepted header is the encoding of a well-formed one |
| GreHeader.EncodedIff | src/decode.c:4784-4900 | octets are a well-formed header iff the walk over them ends exactly at their end |
| GreHeader.RoutesOfEncoded | src/decode.c:4815-4842 | the route walk stops right behind the null entry that closes the list |
| GtpHeader.HeaderLength | src/decode.c:4995-5101 | the walk over the extension headers finds the header length, or refuses it |
| GtpHeader.LengthOfEncoded | src/decode.c:4995-5101 | for every encoded header of version 0 or 1, with any chain of extensions, the length is that of the encoding |
| GtpHeader.LengthDecodes | src/decode.c:4995-5101 | every accepted header is the encoding of a well-formed one whose length field counts what is behind it |
| GtpHeader.EncodedIff | src/decode.c:4995-5101 | octets are a well-formed header, whatever its length field, iff the walk over its parts ends exactly at their end |
| DecoderModel.Step | src/decode.c:728-5671 | one decoder call: it hands on a strictly shorter slice inside the capture, under which the headers it looks back at are laid, so decoding terminates |
| Decoder.Packet.PushLayer | src/decode.c:584-598 | records the layer unless the table is full; nothing else changes |
| Decoder.Packet.DecodeEthPkt | src/decode.c:728-856 | from any capture, the packet ends up as the machine says |
| Decoder.Packet.DecodeTransBridging | src/decode.c:875-929 | the same from an Ethernet header inside GRE |
| Decoder.Packet.DecodeVlan | src/decode.c:1249-1468 | the same from a VLAN tag |
| Decoder.Packet.DecodeVlanLlc | src/decode.c:1286-1400 | the same from a VLAN tag followed by an LLC header |
| Decoder.Packet.DecodePPPoEPkt | src/decode.c:1489-1747 | the same from a PPPoE header |
| Decoder.Packet.DecodePppPktEncapsulated | src/decode.c:1760-1850 | the same from a PPP header, the branch that rewrites the packet included |
| Decoder.Packet.DecodeIP | src/decode.c:2279-2680 | the same from an IPv4 header |
| Decoder.Packet.DecodeESP | src/decode.c:4642-4735 | the same from an ESP header; the flag for unsure contents is lowered at the end |
| Decoder.Packet.DecodeGRE | src/decode.c:4756-4957 | the same from a GRE header |
| Decoder.Packet.DecodeUDP | src/decode.c:5157-5374 | the same from a UDP header |
| Decoder.Packet.UdpChecksumFails | src/decode.c:5247-5285 | the checksum test is the RFC 1071 sum over pseudo-header and datagram, where one applies |
| Decoder.Packet.DecodeGTP | src/decode.c:4971-5112 | the same from a GTP header |
| Decoder.Packet.DecodeTCP | src/decode.c:5408-5671 | the same from a TCP header |
| Decoder.Packet.DecodeICMP | src/decode.c:2697-2862 | the same from an ICMP message |
| DecoderLaws.StepNests | src/decode.c:728-5374 | every call but the LLC branch of VLAN hands on a slice inside its own |
| DecoderLaws.DecodeLaysLayers | src/decode.c:584-598 | unless that branch is taken, the layers are in order, disjoint, and contiguous but for ESP headers |
| DecoderLaws.StepLaid | src/decode.c:728-5671 | what every single call keeps of the layer stack |
| DecoderOrder.DecodeStaysInside | src/decode.c:584-598 | for every capture, that branch included, the layers are at most the maximum and each lies inside the capture |
| DecoderHosts.DecodeOnAnyHost | src/checksum.h:25-27 | little-endian and big-endian hosts make the same of every capture |
| DecoderOrder.DecodeInOrderIff | src/decode.c:1286-1400 | the layers of a decoded capture are in order iff no call right behind the LLC branch passes the tests made before a layer is recorded |
| DecoderOrder.RecordsIff | src/decode.c:615-2480 | a decoder below Ethernet or VLAN records a layer iff the tests it makes before pass, and only then goes on |
| DecoderOrder.OverlapExample | src/decode.c:1286-1400 | captures of 30 octets whose second VLAN layer lies inside the Ethernet header |
| DecoderOrder.RunAppends | src/decode.c:584-598 | decoding only ever appends to the table, and not at all when it is full |
| DecoderWrites.RunWrites | src/decode.c:1824-1836 | decoding writes nothing into the capture but the protocol number of TCP |
| DecoderWrites.NoMarkNoRebase | src/decode.c:1286-1400 | a capture without two octets 0xaa side by side never takes the LLC branch, whatever is written while it is decoded |
| DecoderWrites.PlainCaptureLaid | src/decode.c:584-598 | so the layers of every such capture are in order, disjoint, inside and contiguous |
| DecoderPppoe.PppoeBehindTagIff | src/decode.c:1489-1530 | PPPoE behind a tag is recorded iff there is room, six octets are left, and the Ethernet header last laid has the session type |
| DecoderPppoe.TagHidesPppoe | src/decode.c:1249-1530 | behind a tag that stands right behind Ethernet PPPoE is never recorded, session or discovery |
| DecoderPppoe.GreTagShowsPppoe | src/decode.c:4934-4957 | a capture of 56 octets in which GRE hands on a tag and the PPPoE header behind it is recorded |
| DecoderPppoe.TaggedPppoeIsBehindGre | src/decode.c:1489-1530 | for every capture, a PPPoE layer right behind a VLAN layer has a GRE layer above it |
| DecoderCounts.DecodeBounded | src/decode.c:2312-2335 | on every capture at most two IPv4 layers, one GRE layer and one GTP layer are recorded |
| DecoderCounts.StepKeepsIp | src/decode.c:2312-2335 | once laid, the IPv4 header stays set until the decoding stops; the second one marks the packet as encapsulated |
| DecoderRoundTrip.DecodeEncoded | src/decode.c:728-5671 | for every well-formed stack of headers, IPv4 headers included that PPP carries with a slot number in place of their protocol, decoding its encoding records exactly those headers, down to the first that is refused, or as many as the table holds |
| DecoderRoundTrip.RunEncoded | src/decode.c:728-5671 | the same from any header of the stack on, under any headers above it |
| DecoderRoundTrip.StepLeads | src/decode.c:728-5671 | each decoder records a header that is not refused and hands exactly what it carries to the decoder in charge |
| DecoderRoundTrip.RefusedStops | src/decode.c:2312-5545 | a third IPv4 header, GRE under the second, a second GTP header, PPPoE without the session type, a wrong checksum inside ESP: nothing is recorded and the decoding stops |
| DecoderParse.DecodeParses | src/decode.c:728-5671 | unless the LLC branch is taken, every recorded layer is a sound header of its kind, and the type, protocol, trailer or port field of each names the decoder of the next |
| DecoderParse.TrailerNamesNext | src/decode.c:4642-4735 | unless the LLC branch is taken, what is recorded behind an IPv4 header that carries ESP is what the next-header octet of the trailer names, 13 octets before the end of that datagram |
| DecoderParse.StepParsed | src/decode.c:728-5671 | what every single call adds to that parse |
| DecoderTrailers.StepTidy | src/decode.c:4642-4735 | every single call outside the LLC branch keeps the trailers of ESP out of the slice it hands on, so that no later write reaches them |
| DecoderParse.RewriteParsed | src/decode.c:1824-1836 | the octet that the PPP decoder writes lies behind all recorded headers and leaves what they say alone |
| DecoderExtents.DecodeKeepsExtents | src/decode.c:2280-5374 | for every capture, every layer behind an IPv4 layer ends within its total length; the length field of UDP reaches to the end of its unfragmented datagram, that of GTP to the end of the UDP datagram |
| DecoderExtents.StepExtents | src/decode.c:2280-5374 | what every single call, the LLC branch included, keeps of that: where its slice ends, and what UDP, ESP and GTP find in front of it |
| DecoderCourse.StepCourse | src/decode.c:728-5671 | what may still be called before the first IPv4 header, behind it and behind the second, and how far into the capture PPP can start; kept by every single call |
| DecoderParseIff.DecodeParsesIff | src/decode.c:1286-1400 | for every capture and table size, the layers are a parse of the capture iff no call behind the LLC branch records one and none writes, with the table full, an octet that a recorded header or ESP trailer depends on |
| DecoderParseIff.PlainCaptureParsed | src/decode.c:1286-1400 | without two octets 0xaa side by side they always are |
| DecoderSpoils.SpoilsIff | src/decode.c:1824-1836 | which octets of which header and ESP trailer a parse depends on: it survives the write of the protocol number of TCP iff none of them is hit |
| DecoderLateWrites.OneWrite | src/decode.c:1824-1836 | behind an IPv4 header all the rest of a decoding writes one octet at most |
| DecoderFullTable.FullTableSpoils | src/decode.c:1286-1400 | a capture of 86 octets that fills a table of six layers in order and is no parse, since octet 29 was written behind the LLC branch |
| DecoderStacks.GreStackDecodes | doc/README.gre:61-63 | every well-formed stack Ethernet, IPv4, GRE, Ethernet, IPv4, TCP is decoded to the innermost header |
| DecoderStacks.DoubleGreDecodes | doc/README.gre:33-41 | of the documented stack with two GRE headers the second one and all below it are left out |
| DecoderStacks.TripleIpDecodes | doc/README.ipip:19-27 | of the documented stack with three IPv4 headers the third one and all below it are left out |
| DecoderStacks.SlotStackDecodes | src/decode.c:1824-1836 | every TCP packet sent over PPPoE with a slot number in place of its protocol number is decoded to the TCP header |
| EspChecksums.ProtocolCounts | src/checksum.h:89-169 | two protocol numbers in a pseudo-header never give the same checksum |
| EspChecksums.TcpInsideEsp | src/decode.c:5490-5545 | a sound TCP segment with the right checksum, right inside ESP, is recorded iff TCP checksums are not verified |
| EspChecksums.UdpInsideEsp | src/decode.c:5247-5330 | a UDP datagram with the right checksum, right inside ESP, is recorded iff its checksum is not looked at, GTP ports included |
| EspStacks.RightIsRefused | src/decode.c:5490-5545 | right inside ESP a sender's right checksum is refused iff it is looked at |
| EspStacks.EspStackDecodes | src/decode.c:4642-5545 | of every stack Ethernet, IPv4, ESP, TCP with the checksum its sender computes, TCP is recorded iff TCP checksums are not verified |
| EspStacks.EspCapture | src/decode.c:4642-5545 | such a stack exists, with 76 octets |
| FragDetector.Detector.CheckIPV6Frag | src/decode.c:3110-3243 | table and verdict follow from what the header chain amounts to, at any depth of tunnels |
| FragDetector.Detector.CheckFragment | src/decode.c:3170-3236 | the fragment header against the table of timestamps |
| FragLaws.Watch | src/decode.c:3110-3243 | one detector over any list of captured packets: the verdicts are those of the history that the alert theorem speaks of |
| FragLaws.AlertIff | src/decode.c:3178-3235 | an alert iff an earlier packet opened the key and was taken in, this packet and every one of the key between them is a last fragment at offset zero, with more than 100 octets left, within the timeout of that one, and the key was not evicted since |
| FragLaws.RefusedIff | src/decode.c:3220-3235 | a packet that opens a key is not taken in iff there is no memory for it and no earlier packet of the key still counts |
| FragLaws.LiveIsStored | src/decode.c:3220-3235 | each such packet is in the table with its own time |
| FragLaws.StoredIsLive | src/decode.c:3178-3235 | each entry of the table comes from such a packet |
| FragLaws.ClassifyEncoded | src/decode.c:3110-3178 | on every encoded packet, through any tunnels and extension headers and with anything behind it, the walk finds the fragment header the sender put there and counts all octets that are left |
| Ip6Extensions.Packet.CheckIPv6ExtensionOrder | src/decode.c:3948-3982 | one event for each header out of order |
| Ip6Extensions.Packet.DecodeIPV6Extensions | src/decode.c:3984-4066 | table and events are those of the walk; recursion ends by remaining length and which function |
| Ip6Extensions.Packet.DecodeIPV6Options | src/decode.c:3782-3945 | the same, from a header that is recorded |
| Ip6Extensions.WalkFromEmpty | src/decode.c:3782-3945 | at most the maximum of headers, each exactly one decoded length behind the one before, its first eight octets inside |
| Ip6Extensions.WalkEncoded | src/decode.c:3782-3945 | every encoded chain that fits is recorded header by header and the upper layer behind it is handed on |
| Ip6Extensions.WalkStopsAtFragment | src/decode.c:3876-3906 | an encoded chain that leads to a fragment header at an offset, or not before UDP, is recorded up to that header and no further |
| Ip6Extensions.WalkStopsWhenFull | src/decode.c:3782-3945 | with one header more than the table holds, the walk records the others and stops |
| Ip6Extensions.OrderAcceptedIff | src/decode.c:3948-3982 | no event iff the ranks strictly increase, but for a last Destination Options header behind a Routing header at index 1 or later |
| Ip6Extensions.AcceptedIsShort | src/decode.c:3719-3731 | an accepted chain of the recordable headers has at most six |
| Ip6Extensions.RoutingFirstIsReported | src/decode.c:3948-3982 | Routing at index 0 does not excuse a second Destination Options header |
| RuleHeader.CheckIP | src/detect.c:1026-1082 | the interleaved walk passes an address iff the list to match is empty or has a match, and no excluded entry matches |
| RuleHeader.CheckAddrPort | src/detect.c:582-796 | the two-pass form accepts the same addresses, with the exception flag up or down, and tests the port |
| RuleHeader.CheckBidirectional | src/detect.c:879-956 | forward on both sides, or inverse on both sides |
| RuleHeader.RuleHeadFunc | src/detect.c:1208-1356 | a chain of tests that call one another is their conjunction |
| RuleLaws.SetupRTNFuncList | src/parser.c:1904-1941 | the chain set up for the flags of a rule, run over any packet, decides what the rule header describes, and for a bidirectional rule the bidirectional test |
| RuleLaws.OneWayChain | src/parser.c:1904-1941 | that chain matches exactly the packets the rule header describes |
| RuleLaws.OrderDoesNotMatter | src/detect.c:1208-1356 | the verdict does not depend on the order of the tests |
| RuleLaws.DirectionBlind | src/detect.c:879-956 | the bidirectional verdict is the same for a packet and its reverse, for every rule, flag set and port mode |
| RuleLaws.BidirectionalIsEitherWay | src/detect.c:879-956 | a bidirectional rule matches iff the rule read one way matches the packet or its reverse and the lists of "any" sides accept it there |
| DynamicRules.Detection.ActivateAction | src/detect.c:1373-1405 | flags, countdowns and counter of all nodes after an activation |
| DynamicRules.Detection.DynamicAction | src/detect.c:1492-1520 | the same after a dynamic action |
| DynamicLaws.CountdownsBalance | src/detect.c:1389-1397 | over every run, the countdown of a rule node is the sum of those of its option nodes and of all counts overwritten |
| DynamicLaws.CounterBalances | src/detect.c:1502-1517 | over every run, the counter is the number of active nodes, plus activations of active ones, minus idle dynamic actions |
| DynamicLaws.StepHealthyIff | src/detect.c:1389-1397 | from a healthy state an action keeps flags and countdowns in step iff it is proper |
| DynamicLaws.HealthyIffProper | src/detect.c:1502-1517 | a whole run stays healthy iff all its actions are proper |
| DynamicLaws.RuleActiveIff | src/detect.c:1392-1395 | after proper actions a rule node is active iff one of its option nodes is, or a count was overwritten |
| DynamicLaws.CounterCountsActive | src/detect.c:1397-1397 | after proper actions the counter is the number of active nodes plus the activations of active ones |
| DynamicLaws.GateIff | src/fpdetect.c:501-514 | for which nodes the two tests before a dynamic rule let a packet through |
| DynamicLaws.GateSuffices | src/fpdetect.c:501-514 | with one option node to a rule node and no activation of an active one, they let through exactly the active nodes |
| DynamicLaws.SharedRuleFails | src/fpdetect.c:501-514 | in every system with two option nodes on one rule node: an inactive one gets through and shuts off the active one |
| DynamicLaws.SecondActivationFails | src/fpdetect.c:501-514 | every option node with a positive count, activated twice and counted down: it gets through when it is inactive |

`RuleHeader.CheckIP` stands for both the source and the destination test, which
differ only in the fields they read.

## Left out

- MPLS, Ethernet over MPLS, Teredo, the wireless, token ring and other link layers, and raw captures.
- The LLC branch of VLAN is modelled; what it hands on is the slice at 12, as in the code.
- DecoderRoundTrip.DecodeEncoded: VLAN tags followed by LLC are not encoded, since what is recorded behind them is not the stack that was sent; `DecoderOrder` and `DecoderParseIff` speak of them. Nor are payloads announced as a header that is decoded and that are no sound one, except under the PPPoE types and on GTP ports.
- DecoderExtents.DecodeKeepsExtents: the length field of PPPoE is not part of it, since the decoder does not look at that field.
- Events, alerts and drops of the decoder, except those of the option walks and the extension order check; statistics, logging, debug output and profiling.
- The IPv4 and TCP decoders call the option walks, which are modelled on their own; nothing the walks find steers the decoding.
- Packet fields that steer nothing: payload pointer and size, the outer and inner header pointers, protocol bits, error flags. Packets with an embedded IP header inside ICMP push no layer, and that header is not modelled.
- The IPv6 decoder of the build with IPv6 support, apart from its extension headers; `CheckIPV6HopOptions`, the layers of the extensions, and the fragment fields they set.
- Hash table internals and the automatic node recovery: the table is a map that may drop any keys at any time.
- Port objects are sets of ports, address sets of the build with IPv6 support are left out.
- Integer overflow of countdowns and counters in the dynamic rules, which are unbounded here; alert and log functions of the actions; rules shared by several policies.
- Runs that mix packets of several threads or a reload of the configuration.
