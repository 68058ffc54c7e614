/** The layered packet decoder on its IPv4 side, as a machine that makes one
    decoder call at a time. Each call looks at a slice of the capture, may push
    a layer, and stops or hands a slice to the next decoder. */
module DecoderModel {
  import opened Bytes
  import Checksum
  import GreHeader
  import GtpHeader

  const TYPE_IP: uint16 := 0x0800
  const TYPE_ARP: uint16 := 0x0806
  const TYPE_REVARP: uint16 := 0x8035
  const TYPE_VLAN: uint16 := 0x8100
  const TYPE_IPV6: uint16 := 0x86dd
  const TYPE_PPPOE_DISC: uint16 := 0x8863
  const TYPE_PPPOE_SESS: uint16 := 0x8864
  const TYPE_BRIDGING: uint16 := 0x6558
  const MAX_LEN_ENCAP: uint16 := 1518

  const PPP_IP := 0x0021
  const PPP_IPX := 0x002b
  const PPP_VJ_UCOMP := 0x002f

  const PROTO_ICMP: byte := 1
  const PROTO_IPIP: byte := 4
  const PROTO_TCP: byte := 6
  const PROTO_UDP: byte := 17
  const PROTO_IPV6: byte := 41
  const PROTO_GRE: byte := 47
  const PROTO_ESP: byte := 50

  datatype Proto = Eth | Arp | Vlan | Pppoe | PppEncap | Ip4 | Gre | Gtp | Udp | Tcp | Icmp4

  datatype Layer = Layer(proto: Proto, start: nat, length: nat)

  /** The decoder to be called on a slice. */
  datatype Call = DoEth | DoBridge | DoVlan | DoPppoe | DoPpp | DoArp | DoIp | DoIpv6
                | DoGre | DoEsp | DoUdp | DoGtp | DoTcp | DoIcmp

  datatype Config = Config(
    layerMax: nat,
    host: Checksum.Endian,
    espDecoding: bool,
    gtpDecoding: bool,
    gtpPorts: set<uint16>,
    ignoredUdpPorts: set<uint16>,
    udpChecksums: bool,
    tcpChecksums: bool)

  /** The packet fields that steer the decoding. Header pointers are offsets
      into the capture. */
  datatype State = State(
    data: seq<byte>,
    layers: seq<Layer>,
    eh: Option<nat>,
    iph: Option<nat>,
    encapsulated: bool,
    gtpEncapsulated: bool,
    fragmented: bool,
    unsure: bool)

  datatype Outcome = Stop(st: State) | Next(st: State, call: Call, off: nat, len: nat)

  function Initial(data: seq<byte>): State {
    State(data, [], None, None, false, false, false, false)
  }

  /** A layer beyond the maximum is not recorded; the length field has 16 bits. */
  function PushOn(max: nat, layers: seq<Layer>, proto: Proto, start: nat, length: nat): seq<Layer> {
    if |layers| < max then layers + [Layer(proto, start, length % 0x1_0000)] else layers
  }

  function Push(cfg: Config, st: State, proto: Proto, start: nat, length: nat): State {
    st.(layers := PushOn(cfg.layerMax, st.layers, proto, start, length))
  }

  /** Decoders that are only ever called under an IPv4 header. */
  predicate UnderIp(call: Call) {
    || call.DoBridge? || call.DoGre? || call.DoEsp? || call.DoUdp?
    || call.DoGtp? || call.DoTcp? || call.DoIcmp?
  }

  /** What every call may rely on: its slice is inside the capture, the headers
      it looks back at are laid, and under IPv4 16 bits hold every length. */
  predicate Ready(st: State, call: Call, off: nat, len: nat) {
    && off + len <= |st.data|
    && (st.iph.Some? ==> st.iph.value + 20 <= |st.data|)
    && (st.eh.Some? ==> st.eh.value + 14 <= |st.data|)
    && (UnderIp(call) ==> st.iph.Some?)
    && (st.iph.Some? ==> len < 0x1_0000)
    && (!call.DoEth? ==> st.eh.Some?)
  }

  /** A step that goes on leaves a strictly shorter slice, ready for its call. */
  predicate Progress(o: Outcome, st: State, len: nat) {
    && |o.st.data| == |st.data|
    && (o.Next? ==> o.len < len && Ready(o.st, o.call, o.off, o.len))
  }

  /** The decoder that an Ethernet type names, below Ethernet and VLAN. */
  function OfEtherType(t: uint16): Option<Call> {
    if t == TYPE_IP then Some(DoIp)
    else if t == TYPE_ARP || t == TYPE_REVARP then Some(DoArp)
    else if t == TYPE_IPV6 then Some(DoIpv6)
    else if t == TYPE_PPPOE_DISC || t == TYPE_PPPOE_SESS then Some(DoPppoe)
    else if t == TYPE_VLAN then Some(DoVlan)
    else None
  }

  function Dispatch(st: State, next: Option<Call>, off: nat, len: nat): Outcome {
    if next.Some? then Next(st, next.value, off, len) else Stop(st)
  }

  // ------------------------------------------------------------ the link layers

  function StepEth(cfg: Config, st: State, off: nat, len: nat): (o: Outcome)
    requires Ready(st, DoEth, off, len)
    ensures Progress(o, st, len)
  {
    if len < 14 then Stop(st)
    else
      var st1 := Push(cfg, st.(eh := Some(off)), Eth, off, 14);
      Dispatch(st1, OfEtherType(Be16(st.data, off + 12)), off + 14, len - 14)
  }

  /** Ethernet inside GRE: no PPPoE below it. */
  function StepBridge(cfg: Config, st: State, off: nat, len: nat): (o: Outcome)
    requires Ready(st, DoBridge, off, len)
    ensures Progress(o, st, len)
  {
    if len < 14 then Stop(st)
    else
      var st1 := Push(cfg, st.(eh := Some(off)), Eth, off, 14);
      var next := OfEtherType(Be16(st.data, off + 12));
      Dispatch(st1, if next == Some(DoPppoe) then None else next, off + 14, len - 14)
  }

  /** Is this VLAN tag followed by an LLC header, instead of an Ethernet type? */
  predicate IsLlc(st: State, off: nat, len: nat)
    requires Ready(st, DoVlan, off, len)
  {
    len >= 4 && Be16(st.data, off + 2) <= MAX_LEN_ENCAP
  }

  /** The LLC branch hands on the slice that starts 12 octets into the capture,
      wherever the tag itself was. */
  predicate Rebases(st: State, off: nat, len: nat)
    requires Ready(st, DoVlan, off, len)
  {
    IsLlc(st, off, len) && len >= 12 && st.data[off + 4] == 0xaa && st.data[off + 5] == 0xaa
  }

  function StepVlan(cfg: Config, st: State, off: nat, len: nat): (o: Outcome)
    requires Ready(st, DoVlan, off, len)
    ensures Progress(o, st, len)
  {
    if len < 4 then Stop(st.(iph := None))
    else if IsLlc(st, off, len) then
      if len < 6 then Stop(st.(iph := None))
      else if st.data[off + 4] != 0xaa || st.data[off + 5] != 0xaa then Stop(st)
      else if len < 12 then Stop(st.(iph := None))
      else
        Dispatch(Push(cfg, st, Vlan, off, 4), OfEtherType(Be16(st.data, off + 10)), 12, len - 12)
    else
      Dispatch(Push(cfg, st, Vlan, off, 4), OfEtherType(Be16(st.data, off + 2)), off + 4, len - 4)
  }

  function StepPppoe(cfg: Config, st: State, off: nat, len: nat): (o: Outcome)
    requires Ready(st, DoPppoe, off, len)
    ensures Progress(o, st, len)
  {
    if len < 6 || Be16(st.data, st.eh.value + 12) != TYPE_PPPOE_SESS then Stop(st)
    else Next(Push(cfg, st, Pppoe, off, 6), DoPpp, off + 6, len - 6)
  }

  /** The PPP protocol field, one octet when its low bit is set. */
  function PppProtocol(d: seq<byte>, off: nat): (r: (nat, nat))
    requires off + 2 <= |d|
  {
    if d[off] % 2 == 1 then (1, d[off]) else (2, Be16(d, off))
  }

  /** The shared end of the two PPP branches that carry IPv4. */
  function AfterPpp(cfg: Config, st: State, off: nat, len: nat, hlen: nat): (o: Outcome)
    requires Ready(st, DoPpp, off, len) && 1 <= hlen <= len
    ensures Progress(o, st, len)
  {
    Next(Push(cfg, st, PppEncap, off, hlen), DoIp, off + hlen, len - hlen)
  }

  function StepPpp(cfg: Config, st: State, off: nat, len: nat): (o: Outcome)
    requires Ready(st, DoPpp, off, len)
    ensures Progress(o, st, len)
  {
    if len < 2 then Stop(st)
    else
      var (hlen, protocol) := PppProtocol(st.data, off);
      if protocol == PPP_VJ_UCOMP then
        if len < hlen + 20 then Stop(st)
        else AfterPpp(cfg, st.(data := st.data[off + hlen + 9 := PROTO_TCP]), off, len, hlen)
      else if protocol == PPP_IP then AfterPpp(cfg, st, off, len, hlen)
      else if protocol == PPP_IPX then
        Stop(Push(cfg, st, PppEncap, off, hlen))
      else Stop(st)
  }

  function StepArp(cfg: Config, st: State, off: nat, len: nat): Outcome {
    if len < 28 then Stop(st) else Stop(Push(cfg, st, Arp, off, 28))
  }

  /** Without IPv6 support this decoder only looks for one fragment pattern; it
      pushes nothing, and a slice too short for a header unsets `iph`. */
  function StepIpv6(st: State, len: nat): Outcome {
    if len < 40 then Stop(st.(iph := None)) else Stop(st)
  }

  // ----------------------------------------------------------------- IPv4, ESP

  /** Is the header at `off` sound, for a slice of `len` octets? */
  predicate Ip4Sound(d: seq<byte>, off: nat, len: nat)
    requires len >= 20 && off + len <= |d|
  {
    && d[off] / 16 == 4
    && 20 <= d[off] % 16 * 4 <= Be16(d, off + 2) <= len
  }

  /** The decoder that an IPv4 protocol number names. */
  function OfIpProto(cfg: Config, proto: byte): Option<Call> {
    if proto == PROTO_TCP then Some(DoTcp)
    else if proto == PROTO_UDP then Some(DoUdp)
    else if proto == PROTO_ICMP then Some(DoIcmp)
    else if proto == PROTO_IPV6 then Some(DoIpv6)
    else if proto == PROTO_GRE then Some(DoGre)
    else if proto == PROTO_IPIP then Some(DoIp)
    else if proto == PROTO_ESP && cfg.espDecoding then Some(DoEsp)
    else None
  }

  /** Is the datagram at `off` a fragment: at an offset, or with more to come? */
  predicate IsFragment(d: seq<byte>, off: nat)
    requires off + 8 <= |d|
  {
    Be16(d, off + 6) % 0x2000 != 0 || Be16(d, off + 6) / 0x2000 % 2 == 1
  }

  /** Only an unfragmented datagram, or the first fragment of a UDP one, is
      decoded further. */
  function BelowIp(cfg: Config, d: seq<byte>, off: nat): Option<Call>
    requires off + 20 <= |d|
  {
    if IsFragment(d, off) && (Be16(d, off + 6) % 0x2000 != 0 || d[off + 9] != PROTO_UDP) then None
    else OfIpProto(cfg, d[off + 9])
  }

  /** Behind a sound IPv4 header. */
  function AfterIp(cfg: Config, st: State, off: nat, len: nat): (o: Outcome)
    requires Ready(st.(iph := None), DoIp, off, len) && st.iph == Some(off)
    requires len >= 20 && Ip4Sound(st.data, off, len)
    ensures Progress(o, st, len)
  {
    var hlen := st.data[off] % 16 * 4;
    Dispatch(Push(cfg, st, Ip4, off, hlen).(fragmented := IsFragment(st.data, off)), BelowIp(cfg, st.data, off),
             off + hlen, Be16(st.data, off + 2) - hlen)
  }

  function StepIp(cfg: Config, st: State, off: nat, len: nat): (o: Outcome)
    requires Ready(st, DoIp, off, len)
    ensures Progress(o, st, len)
  {
    if len < 20 then Stop(st.(iph := None))
    else if st.iph.Some? && st.encapsulated then Stop(st)
    else
      var st1 := st.(encapsulated := st.encapsulated || st.iph.Some?, iph := Some(off));
      if Ip4Sound(st.data, off, len) then AfterIp(cfg, st1, off, len) else Stop(st1.(iph := None))
  }

  /** The decoder that the next-header octet of an ESP trailer names. */
  function OfEspNext(next: byte): Option<Call> {
    if next == PROTO_IPIP then Some(DoIp)
    else if next == PROTO_IPV6 then Some(DoIpv6)
    else if next == PROTO_TCP then Some(DoTcp)
    else if next == PROTO_UDP then Some(DoUdp)
    else if next == PROTO_ICMP then Some(DoIcmp)
    else if next == PROTO_GRE then Some(DoGre)
    else None
  }

  /** An ESP slice whose padding fits: an 8-octet header, the payload and its
      padding, a 2-octet trailer, 12 octets of authentication data. */
  predicate EspSound(d: seq<byte>, off: nat, len: nat)
    requires off + len <= |d|
  {
    len >= 22 && d[off + len - 14] as int < len - 22
  }

  /** The flag that silences alerts goes up before the payload is handed on. */
  function AfterEsp(st: State, off: nat, len: nat): (o: Outcome)
    requires Ready(st, DoEsp, off, len) && EspSound(st.data, off, len)
    ensures Progress(o, st, len)
  {
    Dispatch(st.(unsure := true), OfEspNext(st.data[off + len - 13]), off + 8, len - 22 - st.data[off + len - 14])
  }

  /** No layer is pushed. */
  function StepEsp(st: State, off: nat, len: nat): (o: Outcome)
    requires Ready(st, DoEsp, off, len)
    ensures Progress(o, st, len)
  {
    if !EspSound(st.data, off, len) then Stop(st)
    else
      var o := AfterEsp(st, off, len);
      if o.Stop? then Stop(o.st.(unsure := false)) else o
  }

  // ------------------------------------------------------------- GRE, UDP, GTP

  function OfGreType(t: uint16): Option<Call> {
    if t == TYPE_BRIDGING then Some(DoBridge)
    else if t == GreHeader.TYPE_PPP then Some(DoPpp)
    else if t == TYPE_PPPOE_DISC || t == TYPE_PPPOE_SESS then None
    else OfEtherType(t)
  }

  /** Behind a GRE header of `hlen` octets. */
  function AfterGre(cfg: Config, st: State, off: nat, len: nat, hlen: nat): (o: Outcome)
    requires Ready(st, DoGre, off, len) && 4 <= hlen <= len
    ensures Progress(o, st, len)
  {
    var st1 := Push(cfg, st, Gre, off, hlen);
    var next := OfGreType(Be16(st.data, off + 2));
    Dispatch(if next == Some(DoArp) then st1.(iph := None) else st1, next, off + hlen, len - hlen)
  }

  function StepGre(cfg: Config, st: State, off: nat, len: nat): (o: Outcome)
    requires Ready(st, DoGre, off, len)
    ensures Progress(o, st, len)
  {
    var hlen := GreHeader.Length(st.data[off..off + len]);
    if st.encapsulated || hlen.None? then Stop(st) else AfterGre(cfg, st, off, len, hlen.value)
  }

  /** The IPv4 pseudo-header: addresses, zero, protocol, length. */
  function PseudoHeader(st: State, length: uint16): (h: seq<byte>)
    requires st.iph.Some? && st.iph.value + 20 <= |st.data|
    ensures |h| == 12
  {
    var ip := st.iph.value;
    st.data[ip + 12..ip + 20] + [0, st.data[ip + 9]] + Be16Bytes(length)
  }

  /** The length of the datagram: its own field, or for a fragment what the
      IPv4 header leaves, in 16 bits. */
  function UdpLength(st: State, off: nat): uint16
    requires st.iph.Some? && st.iph.value + 20 <= |st.data| && off + 8 <= |st.data|
  {
    if !st.fragmented then Be16(st.data, off + 4)
    else (Be16(st.data, st.iph.value + 2) - st.data[st.iph.value] % 16 * 4) % 0x1_0000
  }

  predicate UdpChecksumBad(cfg: Config, st: State, off: nat, len: nat)
    requires Ready(st, DoUdp, off, len) && len >= 8
  {
    && cfg.udpChecksums
    && !st.fragmented
    && Be16(st.data, off + 6) != 0
    && Checksum.Rfc1071(cfg.host, PseudoHeader(st, Be16(st.data, off + 4)) + st.data[off..off + len]) != 0
  }

  function StepUdp(cfg: Config, st: State, off: nat, len: nat): (o: Outcome)
    requires Ready(st, DoUdp, off, len)
    ensures Progress(o, st, len)
  {
    if len < 8 || UdpLength(st, off) < 8 || UdpLength(st, off) != len then Stop(st)
    else if UdpChecksumBad(cfg, st, off, len) && st.unsure then Stop(st)
    else
      var st1 := Push(cfg, st, Udp, off, 8);
      var sp, dp := Be16(st.data, off), Be16(st.data, off + 2);
      if sp in cfg.ignoredUdpPorts || dp in cfg.ignoredUdpPorts then Stop(st1)
      else if cfg.gtpDecoding && (sp in cfg.gtpPorts || dp in cfg.gtpPorts) && !st.fragmented then
        Next(st1, DoGtp, off + 8, len - 8)
      else Stop(st1)
  }

  /** The decoder that the first half-octet of an IP header names. */
  function OfIpVersion(version: nat): Option<Call> {
    if version == 4 then Some(DoIp) else if version == 6 then Some(DoIpv6) else None
  }

  /** Behind a GTP header of `hlen` octets. */
  function AfterGtp(cfg: Config, st: State, off: nat, len: nat, hlen: nat): (o: Outcome)
    requires Ready(st, DoGtp, off, len) && 8 <= hlen <= len
    ensures Progress(o, st, len)
  {
    var next := if hlen < len then OfIpVersion(st.data[off + hlen] / 16) else None;
    Dispatch(Push(cfg, st, Gtp, off, hlen), next, off + hlen, len - hlen)
  }

  /** With a payload of neither version GTP still lowers the flag. */
  function StepGtp(cfg: Config, st: State, off: nat, len: nat): (o: Outcome)
    requires Ready(st, DoGtp, off, len)
    ensures Progress(o, st, len)
  {
    var hlen := GtpHeader.Length(st.data[off..off + len]);
    if st.gtpEncapsulated then Stop(st)
    else if hlen.None? then Stop(st.(gtpEncapsulated := true))
    else
      var o := AfterGtp(cfg, st.(gtpEncapsulated := true), off, len, hlen.value);
      if o.Stop? && hlen.value < len then Stop(o.st.(unsure := false)) else o
  }

  // ------------------------------------------------------------------ TCP, ICMP

  predicate TcpChecksumBad(cfg: Config, st: State, off: nat, len: nat)
    requires Ready(st, DoTcp, off, len)
  {
    && cfg.tcpChecksums
    && Checksum.Rfc1071(cfg.host, PseudoHeader(st, len) + st.data[off..off + len]) != 0
  }

  function StepTcp(cfg: Config, st: State, off: nat, len: nat): (o: Outcome)
    requires Ready(st, DoTcp, off, len)
    ensures Progress(o, st, len)
  {
    if len < 20 then Stop(st)
    else
      var hlen := st.data[off + 12] / 16 * 4;
      if hlen < 20 || hlen > len || (TcpChecksumBad(cfg, st, off, len) && st.unsure) then Stop(st)
      else Stop(Push(cfg, st, Tcp, off, hlen))
  }

  /** The octets an ICMP message of this type must have, and those its layer
      gets. */
  function IcmpNeeds(kind: byte): nat {
    match kind
    case 0 | 3 | 4 | 5 | 8 | 9 | 10 | 11 | 12 | 15 | 16 => 8
    case 13 | 14 => 20
    case 17 | 18 => 12
    case _ => 4
  }

  function IcmpLayer(kind: byte): nat {
    match kind
    case 0 | 3 | 4 | 5 | 8 | 11 | 12 => 8
    case _ => 4
  }

  function StepIcmp(cfg: Config, st: State, off: nat, len: nat): (o: Outcome)
    requires Ready(st, DoIcmp, off, len)
    ensures Progress(o, st, len)
  {
    if len < 4 || len < IcmpNeeds(st.data[off]) then Stop(st)
    else Stop(Push(cfg, st, Icmp4, off, IcmpLayer(st.data[off])))
  }

  // -------------------------------------------------------------- the machine

  function Step(cfg: Config, st: State, call: Call, off: nat, len: nat): (o: Outcome)
    requires Ready(st, call, off, len)
    ensures Progress(o, st, len)
  {
    match call
    case DoEth => StepEth(cfg, st, off, len)
    case DoBridge => StepBridge(cfg, st, off, len)
    case DoVlan => StepVlan(cfg, st, off, len)
    case DoPppoe => StepPppoe(cfg, st, off, len)
    case DoPpp => StepPpp(cfg, st, off, len)
    case DoArp => StepArp(cfg, st, off, len)
    case DoIp => StepIp(cfg, st, off, len)
    case DoIpv6 => StepIpv6(st, len)
    case DoGre => StepGre(cfg, st, off, len)
    case DoEsp => StepEsp(st, off, len)
    case DoUdp => StepUdp(cfg, st, off, len)
    case DoGtp => StepGtp(cfg, st, off, len)
    case DoTcp => StepTcp(cfg, st, off, len)
    case DoIcmp => StepIcmp(cfg, st, off, len)
  }

  /** What a decoder does after the one it called returns: ESP and GTP lower
      the flag that silences alerts. */
  function Leave(call: Call, st: State): State {
    if call.DoEsp? || call.DoGtp? then st.(unsure := false) else st
  }

  /** The whole decoding from one call on. */
  function Run(cfg: Config, st: State, call: Call, off: nat, len: nat): (r: State)
    requires Ready(st, call, off, len)
    ensures |r.data| == |st.data|
    decreases len
  {
    match Step(cfg, st, call, off, len)
    case Stop(st') => st'
    case Next(st', call', off', len') => Leave(call, Run(cfg, st', call', off', len'))
  }

  /** Decoding a captured Ethernet frame. */
  function Decode(cfg: Config, data: seq<byte>): State {
    Run(cfg, Initial(data), DoEth, 0, |data|)
  }
}
