/** Whole frames as a sender builds them: a stack of headers, each around what
    it carries. Which stacks the decoder should follow, and the layers it
    should then record. */
module Frames {
  import opened Bytes
  import opened DecoderModel
  import Checksum
  import GreHeader
  import GtpHeader

  datatype Frame =
    | Opaque(kind: nat, payload: seq<byte>)
    | EthF(addresses: seq<byte>, below: Frame)
    | VlanF(tag: seq<byte>, below: Frame)
    | PppoeF(fields: seq<byte>, below: Frame)
    | PppF(compressed: bool, slot: Option<byte>, below: Frame)
    | ArpF(reverse: bool, body: seq<byte>, below: Frame)
    | IpF(tos: byte, ident: seq<byte>, frag: uint16, ttl: byte, checksum: seq<byte>, addresses: seq<byte>,
          options: seq<byte>, below: Frame, trailer: seq<byte>)
    | EspF(header: seq<byte>, below: Frame, padding: seq<byte>, auth: seq<byte>)
    | GreF(gre: GreHeader.Header, below: Frame)
    | UdpF(sp: uint16, dp: uint16, length: uint16, check: uint16, below: Frame)
    | GtpF(gtp: GtpHeader.Header, below: Frame)
    | TcpF(ports: seq<byte>, low: byte, window: seq<byte>, options: seq<byte>, below: Frame)
    | IcmpF(message: byte, body: seq<byte>, below: Frame)

  // ------------------------------------------------------ the type fields above

  function EtherTypeOf(f: Frame): uint16 {
    match f
    case Opaque(kind, _) => kind % 0x1_0000
    case VlanF(_, _) => 0x8100
    case PppoeF(_, _) => 0x8864
    case ArpF(reverse, _, _) => if reverse then 0x8035 else 0x0806
    case IpF(_, _, _, _, _, _, _, _, _) => 0x0800
    case EthF(_, _) => 0x6558
    case PppF(_, _, _) => 0x880b
    case _ => 0
  }

  function IpProtoOf(f: Frame): byte {
    match f
    case Opaque(kind, _) => kind % 256
    case IcmpF(_, _, _) => 1
    case IpF(_, _, _, _, _, _, _, _, _) => 4
    case TcpF(_, _, _, _, _) => 6
    case UdpF(_, _, _, _, _) => 17
    case GreF(_, _) => 47
    case EspF(_, _, _, _) => 50
    case _ => 255
  }

  function PppProtoOf(f: Frame): uint16 {
    if f.Opaque? then f.kind % 0x1_0000 else 0x21
  }

  /** With Van Jacobson compression (RFC 1144) a TCP segment may go out as it is,
      but for the protocol number of its IPv4 header: a slot number is in its
      place, and PPP says so. */
  function PppNumber(slot: Option<byte>, below: Frame): uint16 {
    if slot.Some? then 0x2f else PppProtoOf(below)
  }

  function Carried(f: Frame, inner: seq<byte>): (s: seq<byte>)
    ensures |s| == |inner|
  {
    if f.PppF? && f.slot.Some? && |inner| > 9 then inner[9 := f.slot.value] else inner
  }

  // ------------------------------------------------------------------ encoding

  /** The header of `f`, around `n` octets. */
  function Head(f: Frame, n: nat): seq<byte>
    requires !f.Opaque?
  {
    match f
    case EthF(addresses, below) => addresses + Be16Bytes(EtherTypeOf(below))
    case VlanF(tag, below) => tag + Be16Bytes(EtherTypeOf(below))
    case PppoeF(fields, _) => fields
    case PppF(compressed, slot, below) =>
      if compressed then [PppNumber(slot, below) % 256] else Be16Bytes(PppNumber(slot, below))
    case ArpF(_, body, _) => body
    case IpF(tos, ident, frag, ttl, checksum, addresses, options, below, _) =>
      IpStart(tos, |options|, n) + ident + Be16Bytes(frag) + [ttl, IpProtoOf(below)] + checksum + addresses + options
    case EspF(header, _, _, _) => header
    case GreF(gre, _) => GreHeader.Encode(gre)
    case UdpF(sp, dp, length, check, _) => Be16Bytes(sp) + Be16Bytes(dp) + Be16Bytes(length) + Be16Bytes(check)
    case GtpF(gtp, _) => GtpHeader.Encode(gtp, GtpLength(gtp, n))
    case TcpF(ports, low, window, options, _) => ports + [(5 + |options| / 4) % 16 * 16 + low % 16] + window + options
    case IcmpF(message, body, _) => [message] + body
  }

  /** Version, header length, type of service, total length. */
  function IpStart(tos: byte, options: nat, n: nat): (s: seq<byte>)
    ensures |s| == 4
  {
    [0x40 + (5 + options / 4) % 16, tos] + Be16Bytes((20 + options + n) % 0x1_0000)
  }

  /** The length field that counts everything it should. */
  function GtpLength(h: GtpHeader.Header, n: nat): uint16 {
    var counted := |GtpHeader.Encode(h, 0)| + n - GtpHeader.Uncounted(h);
    if 0 <= counted < 0x1_0000 then counted else 0
  }

  /** What comes behind the payload. */
  function Tail(f: Frame): seq<byte>
    requires !f.Opaque?
  {
    match f
    case IpF(_, _, _, _, _, _, _, _, trailer) => trailer
    case EspF(_, below, padding, auth) => padding + [|padding| % 256, IpProtoOf(below)] + auth
    case _ => []
  }

  function Encode(f: Frame): seq<byte> {
    if f.Opaque? then f.payload
    else
      var inner := Encode(f.below);
      Head(f, |inner|) + Carried(f, inner) + Tail(f)
  }

  // ------------------------------------------------------- the frames considered

  /** What a header must know of those around it: how many IPv4 headers there
      are, whether GTP and ESP are among them, whether the Ethernet header just
      above announced PPPoE, and of the last IPv4 header its addresses, its
      protocol, whether it is that of a fragment, and the length of what it
      carries. */
  datatype Context = Context(depth: nat, gtp: bool, unsure: bool, pppoe: bool,
                             addresses: seq<byte>, proto: byte, fragmented: bool, rest: nat)

  function Outermost(): Context {
    Context(0, false, false, false, [], 0, false, 0)
  }

  function Under(ctx: Context, f: Frame): Context
    requires !f.Opaque?
  {
    match f
    case EthF(_, below) => ctx.(pppoe := EtherTypeOf(below) == 0x8864)
    case IpF(_, _, frag, _, _, addresses, _, below, _) =>
      ctx.(depth := ctx.depth + 1, addresses := addresses, proto := IpProtoOf(below),
           fragmented := FragOffset(frag) != 0 || MoreFragments(frag), rest := |Encode(below)|)
    case EspF(_, _, _, _) => ctx.(unsure := true)
    case GtpF(_, _) => ctx.(gtp := true)
    case _ => ctx
  }

  function FragOffset(frag: uint16): nat {
    frag % 0x2000
  }

  predicate MoreFragments(frag: uint16) {
    frag / 0x2000 % 2 == 1
  }

  /** What Ethernet may carry: another decoded header, or a type that none has. */
  predicate EtherCarries(below: Frame) {
    || below.ArpF? || below.VlanF? || below.IpF?
    || (below.Opaque? && EtherTypeOf(below) !in [0x0800, 0x0806, 0x8035, 0x8100, 0x8863, 0x8864])
  }

  /** A PPPoE type over something that the decoder of PPPoE leaves alone, given
      whether the Ethernet header announced a session. */
  predicate PppoeIdle(pppoe: bool, below: Frame) {
    below.Opaque? && EtherTypeOf(below) in [0x8863, 0x8864] && (!pppoe || |below.payload| < 6)
  }

  predicate GreCarries(below: Frame) {
    || below.EthF? || below.PppF? || below.ArpF? || below.VlanF? || below.IpF?
    || (below.Opaque? && EtherTypeOf(below) !in [0x0800, 0x0806, 0x8035, 0x8100, 0x6558, 0x880b])
  }

  /** Inside a fragment only the head of a UDP datagram is decoded. */
  predicate IpCarries(cfg: Config, frag: uint16, below: Frame) {
    if FragOffset(frag) != 0 then below.Opaque?
    else if MoreFragments(frag) then below.UdpF? || (below.Opaque? && IpProtoOf(below) != 17)
    else
      || below.TcpF? || below.UdpF? || below.IcmpF? || below.GreF? || below.IpF?
      || (below.EspF? && cfg.espDecoding)
      || (below.Opaque? && IpProtoOf(below) !in [1, 4, 6, 17, 47] && (IpProtoOf(below) == 50 ==> !cfg.espDecoding))
  }

  predicate EspCarries(below: Frame) {
    || below.TcpF? || below.UdpF? || below.IcmpF? || below.GreF? || below.IpF?
    || (below.Opaque? && IpProtoOf(below) !in [1, 4, 6, 17, 47])
  }

  predicate GtpPort(cfg: Config, sp: uint16, dp: uint16) {
    && cfg.gtpDecoding
    && (sp in cfg.gtpPorts || dp in cfg.gtpPorts)
    && sp !in cfg.ignoredUdpPorts && dp !in cfg.ignoredUdpPorts
  }

  /** A datagram on a GTP port that the decoder of GTP leaves alone. */
  predicate GtpIdle(ctx: Context, below: Frame) {
    below.Opaque? && (ctx.gtp || GtpHeader.Length(below.payload).None?)
  }

  predicate GtpCarries(below: Frame) {
    below.IpF? || (below.Opaque? && (below.payload == [] || below.payload[0] / 16 != 4))
  }

  /** Does the Internet checksum over the pseudo-header of `ctx` and the segment
      come out zero? */
  predicate SumsUp(cfg: Config, ctx: Context, segment: seq<byte>, length: uint16) {
    Checksum.Rfc1071(cfg.host, ctx.addresses + [0, ctx.proto] + Be16Bytes(length) + segment) == 0
  }

  /** Are the fields of the header right, and can it carry what it does? */
  predicate HeaderOk(cfg: Config, ctx: Context, f: Frame)
    requires !f.Opaque?
  {
    var n := |Encode(f.below)|;
    match f
    case EthF(addresses, below) =>
      && |addresses| == 12
      && (|| EtherCarries(below)
          || (ctx.depth == 0 && below.PppoeF?)
          || PppoeIdle(ctx.depth == 0 && EtherTypeOf(below) == 0x8864, below))
    case VlanF(tag, below) =>
      && |tag| == 2
      && (EtherCarries(below) || below.PppoeF? || PppoeIdle(ctx.pppoe, below))
      && EtherTypeOf(below) > 1518
    case PppoeF(fields, below) => |fields| == 6 && below.PppF?
    case PppF(compressed, slot, below) =>
      && (below.IpF? || (below.Opaque? && PppProtoOf(below) !in [0x21, 0x2f]))
      && (slot.Some? ==> below.IpF? && IpProtoOf(below.below) == 6)
      && (if compressed then PppNumber(slot, below) < 256 && PppNumber(slot, below) % 2 == 1 && n > 0
          else PppNumber(slot, below) / 256 % 2 == 0)
    case ArpF(_, body, below) => |body| == 28 && below.Opaque?
    case IpF(_, ident, frag, _, checksum, addresses, options, below, _) =>
      && |ident| == 2 && |checksum| == 2 && |addresses| == 8
      && |options| % 4 == 0 && |options| <= 40
      && 20 + |options| + n < 0x1_0000
      && IpCarries(cfg, frag, below)
    case EspF(header, below, padding, auth) =>
      |header| == 8 && n > 0 && |padding| < 256 && |auth| == 12 && EspCarries(below)
    case GreF(gre, below) =>
      && GreHeader.WellFormed(gre)
      && GreCarries(below)
      && EtherTypeOf(below) == if gre.V0? then gre.proto else GreHeader.TYPE_PPP
    case UdpF(sp, dp, length, _, below) =>
      && 8 + n < 0x1_0000
      && (if ctx.fragmented then ctx.rest == 8 + n else length == 8 + n)
      && (if !ctx.fragmented && GtpPort(cfg, sp, dp) then below.GtpF? || GtpIdle(ctx, below) else below.Opaque?)
    case GtpF(gtp, below) =>
      && GtpHeader.WellFormed(gtp)
      && |GtpHeader.Encode(gtp, 0)| + n < 0x1_0000
      && GtpCarries(below)
    case TcpF(ports, low, window, options, below) =>
      && |ports| == 12 && low < 16 && |window| == 7
      && |options| % 4 == 0 && |options| <= 40
      && 20 + |options| + n < 0x1_0000
      && below.Opaque?
    case IcmpF(message, body, below) =>
      1 + |body| >= IcmpNeeds(message) && below.Opaque?
  }

  predicate WellFormed(cfg: Config, ctx: Context, f: Frame)
    decreases f
  {
    f.Opaque? || (HeaderOk(cfg, ctx, f) && WellFormed(cfg, Under(ctx, f), f.below))
  }

  // ------------------------------------------------- what should come of a frame

  /** Is a segment right inside ESP left unrecorded for its checksum? The sum is
      taken with the protocol number of the last IPv4 header. */
  predicate SumRefused(cfg: Config, ctx: Context, f: Frame) {
    && ctx.unsure
    && ((f.UdpF? && cfg.udpChecksums && !ctx.fragmented && f.check != 0 && !SumsUp(cfg, ctx, Encode(f), f.length))
        || (f.TcpF? && cfg.tcpChecksums && !SumsUp(cfg, ctx, Encode(f), |Encode(f)| % 0x1_0000)))
  }

  /** Well-formed headers that are not recorded, nor anything below them: a third
      IPv4 header, GRE under the second one, a second GTP header, PPPoE where the
      Ethernet header last laid is not of its session type, a segment inside ESP
      whose checksum does not come out. */
  predicate Refused(cfg: Config, ctx: Context, f: Frame) {
    || ((f.IpF? || f.GreF?) && ctx.depth > 1)
    || (f.GtpF? && ctx.gtp)
    || (f.PppoeF? && !ctx.pppoe)
    || SumRefused(cfg, ctx, f)
  }

  function ProtoOf(f: Frame): Proto {
    match f
    case VlanF(_, _) => Vlan
    case PppoeF(_, _) => Pppoe
    case PppF(_, _, _) => PppEncap
    case ArpF(_, _, _) => Arp
    case IpF(_, _, _, _, _, _, _, _, _) => Ip4
    case GreF(_, _) => Gre
    case UdpF(_, _, _, _, _) => Udp
    case GtpF(_, _) => Gtp
    case TcpF(_, _, _, _, _) => Tcp
    case IcmpF(_, _, _) => Icmp4
    case _ => Eth
  }

  /** The layer of the header itself; ESP has none, PPP only before IPv4 and IPX,
      and that of ICMP ends where the data of the message begins. */
  function OwnLayer(f: Frame, off: nat, head: nat): seq<Layer> {
    if f.EspF? || (f.PppF? && PppProtoOf(f.below) !in [0x21, 0x2b]) then []
    else [Layer(ProtoOf(f), off, if f.IcmpF? then IcmpLayer(f.message) else head)]
  }

  /** One layer for each header, in the order of the headers, down to the first
      that is refused. */
  function Layers(cfg: Config, ctx: Context, f: Frame, off: nat): seq<Layer>
    decreases f
  {
    if f.Opaque? || Refused(cfg, ctx, f) then []
    else
      var head := |Head(f, |Encode(f.below)|)|;
      OwnLayer(f, off, head) + Layers(cfg, Under(ctx, f), f.below, off + head)
  }
}
