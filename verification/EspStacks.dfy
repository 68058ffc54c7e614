/** Whole frames with a transport header right inside ESP, as their sender
    builds them: with its own protocol number in the checksum. */
module EspStacks {
  import opened Bytes
  import opened Checksum
  import opened ChecksumLaws
  import opened DecoderModel
  import opened Frames
  import opened DecoderStacks
  import opened EspChecksums

  /** The checksum is the one the sender computes. */
  predicate SenderRight(cfg: Config, addresses: seq<byte>, f: Frame)
    requires f.TcpF? || f.UdpF?
  {
    var segment := Encode(f);
    if f.TcpF? then Rfc1071(cfg.host, Summed(addresses, PROTO_TCP, |segment| % 0x1_0000, segment)) == 0
    else Rfc1071(cfg.host, Summed(addresses, PROTO_UDP, f.length, segment)) == 0
  }

  /** Is the checksum of this segment looked at inside ESP? */
  predicate SumCounts(cfg: Config, ctx: Context, f: Frame) {
    (f.TcpF? && cfg.tcpChecksums) || (f.UdpF? && cfg.udpChecksums && !ctx.fragmented && f.check != 0)
  }

  /** Right inside ESP a sender's right checksum is refused wherever it is looked at. */
  lemma RightIsRefused(cfg: Config, ctx: Context, f: Frame)
    requires (f.TcpF? || f.UdpF?) && ctx.unsure && ctx.proto == PROTO_ESP && |ctx.addresses| == 8
    requires SenderRight(cfg, ctx.addresses, f)
    ensures SumRefused(cfg, ctx, f) <==> SumCounts(cfg, ctx, f)
  {
    var segment := Encode(f);
    if f.TcpF? {
      ProtocolCounts(cfg.host, ctx.addresses, PROTO_TCP, PROTO_ESP, |segment| % 0x1_0000, segment);
    } else {
      ProtocolCounts(cfg.host, ctx.addresses, PROTO_UDP, PROTO_ESP, f.length, segment);
    }
  }

  /** Ethernet, IPv4, ESP, and a TCP segment that its sender summed. */
  predicate IsEspStack(cfg: Config, f: Frame) {
    && f.EthF? && f.below.IpF? && f.below.below.EspF? && f.below.below.below.TcpF?
    && |f.below.addresses| == 8
    && SenderRight(cfg, f.below.addresses, f.below.below.below)
  }

  lemma {:induction false} EspBelowIp(cfg: Config, ctx: Context, ip: Frame, off: nat)
    requires ip.IpF? && ip.below.EspF? && ip.below.below.TcpF? && ip.below.below.below.Opaque?
    requires |ip.addresses| == 8 && SenderRight(cfg, ip.addresses, ip.below.below) && !ctx.unsure
    ensures Protos(Layers(cfg, Under(ctx, ip), ip.below, off)) == if cfg.tcpChecksums then [] else [Tcp]
  {
    var esp, c1 := ip.below, Under(ctx, ip);
    var c2, head := Under(c1, esp), |Head(esp, |Encode(esp.below)|)|;
    RightIsRefused(cfg, c2, esp.below);
    assert Layers(cfg, c1, esp, off) == [] + Layers(cfg, c2, esp.below, off + head);
    if cfg.tcpChecksums {
      NothingMore(cfg, c2, esp.below, off + head);
    } else {
      OnlyTcp(cfg, c2, esp.below, off + head);
    }
  }

  lemma OnlyTcp(cfg: Config, ctx: Context, f: Frame, off: nat)
    requires f.TcpF? && f.below.Opaque? && !Refused(cfg, ctx, f)
    ensures Protos(Layers(cfg, ctx, f, off)) == [Tcp]
  {
    var c, at, rest := HeaderFirst(cfg, ctx, f, off);
    NothingMore(cfg, c, f.below, at);
  }

  lemma {:induction false} EspStackProtos(cfg: Config, f: Frame)
    requires IsEspStack(cfg, f) && f.below.below.below.below.Opaque?
    ensures Protos(Layers(cfg, Outermost(), f, 0)) == [Eth, Ip4] + if cfg.tcpChecksums then [] else [Tcp]
  {
    var c1, at1, r1 := HeaderFirst(cfg, Outermost(), f, 0);
    var c2, at2, r2 := HeaderFirst(cfg, c1, f.below, at1);
    EspBelowIp(cfg, c1, f.below, at2);
  }

  /** With TCP checksums verified only the headers above ESP are recorded. */
  lemma {:induction false} EspStackDecodes(cfg: Config, f: Frame)
    requires IsEspStack(cfg, f) && WellFormed(cfg, Outermost(), f) && cfg.layerMax >= 3
    ensures Protos(Decode(cfg, Encode(f)).layers) == if cfg.tcpChecksums then [Eth, Ip4] else [Eth, Ip4, Tcp]
  {
    TcpCarriesNothing(cfg, f);
    EspStackProtos(cfg, f);
    DecodedProtos(cfg, f, [Eth, Ip4] + if cfg.tcpChecksums then [] else [Tcp]);
  }

  lemma TcpCarriesNothing(cfg: Config, f: Frame)
    requires IsEspStack(cfg, f) && WellFormed(cfg, Outermost(), f)
    ensures f.below.below.below.below.Opaque?
  {
    var c1 := Under(Outermost(), f);
    var c2 := Under(c1, f.below);
    var c3 := Under(c2, f.below.below);
    assert WellFormed(cfg, c1, f.below);
    assert WellFormed(cfg, c2, f.below.below);
    assert WellFormed(cfg, c3, f.below.below.below);
  }

  // ------------------------------------------------------------------ a capture

  function Zeros(n: nat): (s: seq<byte>)
    ensures |s| == n && forall i :: 0 <= i < n ==> s[i] == 0
  {
    seq(n, _ => 0)
  }

  /** A TCP header of zeros, but for its length and its checksum. */
  function ZeroTcp(a: byte, b: byte): Frame {
    TcpF(Zeros(12), 0, [0, 0, 0, a, b, 0, 0], [], Opaque(0, []))
  }

  lemma ZeroTcpOctets(a: byte, b: byte)
    ensures Encode(ZeroTcp(a, b)) == Zeros(12) + [0x50] + [0, 0, 0, a, b, 0, 0]
  {
    var f := ZeroTcp(a, b);
    assert Head(f, 0) == Zeros(12) + [0x50] + [0, 0, 0, a, b, 0, 0] + [];
    assert Encode(f) == Head(f, 0) + [] + [];
  }

  /** The checksum that its sender stores. */
  lemma StoredTcp(cfg: Config) returns (a: byte, b: byte)
    ensures SenderRight(cfg, Zeros(8), ZeroTcp(a, b))
  {
    var plain := Zeros(12) + [0x50] + [0, 0, 0, 0, 0, 0, 0];
    var d := Summed(Zeros(8), PROTO_TCP, 20, plain);
    WordAt(cfg.host, d, 14);
    assert d[28] == plain[16] == 0 && d[29] == plain[17] == 0;
    StoredChecksumVerifies(cfg.host, d, 14);
    var v := Rfc1071(cfg.host, d);
    a, b := WordBytes(cfg.host, v).0, WordBytes(cfg.host, v).1;
    ZeroTcpOctets(a, b);
    var stored := Zeros(12) + [0x50] + [0, 0, 0, a, b, 0, 0];
    assert StoreWord(cfg.host, d, 14, v) == Summed(Zeros(8), PROTO_TCP, 20, stored);
  }

  lemma EspFrameOk(cfg: Config, ctx: Context, tcp: Frame, esp: Frame)
    requires esp == EspF(Zeros(8), tcp, [], Zeros(12))
    requires tcp.TcpF? && HeaderOk(cfg, Under(ctx, esp), tcp) && |Encode(tcp)| == 20
    ensures WellFormed(cfg, ctx, esp) && |Encode(esp)| == 42
  {
    assert |Tail(esp)| == 14;
    assert WellFormed(cfg, Under(ctx, esp), tcp);
  }

  lemma IpFrameOk(cfg: Config, ctx: Context, esp: Frame, ip: Frame)
    requires ip == IpF(0, Zeros(2), 0, 64, Zeros(2), Zeros(8), [], esp, [])
    requires cfg.espDecoding && esp.EspF? && |Encode(esp)| == 42 && WellFormed(cfg, Under(ctx, ip), esp)
    ensures WellFormed(cfg, ctx, ip)
  {
  }

  /** A capture of 76 octets with a TCP checksum that its sender got right: with
      checksums verified TCP is not recorded, without it is. */
  lemma EspCapture(cfg: Config) returns (f: Frame)
    requires cfg.espDecoding && cfg.layerMax >= 3
    ensures IsEspStack(cfg, f) && WellFormed(cfg, Outermost(), f)
    ensures Protos(Decode(cfg, Encode(f)).layers) == if cfg.tcpChecksums then [Eth, Ip4] else [Eth, Ip4, Tcp]
  {
    var a, b := StoredTcp(cfg);
    var tcp := ZeroTcp(a, b);
    ZeroTcpOctets(a, b);
    var esp := EspF(Zeros(8), tcp, [], Zeros(12));
    var ip := IpF(0, Zeros(2), 0, 64, Zeros(2), Zeros(8), [], esp, []);
    f := EthF(Zeros(12), ip);
    var c1 := Under(Outermost(), f);
    EspFrameOk(cfg, Under(c1, ip), tcp, esp);
    IpFrameOk(cfg, c1, esp, ip);
    assert HeaderOk(cfg, Outermost(), f);
    EspStackDecodes(cfg, f);
  }
}
