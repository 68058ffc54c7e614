/** The decoder as it runs: functions that call one another, fill the fields of
    one packet and push layers into its table. Each does what the machine does
    from the same call on. */
module Decoder {
  import opened Bytes
  import opened DecoderModel
  import Checksum
  import ChecksumRoutines
  import GreHeader
  import GtpHeader

  /** The state after an outcome, its next call decoded to the end. */
  function Carry(cfg: Config, o: Outcome): State
    requires o.Next? ==> Ready(o.st, o.call, o.off, o.len)
  {
    match o
    case Stop(st) => st
    case Next(st, call, off, len) => Run(cfg, st, call, off, len)
  }

  /** Only ESP and GTP do anything after the decoder they called returns. */
  lemma RunIsCarry(cfg: Config, st: State, call: Call, off: nat, len: nat)
    requires Ready(st, call, off, len)
    ensures Run(cfg, st, call, off, len) ==
            var o := Step(cfg, st, call, off, len);
            if o.Next? then Leave(call, Carry(cfg, o)) else o.st
  {
  }

  class Packet {
    const cfg: Config
    const layers: array<Layer>
    var nextLayer: nat
    var data: seq<byte>
    var eh: Option<nat>
    var iph: Option<nat>
    var encapsulated: bool
    var gtpEncapsulated: bool
    var fragmented: bool
    var unsure: bool

    constructor (cfg: Config, data: seq<byte>)
      ensures Valid() && fresh(layers) && this.cfg == cfg
      ensures View() == Initial(data)
    {
      this.cfg := cfg;
      layers := new Layer[cfg.layerMax](_ => Layer(Eth, 0, 0));
      nextLayer := 0;
      this.data := data;
      eh, iph := None, None;
      encapsulated, gtpEncapsulated, fragmented, unsure := false, false, false, false;
    }

    ghost predicate Valid()
      reads this
    {
      layers.Length == cfg.layerMax && nextLayer <= layers.Length
    }

    ghost function View(): State
      requires Valid()
      reads this, layers
    {
      State(data, layers[..nextLayer], eh, iph, encapsulated, gtpEncapsulated, fragmented, unsure)
    }

    method PushLayer(proto: Proto, start: nat, length: nat)
      requires Valid()
      modifies this`nextLayer, layers
      ensures Valid()
      ensures View() == Push(cfg, old(View()), proto, start, length)
    {
      if nextLayer < cfg.layerMax {
        layers[nextLayer] := Layer(proto, start, length % 0x1_0000);
        nextLayer := nextLayer + 1;
      }
    }

    /** Hands the slice to the decoder that a type or protocol field named. */
    method DecodeAs(next: Option<Call>, pkt: nat, len: nat)
      requires Valid() && (next.Some? ==> !next.value.DoEth? && Ready(View(), next.value, pkt, len))
      modifies this, layers
      ensures Valid()
      ensures View() == Carry(cfg, Dispatch(old(View()), next, pkt, len))
      decreases len, 2
    {
      if next.Some? {
        RunIsCarry(cfg, View(), next.value, pkt, len);
      }
      match next {
        case None =>
        case Some(DoEth) => assert false;
        case Some(DoBridge) => DecodeTransBridging(pkt, len);
        case Some(DoVlan) => DecodeVlan(pkt, len);
        case Some(DoPppoe) => DecodePPPoEPkt(pkt, len);
        case Some(DoPpp) => DecodePppPktEncapsulated(pkt, len);
        case Some(DoArp) => DecodeARP(pkt, len);
        case Some(DoIp) => DecodeIP(pkt, len);
        case Some(DoIpv6) => DecodeIPV6(pkt, len);
        case Some(DoGre) => DecodeGRE(pkt, len);
        case Some(DoEsp) => DecodeESP(pkt, len);
        case Some(DoUdp) => DecodeUDP(pkt, len);
        case Some(DoGtp) => DecodeGTP(pkt, len);
        case Some(DoTcp) => DecodeTCP(pkt, len);
        case Some(DoIcmp) => DecodeICMP(pkt, len);
      }
    }

    method DecodeEthPkt()
      requires Valid() && View() == Initial(data)
      modifies this, layers
      ensures Valid() && View() == Decode(cfg, old(data))
    {
      var capLen := |data|;
      if capLen < 14 {
        return;
      }
      eh := Some(0);
      PushLayer(Eth, 0, 14);
      DecodeAs(OfEtherType(Be16(data, 12)), 14, capLen - 14);
    }

    method DecodeTransBridging(pkt: nat, len: nat)
      requires Valid() && Ready(View(), DoBridge, pkt, len)
      modifies this, layers
      ensures Valid() && View() == Carry(cfg, StepBridge(cfg, old(View()), pkt, len))
      decreases len, 0
    {
      if len < 14 {
        return;
      }
      eh := Some(pkt);
      PushLayer(Eth, pkt, 14);
      var next := OfEtherType(Be16(data, pkt + 12));
      DecodeAs(if next == Some(DoPppoe) then None else next, pkt + 14, len - 14);
    }

    method DecodeVlan(pkt: nat, len: nat)
      requires Valid() && Ready(View(), DoVlan, pkt, len)
      modifies this, layers
      ensures Valid() && View() == Carry(cfg, StepVlan(cfg, old(View()), pkt, len))
      decreases len, 1
    {
      if len < 4 {
        iph := None;
        return;
      }
      if Be16(data, pkt + 2) <= MAX_LEN_ENCAP {
        DecodeVlanLlc(pkt, len);
      } else {
        PushLayer(Vlan, pkt, 4);
        DecodeAs(OfEtherType(Be16(data, pkt + 2)), pkt + 4, len - 4);
      }
    }

    /** The branch of the VLAN decoder for a tag with an LLC header behind it. */
    method DecodeVlanLlc(pkt: nat, len: nat)
      requires Valid() && Ready(View(), DoVlan, pkt, len) && IsLlc(View(), pkt, len)
      modifies this, layers
      ensures Valid() && View() == Carry(cfg, StepVlan(cfg, old(View()), pkt, len))
      decreases len, 0
    {
      if len < 6 {
        iph := None;
        return;
      }
      if data[pkt + 4] == 0xaa && data[pkt + 5] == 0xaa {
        if len < 12 {
          iph := None;
          return;
        }
        PushLayer(Vlan, pkt, 4);
        DecodeAs(OfEtherType(Be16(data, pkt + 10)), 12, len - 12);
      }
    }

    method DecodePPPoEPkt(pkt: nat, len: nat)
      requires Valid() && Ready(View(), DoPppoe, pkt, len)
      modifies this, layers
      ensures Valid() && View() == Carry(cfg, StepPppoe(cfg, old(View()), pkt, len))
      decreases len, 0
    {
      if len < 6 {
        return;
      }
      var etherType := Be16(data, eh.value + 12);
      if etherType != TYPE_PPPOE_DISC && etherType != TYPE_PPPOE_SESS {
        return;
      }
      if etherType != TYPE_PPPOE_DISC {
        PushLayer(Pppoe, pkt, 6);
        DecodeAs(Some(DoPpp), pkt + 6, len - 6);
      }
    }

    method DecodePppPktEncapsulated(pkt: nat, len: nat)
      requires Valid() && Ready(View(), DoPpp, pkt, len)
      modifies this, layers
      ensures Valid() && View() == Carry(cfg, StepPpp(cfg, old(View()), pkt, len))
      decreases len, 1
    {
      if len < 2 {
        return;
      }
      var (hlen, protocol) := PppProtocol(data, pkt);
      if protocol == PPP_VJ_UCOMP {
        if len < hlen + 20 {
          return;
        }
        data := data[pkt + hlen + 9 := PROTO_TCP];
        FinishPpp(pkt, len, hlen);
      } else if protocol == PPP_IP {
        FinishPpp(pkt, len, hlen);
      } else if protocol == PPP_IPX {
        PushLayer(PppEncap, pkt, hlen);
      }
    }

    /** The shared end of the two PPP branches that carry IPv4. */
    method FinishPpp(pkt: nat, len: nat, hlen: nat)
      requires Valid() && Ready(View(), DoPpp, pkt, len) && 1 <= hlen <= len
      modifies this, layers
      ensures Valid() && View() == Carry(cfg, AfterPpp(cfg, old(View()), pkt, len, hlen))
      decreases len, 0
    {
      PushLayer(PppEncap, pkt, hlen);
      DecodeAs(Some(DoIp), pkt + hlen, len - hlen);
    }

    method DecodeARP(pkt: nat, len: nat)
      requires Valid() && Ready(View(), DoArp, pkt, len)
      modifies this, layers
      ensures Valid() && View() == Carry(cfg, StepArp(cfg, old(View()), pkt, len))
      decreases len, 0
    {
      if len >= 28 {
        PushLayer(Arp, pkt, 28);
      }
    }

    method DecodeIPV6(pkt: nat, len: nat)
      requires Valid() && Ready(View(), DoIpv6, pkt, len)
      modifies this, layers
      ensures Valid() && View() == Carry(cfg, StepIpv6(old(View()), len))
      decreases len, 0
    {
      if len < 40 {
        iph := None;
      }
    }

    method DecodeIP(pkt: nat, len: nat)
      requires Valid() && Ready(View(), DoIp, pkt, len)
      modifies this, layers
      ensures Valid() && View() == Carry(cfg, StepIp(cfg, old(View()), pkt, len))
      decreases len, 1
    {
      if len < 20 {
        iph := None;
        return;
      }
      if iph.Some? {
        if encapsulated {
          return;
        }
        encapsulated := true;
      }
      iph := Some(pkt);
      if data[pkt] / 16 != 4 {
        iph := None;
        return;
      }
      var ipLen := Be16(data, pkt + 2);
      var hlen := data[pkt] % 16 * 4;
      if hlen < 20 || ipLen > len || ipLen < hlen {
        iph := None;
        return;
      }
      FinishIP(pkt, len, hlen, ipLen);
    }

    /** The part of the IPv4 decoder behind the header checks. */
    method FinishIP(pkt: nat, len: nat, hlen: nat, ipLen: nat)
      requires Valid() && Ready(View().(iph := None), DoIp, pkt, len) && iph == Some(pkt)
      requires len >= 20 && Ip4Sound(data, pkt, len)
      requires hlen == data[pkt] % 16 * 4 && ipLen == Be16(data, pkt + 2)
      modifies this, layers
      ensures Valid() && View() == Carry(cfg, AfterIp(cfg, old(View()), pkt, len))
      decreases len, 0
    {
      var next := RecordIP(pkt, len, hlen, ipLen);
      DecodeAs(next, pkt + hlen, ipLen - hlen);
    }

    /** Pushes the layer, sets the fragment flag, and selects the decoder for
        what is inside. */
    method RecordIP(pkt: nat, len: nat, hlen: nat, ipLen: nat) returns (next: Option<Call>)
      requires Valid() && Ready(View().(iph := None), DoIp, pkt, len) && iph == Some(pkt)
      requires len >= 20 && Ip4Sound(data, pkt, len)
      requires hlen == data[pkt] % 16 * 4 && ipLen == Be16(data, pkt + 2)
      modifies this, layers
      ensures Valid() && (next.Some? ==> !next.value.DoEth? && Ready(View(), next.value, pkt + hlen, ipLen - hlen))
      ensures AfterIp(cfg, old(View()), pkt, len) == Dispatch(View(), next, pkt + hlen, ipLen - hlen)
    {
      PushLayer(Ip4, pkt, hlen);
      var fragOffset := Be16(data, pkt + 6);
      var mf := fragOffset / 0x2000 % 2;
      fragOffset := fragOffset % 0x2000;
      fragmented := fragOffset != 0 || mf == 1;
      next := None;
      var proto := data[pkt + 9];
      if !fragmented || (fragOffset == 0 && proto == PROTO_UDP) {
        next := OfIpProto(cfg, proto);
      }
    }

    method DecodeESP(pkt: nat, len: nat)
      requires Valid() && Ready(View(), DoEsp, pkt, len)
      modifies this, layers
      ensures Valid() && View() == Run(cfg, old(View()), DoEsp, pkt, len)
      decreases len, 1
    {
      if len < 22 {
        return;
      }
      var payload, left := pkt + 8, len - 22;
      var padLength := data[payload + left];
      var nextHeader := data[payload + left + 1];
      if padLength >= left {
        return;
      }
      FinishESP(pkt, len, nextHeader, left - padLength);
      unsure := false;
    }

    /** The part of the ESP decoder behind the padding check. */
    method FinishESP(pkt: nat, len: nat, nextHeader: byte, left: nat)
      requires Valid() && Ready(View(), DoEsp, pkt, len) && EspSound(data, pkt, len)
      requires nextHeader == data[pkt + len - 13] && left == len - 22 - data[pkt + len - 14]
      modifies this, layers
      ensures Valid() && View() == Carry(cfg, AfterEsp(old(View()), pkt, len))
      decreases len, 0
    {
      unsure := true;
      DecodeAs(OfEspNext(nextHeader), pkt + 8, left);
    }

    method DecodeGRE(pkt: nat, len: nat)
      requires Valid() && Ready(View(), DoGre, pkt, len)
      modifies this, layers
      ensures Valid() && View() == Carry(cfg, StepGre(cfg, old(View()), pkt, len))
      decreases len, 1
    {
      if encapsulated {
        return;
      }
      var hlen := GreHeader.HeaderLength(data[pkt..pkt + len]);
      if hlen.Some? {
        FinishGRE(pkt, len, hlen.value);
      }
    }

    /** The part of the GRE decoder behind the header walk. */
    method FinishGRE(pkt: nat, len: nat, hlen: nat)
      requires Valid() && Ready(View(), DoGre, pkt, len) && 4 <= hlen <= len
      modifies this, layers
      ensures Valid() && View() == Carry(cfg, AfterGre(cfg, old(View()), pkt, len, hlen))
      decreases len, 0
    {
      PushLayer(Gre, pkt, hlen);
      var next := OfGreType(Be16(data, pkt + 2));
      if next == Some(DoArp) {
        iph := None;
      }
      DecodeAs(next, pkt + hlen, len - hlen);
    }

    method DecodeUDP(pkt: nat, len: nat)
      requires Valid() && Ready(View(), DoUdp, pkt, len)
      modifies this, layers
      ensures Valid() && View() == Carry(cfg, StepUdp(cfg, old(View()), pkt, len))
      decreases len, 0
    {
      if len < 8 {
        return;
      }
      var uhlen := UdpDatagramLength(pkt);
      if uhlen < 8 || uhlen != len {
        return;
      }
      var bad := UdpChecksumFails(pkt, len);
      if bad && unsure {
        return;
      }
      var sp, dp := Be16(data, pkt), Be16(data, pkt + 2);
      PushLayer(Udp, pkt, 8);
      if sp in cfg.ignoredUdpPorts || dp in cfg.ignoredUdpPorts {
        return;
      }
      if cfg.gtpDecoding && (sp in cfg.gtpPorts || dp in cfg.gtpPorts) {
        if !fragmented {
          DecodeAs(Some(DoGtp), pkt + 8, len - 8);
        }
      }
    }

    method UdpDatagramLength(pkt: nat) returns (uhlen: uint16)
      requires Valid() && pkt + 8 <= |data| && iph.Some? && iph.value + 20 <= |data|
      ensures uhlen == UdpLength(View(), pkt)
    {
      if !fragmented {
        uhlen := Be16(data, pkt + 4);
      } else {
        uhlen := (Be16(data, iph.value + 2) - data[iph.value] % 16 * 4) % 0x1_0000;
      }
    }

    method UdpChecksumFails(pkt: nat, len: nat) returns (bad: bool)
      requires Valid() && Ready(View(), DoUdp, pkt, len) && len >= 8
      ensures bad == UdpChecksumBad(cfg, View(), pkt, len)
    {
      var csum := 0;
      if cfg.udpChecksums && !fragmented && Be16(data, pkt + 6) != 0 {
        var ph := data[iph.value + 12..iph.value + 20] + [0, data[iph.value + 9]] + Be16Bytes(Be16(data, pkt + 4));
        csum := ChecksumRoutines.InChksumUdp(cfg.host, ph, data[pkt..pkt + len]);
      }
      bad := csum != 0;
    }

    method DecodeGTP(pkt: nat, len: nat)
      requires Valid() && Ready(View(), DoGtp, pkt, len)
      modifies this, layers
      ensures Valid() && View() == Run(cfg, old(View()), DoGtp, pkt, len)
      decreases len, 1
    {
      if gtpEncapsulated {
        return;
      }
      gtpEncapsulated := true;
      var headerLen := GtpHeader.HeaderLength(data[pkt..pkt + len]);
      if headerLen.Some? {
        FinishGTP(pkt, len, headerLen.value);
        if headerLen.value < len {
          unsure := false;
        }
      }
    }

    /** The part of the GTP decoder behind the header walk. */
    method FinishGTP(pkt: nat, len: nat, headerLen: nat)
      requires Valid() && Ready(View(), DoGtp, pkt, len) && 8 <= headerLen <= len
      modifies this, layers
      ensures Valid() && View() == Carry(cfg, AfterGtp(cfg, old(View()), pkt, len, headerLen))
      decreases len, 0
    {
      PushLayer(Gtp, pkt, headerLen);
      if headerLen < len {
        DecodeAs(OfIpVersion(data[pkt + headerLen] / 16), pkt + headerLen, len - headerLen);
      }
    }

    method DecodeTCP(pkt: nat, len: nat)
      requires Valid() && Ready(View(), DoTcp, pkt, len)
      modifies this, layers
      ensures Valid() && View() == Carry(cfg, StepTcp(cfg, old(View()), pkt, len))
      decreases len, 0
    {
      if len < 20 {
        return;
      }
      var hlen := data[pkt + 12] / 16 * 4;
      if hlen < 20 || hlen > len {
        return;
      }
      var csum := 0;
      if cfg.tcpChecksums {
        var ph := data[iph.value + 12..iph.value + 20] + [0, data[iph.value + 9]] + Be16Bytes(len);
        csum := ChecksumRoutines.InChksumTcp(cfg.host, ph, data[pkt..pkt + len]);
      }
      assert csum != 0 <==> TcpChecksumBad(cfg, View(), pkt, len);
      if csum != 0 && unsure {
        return;
      }
      PushLayer(Tcp, pkt, hlen);
    }

    method DecodeICMP(pkt: nat, len: nat)
      requires Valid() && Ready(View(), DoIcmp, pkt, len)
      modifies this, layers
      ensures Valid() && View() == Carry(cfg, StepIcmp(cfg, old(View()), pkt, len))
      decreases len, 0
    {
      if len < 4 {
        return;
      }
      match data[pkt] {
        case 0 | 3 | 4 | 5 | 8 | 9 | 10 | 11 | 12 | 15 | 16 =>
          if len < 8 {
            return;
          }
        case 13 | 14 =>
          if len < 20 {
            return;
          }
        case 17 | 18 =>
          if len < 12 {
            return;
          }
        case _ =>
      }
      match data[pkt] {
        case 0 | 3 | 4 | 5 | 8 | 11 | 12 => PushLayer(Icmp4, pkt, 8);
        case _ => PushLayer(Icmp4, pkt, 4);
      }
    }
  }
}
