/** The course that any decoding takes, the LLC branch included: what may be
    called, and what is recorded, before the first IPv4 header, behind it, and
    behind the second. */
module DecoderCourse {
  import opened Bytes
  import opened DecoderModel
  import opened DecoderLaws
  import opened DecoderWrites
  import opened DecoderLateWrites
  import GreHeader
  import GtpHeader

  predicate IsLink(proto: Proto) {
    proto.Eth? || proto.Vlan? || proto.Pppoe? || proto.PppEncap? || proto.Arp?
  }

  predicate LinksOnly(layers: seq<Layer>) {
    forall i :: 0 <= i < |layers| ==> IsLink(layers[i].proto)
  }

  /** All IPv4 layers are the one at `x`. */
  predicate OneIp(layers: seq<Layer>, x: nat) {
    forall i :: 0 <= i < |layers| && layers[i].proto.Ip4? ==> layers[i].start == x
  }

  predicate NoTransport(layers: seq<Layer>) {
    forall i :: 0 <= i < |layers| ==> !layers[i].proto.Udp? && !layers[i].proto.Gtp?
  }

  predicate HasGre(layers: seq<Layer>) {
    exists i :: 0 <= i < |layers| && layers[i].proto.Gre?
  }

  /** Decoders that only come behind GRE once an IPv4 header is laid. */
  predicate BehindGre(call: Call) {
    call.DoBridge? || call.DoVlan? || call.DoPppoe? || call.DoPpp?
  }

  /** No IPv4 header yet. PPPoE of a session comes right behind the Ethernet
      header, and no tag does. */
  predicate BeforeIp(cfg: Config, st: State, call: Call, off: nat)
    requires st.eh.Some? ==> st.eh.value + 14 <= |st.data|
  {
    && !st.encapsulated && LinksOnly(st.layers)
    && (call.DoEth? || call.DoVlan? || call.DoPppoe? || call.DoPpp? || call.DoIp?)
    && (call.DoEth? ==> off == 0 && st.layers == [])
    && (call.DoVlan? ==> !LastIsSession(st))
    && (call.DoPppoe? && LastIsSession(st) ==> off <= 14 && LastIsNoTag(cfg, st.layers))
    && (call.DoPpp? ==> off <= 20)
    && (call.DoIp? && LastIsSession(st) ==> off <= 22)
  }

  predicate LastIsNoTag(cfg: Config, layers: seq<Layer>) {
    layers != [] && |layers| < cfg.layerMax ==> !layers[|layers| - 1].proto.Vlan?
  }

  /** Behind one IPv4 header, at `x`. */
  predicate UnderOneIp(cfg: Config, st: State, call: Call, off: nat, x: nat)
    requires st.eh.Some? ==> st.eh.value + 14 <= |st.data|
  {
    && !call.DoEth? && OneIp(st.layers, x)
    && (LastIsSession(st) ==> x <= 22)
    && (BehindGre(call) ==> NoTransport(st.layers) && (|st.layers| < cfg.layerMax ==> HasGre(st.layers)))
    && (call.DoGre? || call.DoEsp? ==> NoTransport(st.layers) && off >= x + 20)
    && (call.DoVlan? || call.DoPppoe? ==> off >= 12)
    && (call.DoPpp? ==> off >= x + 20 || (off >= 18 && x <= 22))
  }

  /** Behind two IPv4 headers no link layer comes any more. */
  predicate Inner(call: Call) {
    call.DoIp? || call.DoGre? || call.DoEsp? || call.DoUdp? || call.DoGtp? || call.DoTcp? || call.DoIcmp?
  }

  predicate Course(cfg: Config, st: State, call: Call, off: nat)
    requires st.eh.Some? ==> st.eh.value + 14 <= |st.data|
  {
    if call.DoArp? || call.DoIpv6? then true
    else if st.iph.None? then BeforeIp(cfg, st, call, off)
    else if !st.encapsulated then UnderOneIp(cfg, st, call, off, st.iph.value)
    else Inner(call)
  }

  // ------------------------------------------------------------------ recording

  lemma PushLink(max: nat, layers: seq<Layer>, proto: Proto, start: nat, length: nat)
    requires LinksOnly(layers) && IsLink(proto)
    ensures LinksOnly(PushOn(max, layers, proto, start, length))
  {
  }

  lemma PushKeepsIp(max: nat, layers: seq<Layer>, proto: Proto, start: nat, length: nat, x: nat)
    requires OneIp(layers, x) && (proto.Ip4? ==> start == x)
    ensures OneIp(PushOn(max, layers, proto, start, length), x)
  {
  }

  lemma PushKeepsOthers(max: nat, layers: seq<Layer>, proto: Proto, start: nat, length: nat)
    requires NoTransport(layers) && !proto.Udp? && !proto.Gtp?
    ensures var more := PushOn(max, layers, proto, start, length);
            NoTransport(more) && (HasGre(layers) || (proto.Gre? && |layers| < max) ==> HasGre(more))
  {
    var more := PushOn(max, layers, proto, start, length);
    if HasGre(layers) {
      var i :| 0 <= i < |layers| && layers[i].proto.Gre?;
      assert more[i] == layers[i];
    } else if proto.Gre? && |layers| < max {
      assert more[|layers|].proto.Gre?;
    }
  }

  // ------------------------------------------------- before the first IPv4 header

  lemma EthCourse(cfg: Config, st: State, off: nat, len: nat, o: Outcome)
    requires Ready(st, DoEth, off, len) && BeforeIp(cfg, st, DoEth, off) && st.iph.None?
    requires o == StepEth(cfg, st, off, len) && o.Next?
    ensures Course(cfg, o.st, o.call, o.off)
  {
    PushLink(cfg.layerMax, st.layers, Eth, off, 14);
    assert o.st.layers == PushOn(cfg.layerMax, [], Eth, 0, 14);
  }

  lemma VlanBefore(cfg: Config, st: State, off: nat, len: nat, o: Outcome)
    requires Ready(st, DoVlan, off, len) && BeforeIp(cfg, st, DoVlan, off) && st.iph.None?
    requires o == StepVlan(cfg, st, off, len) && o.Next?
    ensures Course(cfg, o.st, o.call, o.off)
  {
    PushLink(cfg.layerMax, st.layers, Vlan, off, 4);
    assert o.st == Push(cfg, st, Vlan, off, 4) && !LastIsSession(o.st);
  }

  lemma PppoeBefore(cfg: Config, st: State, off: nat, len: nat, o: Outcome)
    requires Ready(st, DoPppoe, off, len) && BeforeIp(cfg, st, DoPppoe, off) && st.iph.None?
    requires o == StepPppoe(cfg, st, off, len) && o.Next?
    ensures Course(cfg, o.st, o.call, o.off)
  {
    PushLink(cfg.layerMax, st.layers, Pppoe, off, 6);
  }

  /** Writing the protocol number of TCP makes no session of anything. */
  lemma SessionNotMade(st: State, st1: State)
    requires st.eh == st1.eh && (st.eh.Some? ==> st.eh.value + 14 <= |st.data|) && OnlyTcpWritten(st.data, st1.data)
    ensures LastIsSession(st1) ==> LastIsSession(st)
  {
  }

  lemma PppBefore(cfg: Config, st: State, off: nat, len: nat, o: Outcome)
    requires Ready(st, DoPpp, off, len) && BeforeIp(cfg, st, DoPpp, off) && st.iph.None?
    requires o == StepPpp(cfg, st, off, len) && o.Next?
    ensures Course(cfg, o.st, o.call, o.off)
  {
    PppWrites(cfg, st, off, len, o);
    SessionNotMade(st, o.st);
    PushLink(cfg.layerMax, st.layers, PppEncap, off, PppProtocol(st.data, off).0);
  }

  lemma IpBefore(cfg: Config, st: State, off: nat, len: nat, o: Outcome)
    requires Ready(st, DoIp, off, len) && BeforeIp(cfg, st, DoIp, off) && st.iph.None?
    requires o == StepIp(cfg, st, off, len) && o.Next?
    ensures Course(cfg, o.st, o.call, o.off)
  {
    var hlen := st.data[off] % 16 * 4;
    PushKeepsIp(cfg.layerMax, st.layers, Ip4, off, hlen, off);
    PushKeepsOthers(cfg.layerMax, st.layers, Ip4, off, hlen);
    assert o.st.layers == PushOn(cfg.layerMax, st.layers, Ip4, off, hlen) && o.st.iph == Some(off);
    assert o.off == off + hlen && hlen >= 20 && !BehindGre(o.call) && !o.call.DoEth?;
    assert LastIsSession(o.st) == LastIsSession(st);
  }

  // ------------------------------------------------------- behind one IPv4 header

  lemma BridgeUnder(cfg: Config, st: State, off: nat, len: nat, o: Outcome)
    requires Ready(st, DoBridge, off, len) && st.iph.Some? && UnderOneIp(cfg, st, DoBridge, off, st.iph.value)
    requires o == StepBridge(cfg, st, off, len) && o.Next? && !st.encapsulated
    ensures Course(cfg, o.st, o.call, o.off)
  {
    PushKeepsIp(cfg.layerMax, st.layers, Eth, off, 14, st.iph.value);
    PushKeepsOthers(cfg.layerMax, st.layers, Eth, off, 14);
    assert o.st.layers == PushOn(cfg.layerMax, st.layers, Eth, off, 14) && o.st.eh == Some(off) && o.st.data == st.data;
    assert !LastIsSession(o.st) && o.off >= 12;
  }

  lemma VlanUnder(cfg: Config, st: State, off: nat, len: nat, o: Outcome)
    requires Ready(st, DoVlan, off, len) && st.iph.Some? && UnderOneIp(cfg, st, DoVlan, off, st.iph.value)
    requires o == StepVlan(cfg, st, off, len) && o.Next? && !st.encapsulated
    ensures Course(cfg, o.st, o.call, o.off)
  {
    PushKeepsIp(cfg.layerMax, st.layers, Vlan, off, 4, st.iph.value);
    PushKeepsOthers(cfg.layerMax, st.layers, Vlan, off, 4);
    assert o.st == Push(cfg, st, Vlan, off, 4) && o.off >= 12;
  }

  lemma PppoeUnder(cfg: Config, st: State, off: nat, len: nat, o: Outcome)
    requires Ready(st, DoPppoe, off, len) && st.iph.Some? && UnderOneIp(cfg, st, DoPppoe, off, st.iph.value)
    requires o == StepPppoe(cfg, st, off, len) && o.Next? && !st.encapsulated
    ensures Course(cfg, o.st, o.call, o.off)
  {
    PushKeepsIp(cfg.layerMax, st.layers, Pppoe, off, 6, st.iph.value);
    PushKeepsOthers(cfg.layerMax, st.layers, Pppoe, off, 6);
    assert o.st == Push(cfg, st, Pppoe, off, 6) && LastIsSession(st);
  }

  lemma PppUnder(cfg: Config, st: State, off: nat, len: nat, o: Outcome)
    requires Ready(st, DoPpp, off, len) && st.iph.Some? && UnderOneIp(cfg, st, DoPpp, off, st.iph.value)
    requires o == StepPpp(cfg, st, off, len) && o.Next? && !st.encapsulated
    ensures Course(cfg, o.st, o.call, o.off)
  {
    PppWrites(cfg, st, off, len, o);
    SessionNotMade(st, o.st);
    PushKeepsIp(cfg.layerMax, st.layers, PppEncap, off, PppProtocol(st.data, off).0, st.iph.value);
  }

  lemma IpUnder(cfg: Config, st: State, off: nat, len: nat, o: Outcome)
    requires Ready(st, DoIp, off, len) && st.iph.Some?
    requires o == StepIp(cfg, st, off, len) && o.Next?
    ensures Course(cfg, o.st, o.call, o.off)
  {
    assert o.st.iph == Some(off) && o.st.encapsulated;
  }

  lemma GreUnder(cfg: Config, st: State, off: nat, len: nat, o: Outcome)
    requires Ready(st, DoGre, off, len) && st.iph.Some? && UnderOneIp(cfg, st, DoGre, off, st.iph.value)
    requires o == StepGre(cfg, st, off, len) && o.Next? && !st.encapsulated
    ensures Course(cfg, o.st, o.call, o.off)
  {
    var hlen := GreHeader.Length(st.data[off..off + len]).value;
    assert o == AfterGre(cfg, st, off, len, hlen);
    PushKeepsIp(cfg.layerMax, st.layers, Gre, off, hlen, st.iph.value);
    PushKeepsOthers(cfg.layerMax, st.layers, Gre, off, hlen);
    if !o.call.DoArp? && !o.call.DoIpv6? {
      assert o.st == Push(cfg, st, Gre, off, hlen) && o.off == off + hlen && hlen >= 4;
      assert !o.call.DoPppoe? && !o.call.DoGre? && !o.call.DoEsp?;
    }
  }

  lemma EspUnder(cfg: Config, st: State, off: nat, len: nat, o: Outcome)
    requires Ready(st, DoEsp, off, len) && st.iph.Some? && UnderOneIp(cfg, st, DoEsp, off, st.iph.value)
    requires o == StepEsp(st, off, len) && o.Next? && !st.encapsulated
    ensures Course(cfg, o.st, o.call, o.off)
  {
    assert o.st == st.(unsure := true) && o.off == off + 8 && !BehindGre(o.call) && !o.call.DoEth?;
  }

  lemma TransportUnder(cfg: Config, st: State, call: Call, off: nat, len: nat, o: Outcome)
    requires Ready(st, call, off, len) && st.iph.Some? && UnderOneIp(cfg, st, call, off, st.iph.value)
    requires o == Step(cfg, st, call, off, len) && o.Next? && !st.encapsulated && (call.DoUdp? || call.DoGtp?)
    ensures Course(cfg, o.st, o.call, o.off)
  {
    if call.DoUdp? {
      assert o == StepUdp(cfg, st, off, len);
      PushKeepsIp(cfg.layerMax, st.layers, Udp, off, 8, st.iph.value);
      assert o.st == Push(cfg, st, Udp, off, 8) && o.call.DoGtp?;
    } else {
      assert o == StepGtp(cfg, st, off, len);
      var hlen := GtpHeader.Length(st.data[off..off + len]).value;
      PushKeepsIp(cfg.layerMax, st.layers, Gtp, off, hlen, st.iph.value);
      assert o.call.DoIp? || o.call.DoIpv6?;
      assert o.st == Push(cfg, st.(gtpEncapsulated := true), Gtp, off, hlen);
    }
  }

  // ---------------------------------------------------------------- behind two

  lemma InnerCourse(cfg: Config, st: State, call: Call, off: nat, len: nat, o: Outcome)
    requires Ready(st, call, off, len) && st.iph.Some? && st.encapsulated && Inner(call)
    requires o == Step(cfg, st, call, off, len) && o.Next?
    ensures Course(cfg, o.st, o.call, o.off)
  {
    match call {
      case DoEsp => assert o == StepEsp(st, off, len);
      case DoUdp => assert o == StepUdp(cfg, st, off, len);
      case DoGtp => assert o == StepGtp(cfg, st, off, len);
      case _ =>
    }
  }

  lemma StopsThere(cfg: Config, st: State, call: Call, off: nat, len: nat, o: Outcome)
    requires Ready(st, call, off, len) && o == Step(cfg, st, call, off, len)
    requires call.DoArp? || call.DoIpv6? || call.DoTcp? || call.DoIcmp?
    ensures o.Stop?
  {
    match call {
      case DoArp => assert o == StepArp(cfg, st, off, len);
      case DoIpv6 => assert o == StepIpv6(st, len);
      case DoTcp => assert o == StepTcp(cfg, st, off, len);
      case DoIcmp => assert o == StepIcmp(cfg, st, off, len);
    }
  }

  lemma UnderCourse(cfg: Config, st: State, call: Call, off: nat, len: nat, o: Outcome)
    requires Ready(st, call, off, len) && st.iph.Some? && !st.encapsulated
    requires UnderOneIp(cfg, st, call, off, st.iph.value)
    requires o == Step(cfg, st, call, off, len) && o.Next?
    ensures Course(cfg, o.st, o.call, o.off)
  {
    match call {
      case DoBridge => BridgeUnder(cfg, st, off, len, o);
      case DoVlan => VlanUnder(cfg, st, off, len, o);
      case DoPppoe => PppoeUnder(cfg, st, off, len, o);
      case DoPpp => PppUnder(cfg, st, off, len, o);
      case DoIp => IpUnder(cfg, st, off, len, o);
      case DoGre => GreUnder(cfg, st, off, len, o);
      case DoEsp => EspUnder(cfg, st, off, len, o);
      case DoUdp | DoGtp => TransportUnder(cfg, st, call, off, len, o);
      case DoArp | DoIpv6 | DoTcp | DoIcmp => StopsThere(cfg, st, call, off, len, o);
    }
  }

  /** Every call whatsoever keeps to the course. */
  lemma StepCourse(cfg: Config, st: State, call: Call, off: nat, len: nat, o: Outcome)
    requires Ready(st, call, off, len) && Course(cfg, st, call, off) && o == Step(cfg, st, call, off, len)
    ensures o.Next? ==> Course(cfg, o.st, o.call, o.off)
  {
    if o.Next? {
      if call.DoArp? || call.DoIpv6? {
        StopsThere(cfg, st, call, off, len, o);
      } else if st.iph.Some? && st.encapsulated {
        InnerCourse(cfg, st, call, off, len, o);
      } else if st.iph.Some? {
        UnderCourse(cfg, st, call, off, len, o);
      } else {
        match call {
          case DoEth => EthCourse(cfg, st, off, len, o);
          case DoVlan => VlanBefore(cfg, st, off, len, o);
          case DoPppoe => PppoeBefore(cfg, st, off, len, o);
          case DoPpp => PppBefore(cfg, st, off, len, o);
          case DoIp => IpBefore(cfg, st, off, len, o);
        }
      }
    }
  }

  /** Where the PPP decoder writes, no length field of a recorded header is. */
  lemma WritesBehindLengths(cfg: Config, st: State, off: nat, len: nat)
    requires Ready(st, DoPpp, off, len) && Course(cfg, st, DoPpp, off)
    ensures NoTransport(st.layers)
    ensures forall i :: 0 <= i < |st.layers| && st.layers[i].proto.Ip4? ==> st.layers[i].start + 4 <= off + 10
  {
  }
}
