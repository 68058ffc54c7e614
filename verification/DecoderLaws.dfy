/** Whole-run properties of the decoder, by induction over the calls it makes:
    where the recorded layers lie, and how often each may occur. */
module DecoderLaws {
  import opened Bytes
  import opened DecoderModel
  import GreHeader
  import GtpHeader

  function End(l: Layer): nat {
    l.start + l.length
  }

  // ----------------------------------------------------------------- the slices

  /** Does the run take the one branch that leaves the slice it was given? */
  predicate RunRebases(cfg: Config, st: State, call: Call, off: nat, len: nat)
    requires Ready(st, call, off, len)
    decreases len
  {
    || (call.DoVlan? && Rebases(st, off, len))
    || (var o := Step(cfg, st, call, off, len);
        o.Next? && RunRebases(cfg, o.st, o.call, o.off, o.len))
  }

  // ------------------------------------------------------- induction over a run

  /** One call from a state in which `inv` holds. */
  ghost predicate Keeps(cfg: Config, inv: (State, Call, nat, nat) -> bool, out: (seq<byte>, seq<Layer>) -> bool,
                        st: State, call: Call, off: nat, len: nat)
    requires Ready(st, call, off, len)
  {
    var o := Step(cfg, st, call, off, len);
    out(o.st.data, o.st.layers) && (o.Next? ==> inv(o.st, o.call, o.off, o.len))
  }

  lemma KeepsBy(cfg: Config, inv: (State, Call, nat, nat) -> bool, out: (seq<byte>, seq<Layer>) -> bool,
                st: State, call: Call, off: nat, len: nat, o: Outcome)
    requires Ready(st, call, off, len) && o == Step(cfg, st, call, off, len)
    requires out(o.st.data, o.st.layers) && (o.Next? ==> inv(o.st, o.call, o.off, o.len))
    ensures Keeps(cfg, inv, out, st, call, off, len)
  {
  }

  /** Is this call among those to be looked at: all of them, or all but the LLC
      branch of VLAN? */
  predicate Counts(all: bool, st: State, call: Call, off: nat, len: nat)
    requires Ready(st, call, off, len)
  {
    all || !(call.DoVlan? && Rebases(st, off, len))
  }

  /** What every single call keeps, the whole run keeps. */
  lemma {:induction false} RunKeeps(cfg: Config, inv: (State, Call, nat, nat) -> bool,
                                    out: (seq<byte>, seq<Layer>) -> bool, all: bool,
                                    st: State, call: Call, off: nat, len: nat, r: State)
    requires forall s: State, c: Call, i: nat, n: nat ::
               Ready(s, c, i, n) && inv(s, c, i, n) && Counts(all, s, c, i, n) ==> Keeps(cfg, inv, out, s, c, i, n)
    requires Ready(st, call, off, len) && inv(st, call, off, len)
    requires (all || !RunRebases(cfg, st, call, off, len)) && r == Run(cfg, st, call, off, len)
    ensures out(r.data, r.layers)
    decreases len
  {
    assert Counts(all, st, call, off, len);
    assert Keeps(cfg, inv, out, st, call, off, len);
    var o := Step(cfg, st, call, off, len);
    if o.Next? {
      RunKeeps(cfg, inv, out, all, o.st, o.call, o.off, o.len, Run(cfg, o.st, o.call, o.off, o.len));
    }
  }

  /** The layers a run ends with are those the rest of it ends with. */
  lemma RunFollows(cfg: Config, st: State, call: Call, off: nat, len: nat, o: Outcome, layers: seq<Layer>)
    requires Ready(st, call, off, len) && o == Step(cfg, st, call, off, len)
    requires layers == (if o.Stop? then o.st else Run(cfg, o.st, o.call, o.off, o.len)).layers
    ensures Run(cfg, st, call, off, len).layers == layers
  {
  }

  /** Every call but the LLC branch of VLAN hands on a slice that lies inside
      its own, behind at least one octet of header. */
  lemma StepNests(cfg: Config, st: State, call: Call, off: nat, len: nat)
    requires Ready(st, call, off, len)
    requires !(call.DoVlan? && Rebases(st, off, len))
    ensures var o := Step(cfg, st, call, off, len);
            o.Next? ==> off < o.off && o.off + o.len <= off + len
  {
  }

  // ----------------------------------------------------------------- the layers

  /** An IPv4 header that announces ESP. */
  predicate EspBelow(d: seq<byte>, l: Layer) {
    l.proto == Ip4 && l.start + 9 < |d| && d[l.start + 9] == PROTO_ESP
  }

  /** Layer `i` starts where the one before it ends, or 8 octets further when an
      ESP header lies between. */
  predicate Abuts(d: seq<byte>, layers: seq<Layer>, i: nat)
    requires 0 < i < |layers|
  {
    layers[i].start == End(layers[i - 1]) + if EspBelow(d, layers[i - 1]) then 8 else 0
  }

  predicate Stacked(d: seq<byte>, layers: seq<Layer>) {
    && (layers != [] ==> layers[0].start == 0)
    && (forall i :: 0 <= i < |layers| ==> End(layers[i]) <= |d| && (layers[i].proto == Ip4 ==> layers[i].length >= 20))
    && (forall i :: 0 < i < |layers| ==> Abuts(d, layers, i))
  }

  /** The layers are stacked, end before `off`, and unless the table is full
      `off` is where the next one belongs; `esp` says that an ESP header comes
      first. */
  predicate Laid(max: nat, d: seq<byte>, layers: seq<Layer>, esp: bool, off: nat) {
    && |layers| <= max
    && off <= |d|
    && Stacked(d, layers)
    && (forall i :: 0 <= i < |layers| ==> End(layers[i]) <= off)
    && (|layers| < max ==> AtFrontier(d, layers, esp, off))
  }

  predicate AtFrontier(d: seq<byte>, layers: seq<Layer>, esp: bool, off: nat) {
    if layers == [] then off == 0 && !esp
    else
      var last := layers[|layers| - 1];
      && (esp ==> EspBelow(d, last))
      && off == End(last) + if EspBelow(d, last) && !esp then 8 else 0
  }

  /** Pushing the layer at the head of the slice keeps the stack. */
  lemma PushLaid(max: nat, d: seq<byte>, layers: seq<Layer>, off: nat, proto: Proto, length: nat)
    requires Laid(max, d, layers, false, off)
    requires length < 0x1_0000 && off + length <= |d| && (proto == Ip4 ==> length >= 20)
    ensures Laid(max, d, PushOn(max, layers, proto, off, length),
                 EspBelow(d, Layer(proto, off, length)), off + length)
  {
    if |layers| < max {
      var more := PushOn(max, layers, proto, off, length);
      assert length % 0x1_0000 == length;
      forall i | 0 < i < |more| ensures Abuts(d, more, i) {
        if i < |layers| {
          assert Abuts(d, layers, i);
        }
      }
    }
  }

  /** Rewriting octets behind the recorded layers leaves the stack alone. */
  lemma RewriteLaid(max: nat, d: seq<byte>, d': seq<byte>, layers: seq<Layer>, off: nat)
    requires Laid(max, d, layers, false, off) && |d'| == |d|
    requires forall i :: 0 <= i < off ==> d'[i] == d[i]
    ensures Laid(max, d', layers, false, off)
  {
    forall i | 0 < i < |layers| ensures Abuts(d', layers, i) {
      assert Abuts(d, layers, i) && EspBelow(d', layers[i - 1]) == EspBelow(d, layers[i - 1]);
    }
  }

  /** What the run keeps: before a call, and after a step. */
  predicate Before(cfg: Config, st: State, call: Call, off: nat) {
    Laid(cfg.layerMax, st.data, st.layers, call.DoEsp?, off)
  }

  predicate Settled(cfg: Config, st: State) {
    |st.layers| <= cfg.layerMax && Stacked(st.data, st.layers)
  }

  predicate After(cfg: Config, o: Outcome) {
    Settled(cfg, o.st) && (o.Next? ==> Before(cfg, o.st, o.call, o.off))
  }

  /** A step that records one layer and goes on right behind it. */
  lemma OneLaid(cfg: Config, st: State, off: nat, o: Outcome, proto: Proto, length: nat)
    requires Laid(cfg.layerMax, st.data, st.layers, false, off)
    requires length < 0x1_0000 && off + length <= |st.data| && (proto.Ip4? ==> length >= 20)
    requires o.st.data == st.data && o.st.layers == PushOn(cfg.layerMax, st.layers, proto, off, length)
    requires o.Next? ==> o.off == off + length && o.call.DoEsp? == EspBelow(st.data, Layer(proto, off, length))
    ensures After(cfg, o)
  {
    PushLaid(cfg.layerMax, st.data, st.layers, off, proto, length);
  }

  lemma EthLaid(cfg: Config, st: State, off: nat, len: nat)
    requires Ready(st, DoEth, off, len) && Before(cfg, st, DoEth, off)
    ensures After(cfg, StepEth(cfg, st, off, len))
  {
    if len >= 14 {
      OneLaid(cfg, st, off, StepEth(cfg, st, off, len), Eth, 14);
    }
  }

  lemma BridgeLaid(cfg: Config, st: State, off: nat, len: nat)
    requires Ready(st, DoBridge, off, len) && Before(cfg, st, DoBridge, off)
    ensures After(cfg, StepBridge(cfg, st, off, len))
  {
    if len >= 14 {
      OneLaid(cfg, st, off, StepBridge(cfg, st, off, len), Eth, 14);
    }
  }

  lemma VlanLaid(cfg: Config, st: State, off: nat, len: nat)
    requires Ready(st, DoVlan, off, len) && Before(cfg, st, DoVlan, off)
    requires !Rebases(st, off, len)
    ensures After(cfg, StepVlan(cfg, st, off, len))
  {
    if len >= 4 && !IsLlc(st, off, len) {
      OneLaid(cfg, st, off, StepVlan(cfg, st, off, len), Vlan, 4);
    }
  }

  lemma PppoeLaid(cfg: Config, st: State, off: nat, len: nat)
    requires Ready(st, DoPppoe, off, len) && Before(cfg, st, DoPppoe, off)
    ensures After(cfg, StepPppoe(cfg, st, off, len))
  {
    var o := StepPppoe(cfg, st, off, len);
    if o.Next? {
      OneLaid(cfg, st, off, o, Pppoe, 6);
    }
  }

  lemma AfterPppLaid(cfg: Config, st: State, off: nat, len: nat, hlen: nat)
    requires Ready(st, DoPpp, off, len) && Before(cfg, st, DoPpp, off) && 1 <= hlen <= 2 && hlen <= len
    ensures After(cfg, AfterPpp(cfg, st, off, len, hlen))
  {
    OneLaid(cfg, st, off, AfterPpp(cfg, st, off, len, hlen), PppEncap, hlen);
  }

  lemma VjLaid(cfg: Config, st: State, st1: State, off: nat, len: nat, hlen: nat)
    requires Ready(st, DoPpp, off, len) && Before(cfg, st, DoPpp, off) && 1 <= hlen <= 2 && hlen + 20 <= len
    requires st1 == st.(data := st.data[off + hlen + 9 := PROTO_TCP])
    ensures After(cfg, AfterPpp(cfg, st1, off, len, hlen))
  {
    RewriteLaid(cfg.layerMax, st.data, st1.data, st.layers, off);
    AfterPppLaid(cfg, st1, off, len, hlen);
  }

  /** A step that stops without pushing anything. */
  lemma StopLaid(cfg: Config, st: State, call: Call, off: nat)
    requires Before(cfg, st, call, off)
    ensures After(cfg, Stop(st))
  {
  }

  lemma PppLaid(cfg: Config, st: State, off: nat, len: nat)
    requires Ready(st, DoPpp, off, len) && Before(cfg, st, DoPpp, off)
    ensures After(cfg, StepPpp(cfg, st, off, len))
  {
    var o := StepPpp(cfg, st, off, len);
    if o == Stop(st) {
      StopLaid(cfg, st, DoPpp, off);
    } else {
      var (hlen, protocol) := PppProtocol(st.data, off);
      if protocol == PPP_VJ_UCOMP {
        var st1 := st.(data := st.data[off + hlen + 9 := PROTO_TCP]);
        VjLaid(cfg, st, st1, off, len, hlen);
        assert o == AfterPpp(cfg, st1, off, len, hlen);
      } else {
        AfterPppLaid(cfg, st, off, len, hlen);
        assert protocol == PPP_IP ==> o == AfterPpp(cfg, st, off, len, hlen);
        assert protocol == PPP_IPX ==> o == Stop(AfterPpp(cfg, st, off, len, hlen).st);
      }
    }
  }

  lemma EspIsBelow(cfg: Config, d: seq<byte>, off: nat, length: nat)
    requires off + 20 <= |d|
    ensures BelowIp(cfg, d, off).Some? ==> BelowIp(cfg, d, off).value.DoEsp? == EspBelow(d, Layer(Ip4, off, length))
  {
  }

  lemma AfterIpLaid(cfg: Config, st: State, off: nat, len: nat)
    requires Ready(st.(iph := None), DoIp, off, len) && st.iph == Some(off)
    requires len >= 20 && Ip4Sound(st.data, off, len)
    requires Before(cfg, st, DoIp, off)
    ensures After(cfg, AfterIp(cfg, st, off, len))
  {
    var hlen := st.data[off] % 16 * 4;
    EspIsBelow(cfg, st.data, off, hlen);
    OneLaid(cfg, st, off, AfterIp(cfg, st, off, len), Ip4, hlen);
  }

  lemma IpLaid(cfg: Config, st: State, off: nat, len: nat)
    requires Ready(st, DoIp, off, len) && Before(cfg, st, DoIp, off)
    ensures After(cfg, StepIp(cfg, st, off, len))
  {
    if len >= 20 && !(st.iph.Some? && st.encapsulated) && Ip4Sound(st.data, off, len) {
      AfterIpLaid(cfg, st.(encapsulated := st.encapsulated || st.iph.Some?, iph := Some(off)), off, len);
    }
  }

  lemma EspLaid(cfg: Config, st: State, off: nat, len: nat)
    requires Ready(st, DoEsp, off, len) && Before(cfg, st, DoEsp, off)
    ensures After(cfg, StepEsp(st, off, len))
  {
  }

  lemma AfterGreLaid(cfg: Config, st: State, off: nat, len: nat, hlen: nat)
    requires Ready(st, DoGre, off, len) && 4 <= hlen <= len
    requires Before(cfg, st, DoGre, off)
    ensures After(cfg, AfterGre(cfg, st, off, len, hlen))
  {
    OneLaid(cfg, st, off, AfterGre(cfg, st, off, len, hlen), Gre, hlen);
  }

  lemma AfterGtpLaid(cfg: Config, st: State, off: nat, len: nat, hlen: nat)
    requires Ready(st, DoGtp, off, len) && 8 <= hlen <= len
    requires Before(cfg, st, DoGtp, off)
    ensures After(cfg, AfterGtp(cfg, st, off, len, hlen))
  {
    OneLaid(cfg, st, off, AfterGtp(cfg, st, off, len, hlen), Gtp, hlen);
  }

  lemma GreLaid(cfg: Config, st: State, off: nat, len: nat)
    requires Ready(st, DoGre, off, len) && Before(cfg, st, DoGre, off)
    ensures After(cfg, StepGre(cfg, st, off, len))
  {
    var hlen := GreHeader.Length(st.data[off..off + len]);
    if !st.encapsulated && hlen.Some? {
      AfterGreLaid(cfg, st, off, len, hlen.value);
    }
  }

  lemma GtpLaid(cfg: Config, st: State, off: nat, len: nat)
    requires Ready(st, DoGtp, off, len) && Before(cfg, st, DoGtp, off)
    ensures After(cfg, StepGtp(cfg, st, off, len))
  {
    var hlen := GtpHeader.Length(st.data[off..off + len]);
    if !st.gtpEncapsulated && hlen.Some? {
      AfterGtpLaid(cfg, st.(gtpEncapsulated := true), off, len, hlen.value);
    }
  }

  lemma UdpLaid(cfg: Config, st: State, off: nat, len: nat)
    requires Ready(st, DoUdp, off, len) && Before(cfg, st, DoUdp, off)
    ensures After(cfg, StepUdp(cfg, st, off, len))
  {
    var o := StepUdp(cfg, st, off, len);
    if o != Stop(st) {
      OneLaid(cfg, st, off, o, Udp, 8);
    }
  }

  lemma ArpLaid(cfg: Config, st: State, off: nat, len: nat)
    requires Ready(st, DoArp, off, len) && Before(cfg, st, DoArp, off)
    ensures After(cfg, StepArp(cfg, st, off, len))
  {
    if len >= 28 {
      OneLaid(cfg, st, off, StepArp(cfg, st, off, len), Arp, 28);
    }
  }

  lemma TcpLaid(cfg: Config, st: State, off: nat, len: nat)
    requires Ready(st, DoTcp, off, len) && Before(cfg, st, DoTcp, off)
    ensures After(cfg, StepTcp(cfg, st, off, len))
  {
    var o := StepTcp(cfg, st, off, len);
    if o != Stop(st) {
      OneLaid(cfg, st, off, o, Tcp, st.data[off + 12] / 16 * 4);
    }
  }

  lemma IcmpLaid(cfg: Config, st: State, off: nat, len: nat)
    requires Ready(st, DoIcmp, off, len) && Before(cfg, st, DoIcmp, off)
    ensures After(cfg, StepIcmp(cfg, st, off, len))
  {
    if len >= 4 && len >= IcmpNeeds(st.data[off]) {
      OneLaid(cfg, st, off, StepIcmp(cfg, st, off, len), Icmp4, IcmpLayer(st.data[off]));
    }
  }

  /** A step keeps the stack, whether it goes on or stops. */
  lemma StepLaid(cfg: Config, st: State, call: Call, off: nat, len: nat)
    requires Ready(st, call, off, len) && Before(cfg, st, call, off)
    requires !(call.DoVlan? && Rebases(st, off, len))
    ensures After(cfg, Step(cfg, st, call, off, len))
  {
    match call {
      case DoEth => EthLaid(cfg, st, off, len);
      case DoBridge => BridgeLaid(cfg, st, off, len);
      case DoVlan => VlanLaid(cfg, st, off, len);
      case DoPppoe => PppoeLaid(cfg, st, off, len);
      case DoPpp => PppLaid(cfg, st, off, len);
      case DoIp => IpLaid(cfg, st, off, len);
      case DoGre => GreLaid(cfg, st, off, len);
      case DoEsp => EspLaid(cfg, st, off, len);
      case DoUdp => UdpLaid(cfg, st, off, len);
      case DoGtp => GtpLaid(cfg, st, off, len);
      case DoArp => ArpLaid(cfg, st, off, len);
      case DoIpv6 =>
      case DoTcp => TcpLaid(cfg, st, off, len);
      case DoIcmp => IcmpLaid(cfg, st, off, len);
    }
  }

  lemma {:induction false} RunLaid(cfg: Config, st: State, call: Call, off: nat, len: nat)
    requires Ready(st, call, off, len) && Before(cfg, st, call, off)
    requires !RunRebases(cfg, st, call, off, len)
    ensures Settled(cfg, Run(cfg, st, call, off, len))
    decreases len
  {
    StepLaid(cfg, st, call, off, len);
    var o := Step(cfg, st, call, off, len);
    if o.Next? {
      RunLaid(cfg, o.st, o.call, o.off, o.len);
    }
  }

  /** Stacked layers are in increasing order, pairwise disjoint, and inside. */
  lemma {:induction false} StackedInOrder(d: seq<byte>, layers: seq<Layer>, i: nat, j: nat)
    requires Stacked(d, layers) && i < j < |layers|
    ensures layers[i].start <= End(layers[i]) <= layers[j].start
    decreases j
  {
    assert Abuts(d, layers, j);
    if i < j - 1 {
      StackedInOrder(d, layers, i, j - 1);
    }
  }

  /** Unless the LLC branch is taken, decoding any capture records at most
      `layerMax` layers, in order, disjoint, inside the capture, and contiguous
      but for the 8 octets of an ESP header. */
  lemma DecodeLaysLayers(cfg: Config, data: seq<byte>)
    requires !RunRebases(cfg, Initial(data), DoEth, 0, |data|)
    ensures var r := Decode(cfg, data);
            && |r.layers| <= cfg.layerMax
            && Stacked(r.data, r.layers)
            && forall i, j :: 0 <= i < j < |r.layers| ==> End(r.layers[i]) <= r.layers[j].start
  {
    RunLaid(cfg, Initial(data), DoEth, 0, |data|);
    var r := Decode(cfg, data);
    forall i, j | 0 <= i < j < |r.layers| ensures End(r.layers[i]) <= r.layers[j].start {
      StackedInOrder(r.data, r.layers, i, j);
    }
  }
}
