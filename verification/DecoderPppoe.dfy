/** PPPoE behind a VLAN tag. The decoder looks for the session type not in the
    tag but in the Ethernet header last laid, wherever that is. */
module DecoderPppoe {
  import opened Bytes
  import opened DecoderModel
  import opened DecoderLaws
  import opened DecoderOrder
  import opened DecoderCourse
  import opened DecoderLateWrites
  import GreHeader
  import GtpHeader

  /** A tag that names PPPoE: the layer is recorded iff there is room, six octets
      are left, and the Ethernet header last laid has the session type. */
  lemma PppoeBehindTagIff(cfg: Config, st: State, off: nat, len: nat, o: Outcome, o2: Outcome)
    requires Ready(st, DoVlan, off, len) && o == StepVlan(cfg, st, off, len)
    requires o.Next? && o.call == DoPppoe && o2 == StepPppoe(cfg, o.st, o.off, o.len)
    ensures o2.st.layers != o.st.layers <==>
              |o.st.layers| < cfg.layerMax && o.len >= 6 && Be16(st.data, st.eh.value + 12) == TYPE_PPPOE_SESS
  {
    assert o.st.data == st.data && o.st.eh == st.eh;
    PppoeRecordsIff(cfg, o.st, o.off, o.len, o2);
  }

  /** Right behind Ethernet that type is the one of VLAN: PPPoE in a tagged frame
      is not decoded. */
  lemma TagHidesPppoe(cfg: Config, data: seq<byte>)
    requires cfg.layerMax >= 2 && |data| >= 18
    requires Be16(data, 12) == TYPE_VLAN
    requires Be16(data, 16) == TYPE_PPPOE_SESS || Be16(data, 16) == TYPE_PPPOE_DISC
    ensures Decode(cfg, data).layers == [Layer(Eth, 0, 14), Layer(Vlan, 14, 4)]
  {
    var n := |data|;
    var o1 := StepEth(cfg, Initial(data), 0, n);
    assert o1.call == DoVlan && o1.st.layers == [Layer(Eth, 0, 14)];
    var o2 := StepVlan(cfg, o1.st, 14, n - 14);
    assert o2.call == DoPppoe && o2.st.layers == [Layer(Eth, 0, 14), Layer(Vlan, 14, 4)];
    assert StepPppoe(cfg, o2.st, 18, n - 18) == Stop(o2.st);
    assert Run(cfg, o2.st, DoPppoe, 18, n - 18) == o2.st;
    assert Run(cfg, o1.st, DoVlan, 14, n - 14) == o2.st;
  }

  /** PPPoE, PPP, IPv4, and a GRE header that hands on a tag, with the outer
      Ethernet header still the last one. */
  predicate GreTagCapture(d: seq<byte>, n: nat) {
    && |d| == n && 56 <= n < 1000
    && Be16(d, 12) == TYPE_PPPOE_SESS
    && d[20] == 0 && d[21] == 0x21
    && d[22] == 0x45 && Be16(d, 24) == n - 22 && Be16(d, 28) == 0 && d[31] == PROTO_GRE
    && d[42] == 0 && d[43] == 0 && Be16(d, 44) == TYPE_VLAN
  }

  /** The fields on the way through that capture. */
  function On(data: seq<byte>, layers: seq<Layer>, ip: Option<nat>): State {
    State(data, layers, Some(0), ip, false, false, false, false)
  }

  /** The layers as they are recorded one by one. */
  function Recorded(k: nat): seq<Layer> {
    [Layer(Eth, 0, 14), Layer(Pppoe, 14, 6), Layer(PppEncap, 20, 2), Layer(Ip4, 22, 20),
     Layer(Gre, 42, 4), Layer(Vlan, 46, 4), Layer(Pppoe, 50, 6)][..if k <= 7 then k else 7]
  }

  lemma OneMore(max: nat, k: nat)
    requires 0 < k <= 7 && k <= max
    ensures |Recorded(k)| == k
    ensures var l := Recorded(k)[k - 1];
            l.length < 0x1_0000 && Recorded(k) == PushOn(max, Recorded(k - 1), l.proto, l.start, l.length)
  {
    var l := Recorded(k)[k - 1];
    assert Recorded(k - 1) + [l] == Recorded(k);
    assert l.length < 0x1_0000;
  }

  lemma GreTagFront(cfg: Config, data: seq<byte>, n: nat)
    requires cfg.layerMax >= 6 && GreTagCapture(data, n)
    ensures Step(cfg, Initial(data), DoEth, 0, n) == Next(On(data, Recorded(1), None), DoPppoe, 14, n - 14)
    ensures Step(cfg, On(data, Recorded(1), None), DoPppoe, 14, n - 14) ==
            Next(On(data, Recorded(2), None), DoPpp, 20, n - 20)
    ensures Step(cfg, On(data, Recorded(2), None), DoPpp, 20, n - 20) ==
            Next(On(data, Recorded(3), None), DoIp, 22, n - 22)
  {
    OneMore(cfg.layerMax, 1);
    OneMore(cfg.layerMax, 2);
    OneMore(cfg.layerMax, 3);
  }

  lemma GreTagIp(cfg: Config, data: seq<byte>, n: nat)
    requires cfg.layerMax >= 6 && GreTagCapture(data, n)
    ensures Step(cfg, On(data, Recorded(3), None), DoIp, 22, n - 22) ==
            Next(On(data, Recorded(4), Some(22)), DoGre, 42, n - 42)
  {
    OneMore(cfg.layerMax, 4);
  }

  lemma GreTagGre(cfg: Config, data: seq<byte>, n: nat)
    requires cfg.layerMax >= 6 && GreTagCapture(data, n)
    ensures Step(cfg, On(data, Recorded(4), Some(22)), DoGre, 42, n - 42) ==
            Next(On(data, Recorded(5), Some(22)), DoVlan, 46, n - 46)
  {
    OneMore(cfg.layerMax, 5);
    var w := data[42..n];
    assert w[0] == data[42] && w[1] == data[43] && w[2] == data[44] && w[3] == data[45];
    assert GreHeader.Length(w) == Some(4);
  }

  /** The whole capture comes to whatever the tag at 46 comes to. */
  lemma GreTagRun(cfg: Config, data: seq<byte>, n: nat, r: State)
    requires cfg.layerMax >= 6 && GreTagCapture(data, n)
    requires r == Run(cfg, On(data, Recorded(5), Some(22)), DoVlan, 46, n - 46)
    ensures Decode(cfg, data) == r
  {
    GreTagFront(cfg, data, n);
    GreTagIp(cfg, data, n);
    GreTagGre(cfg, data, n);
    assert Run(cfg, On(data, Recorded(4), Some(22)), DoGre, 42, n - 42) == r;
    assert Run(cfg, On(data, Recorded(3), None), DoIp, 22, n - 22) == r;
    assert Run(cfg, On(data, Recorded(2), None), DoPpp, 20, n - 20) == r;
    assert Run(cfg, On(data, Recorded(1), None), DoPppoe, 14, n - 14) == r;
  }

  lemma GreTagEnd(cfg: Config, data: seq<byte>)
    requires cfg.layerMax >= 7 && GreTagCapture(data, 56) && Be16(data, 48) == TYPE_PPPOE_SESS
    ensures Run(cfg, On(data, Recorded(5), Some(22)), DoVlan, 46, 10) == On(data, Recorded(7), Some(22))
  {
    OneMore(cfg.layerMax, 6);
    OneMore(cfg.layerMax, 7);
    var up := On(data, Recorded(5), Some(22));
    assert Step(cfg, up, DoVlan, 46, 10) == Next(up.(layers := Recorded(6)), DoPppoe, 50, 6);
    assert Step(cfg, up.(layers := Recorded(6)), DoPppoe, 50, 6) == Next(up.(layers := Recorded(7)), DoPpp, 56, 0);
    assert Run(cfg, up.(layers := Recorded(7)), DoPpp, 56, 0) == up.(layers := Recorded(7));
    assert Run(cfg, up.(layers := Recorded(6)), DoPppoe, 50, 6) == up.(layers := Recorded(7));
  }

  /** Behind GRE the tag does not hide it: a capture of 56 octets. */
  lemma GreTagShowsPppoe(cfg: Config, data: seq<byte>)
    requires cfg.layerMax >= 7 && GreTagCapture(data, 56) && Be16(data, 48) == TYPE_PPPOE_SESS
    ensures Decode(cfg, data).layers ==
            [Layer(Eth, 0, 14), Layer(Pppoe, 14, 6), Layer(PppEncap, 20, 2), Layer(Ip4, 22, 20),
             Layer(Gre, 42, 4), Layer(Vlan, 46, 4), Layer(Pppoe, 50, 6)]
  {
    GreTagEnd(cfg, data);
    GreTagRun(cfg, data, 56, On(data, Recorded(7), Some(22)));
  }

  // ------------------------------------------------------------------ whole runs

  /** If layer `i` is PPPoE right behind a tag, a GRE layer lies above both. */
  predicate TagBehindGre(layers: seq<Layer>, i: nat)
    requires i < |layers|
  {
    i > 0 && layers[i].proto.Pppoe? && layers[i - 1].proto.Vlan? ==> exists k :: 0 <= k < i - 1 && layers[k].proto.Gre?
  }

  predicate TagsBehindGre(layers: seq<Layer>) {
    forall i :: 0 <= i < |layers| ==> TagBehindGre(layers, i)
  }

  lemma PushTagLaw(max: nat, layers: seq<Layer>, l: Layer)
    requires TagsBehindGre(layers)
    requires l.proto.Pppoe? && layers != [] && |layers| < max && layers[|layers| - 1].proto.Vlan? ==> HasGre(layers)
    ensures TagsBehindGre(PushOn(max, layers, l.proto, l.start, l.length))
  {
    var more := PushOn(max, layers, l.proto, l.start, l.length);
    forall i | 0 <= i < |more| ensures TagBehindGre(more, i) {
      if i < |layers| {
        assert TagBehindGre(layers, i);
        if i > 0 && layers[i].proto.Pppoe? && layers[i - 1].proto.Vlan? {
          var k :| 0 <= k < i - 1 && layers[k].proto.Gre?;
          assert more[k] == layers[k];
        }
      } else if l.proto.Pppoe? && i > 0 && more[i - 1].proto.Vlan? {
        var k :| 0 <= k < |layers| && layers[k].proto.Gre?;
        assert more[k] == layers[k];
      }
    }
  }

  lemma LinkTagLaw(cfg: Config, st: State, call: Call, off: nat, len: nat, o: Outcome)
    requires Ready(st, call, off, len) && TagsBehindGre(st.layers) && o == Step(cfg, st, call, off, len)
    requires call.DoEth? || call.DoBridge? || call.DoVlan?
    ensures TagsBehindGre(o.st.layers)
  {
    if o.st.layers != st.layers {
      match call {
        case DoEth =>
          assert o == StepEth(cfg, st, off, len);
          PushTagLaw(cfg.layerMax, st.layers, Layer(Eth, off, 14));
        case DoBridge =>
          assert o == StepBridge(cfg, st, off, len);
          PushTagLaw(cfg.layerMax, st.layers, Layer(Eth, off, 14));
        case DoVlan =>
          assert o == StepVlan(cfg, st, off, len);
          PushTagLaw(cfg.layerMax, st.layers, Layer(Vlan, off, 4));
      }
    }
  }

  lemma NetTagLaw(cfg: Config, st: State, call: Call, off: nat, len: nat, o: Outcome)
    requires Ready(st, call, off, len) && TagsBehindGre(st.layers) && o == Step(cfg, st, call, off, len)
    requires call.DoPpp? || call.DoArp? || call.DoIp? || call.DoIpv6?
    ensures TagsBehindGre(o.st.layers)
  {
    if o.st.layers != st.layers {
      match call {
        case DoPpp =>
          assert o == StepPpp(cfg, st, off, len);
          PushTagLaw(cfg.layerMax, st.layers, Layer(PppEncap, off, PppProtocol(st.data, off).0));
        case DoArp => assert o == StepArp(cfg, st, off, len); PushTagLaw(cfg.layerMax, st.layers, Layer(Arp, off, 28));
        case DoIp =>
          IpPushes(cfg, st, off, len, o);
          PushTagLaw(cfg.layerMax, st.layers, Layer(Ip4, off, st.data[off] % 16 * 4));
      }
    }
  }

  lemma IpPushes(cfg: Config, st: State, off: nat, len: nat, o: Outcome)
    requires Ready(st, DoIp, off, len) && o == Step(cfg, st, DoIp, off, len) && o.st.layers != st.layers
    ensures off < |st.data| && o.st.layers == PushOn(cfg.layerMax, st.layers, Ip4, off, st.data[off] % 16 * 4)
  {
    assert o == StepIp(cfg, st, off, len);
  }

  lemma InnerTagLaw(cfg: Config, st: State, call: Call, off: nat, len: nat, o: Outcome)
    requires Ready(st, call, off, len) && TagsBehindGre(st.layers) && o == Step(cfg, st, call, off, len)
    requires call.DoGre? || call.DoEsp? || call.DoUdp? || call.DoGtp? || call.DoTcp? || call.DoIcmp?
    ensures TagsBehindGre(o.st.layers)
  {
    if o.st.layers != st.layers {
      match call {
        case DoGre =>
          assert o == StepGre(cfg, st, off, len);
          PushTagLaw(cfg.layerMax, st.layers, Layer(Gre, off, GreHeader.Length(st.data[off..off + len]).value));
        case DoUdp => assert o == StepUdp(cfg, st, off, len); PushTagLaw(cfg.layerMax, st.layers, Layer(Udp, off, 8));
        case DoGtp =>
          assert o == StepGtp(cfg, st, off, len);
          PushTagLaw(cfg.layerMax, st.layers, Layer(Gtp, off, GtpHeader.Length(st.data[off..off + len]).value));
        case DoTcp =>
          assert o == StepTcp(cfg, st, off, len);
          PushTagLaw(cfg.layerMax, st.layers, Layer(Tcp, off, st.data[off + 12] / 16 * 4));
        case DoIcmp =>
          assert o == StepIcmp(cfg, st, off, len);
          PushTagLaw(cfg.layerMax, st.layers, Layer(Icmp4, off, IcmpLayer(st.data[off])));
      }
    }
  }

  lemma PppoeTagLaw(cfg: Config, st: State, off: nat, len: nat, o: Outcome)
    requires Ready(st, DoPppoe, off, len) && TagsBehindGre(st.layers) && Course(cfg, st, DoPppoe, off)
    requires o == StepPppoe(cfg, st, off, len)
    ensures TagsBehindGre(o.st.layers)
  {
    if o.st.layers != st.layers {
      assert LastIsSession(st) && o.st.layers == PushOn(cfg.layerMax, st.layers, Pppoe, off, 6);
      PushTagLaw(cfg.layerMax, st.layers, Layer(Pppoe, off, 6));
    }
  }

  lemma {:induction false} RunTagLaw(cfg: Config, st: State, call: Call, off: nat, len: nat)
    requires Ready(st, call, off, len) && TagsBehindGre(st.layers) && Course(cfg, st, call, off)
    ensures TagsBehindGre(Run(cfg, st, call, off, len).layers)
    decreases len
  {
    var o := Step(cfg, st, call, off, len);
    match call {
      case DoPppoe => PppoeTagLaw(cfg, st, off, len, o);
      case DoEth | DoBridge | DoVlan => LinkTagLaw(cfg, st, call, off, len, o);
      case DoPpp | DoArp | DoIp | DoIpv6 => NetTagLaw(cfg, st, call, off, len, o);
      case DoGre | DoEsp | DoUdp | DoGtp | DoTcp | DoIcmp => InnerTagLaw(cfg, st, call, off, len, o);
    }
    StepCourse(cfg, st, call, off, len, o);
    if o.Next? {
      RunTagLaw(cfg, o.st, o.call, o.off, o.len);
    }
  }

  /** Whatever the capture: a PPPoE layer right behind a VLAN layer has a GRE
      layer somewhere above it. */
  lemma TaggedPppoeIsBehindGre(cfg: Config, data: seq<byte>, i: nat)
    requires 0 < i < |Decode(cfg, data).layers|
    ensures var layers := Decode(cfg, data).layers;
            layers[i].proto.Pppoe? && layers[i - 1].proto.Vlan? ==> exists k :: 0 <= k < i - 1 && layers[k].proto.Gre?
  {
    RunTagLaw(cfg, Initial(data), DoEth, 0, |data|);
    assert TagBehindGre(Decode(cfg, data).layers, i);
  }
}
