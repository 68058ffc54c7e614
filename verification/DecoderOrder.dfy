/** Exactly when the recorded layers come in order. One branch can spoil it:
    a VLAN tag followed by an LLC header hands on the slice that starts 12
    octets into the capture, so what is recorded next lies before the tag. */
module DecoderOrder {
  import opened Bytes
  import opened DecoderModel
  import opened DecoderLaws
  import GreHeader
  import GtpHeader

  predicate InOrder(layers: seq<Layer>) {
    forall i, j :: 0 <= i < j < |layers| ==> End(layers[i]) <= layers[j].start
  }

  /** Would the decoder record a layer here? What it tests before it does. */
  predicate WillRecord(cfg: Config, st: State, call: Call, off: nat, len: nat)
    requires Ready(st, call, off, len)
  {
    && |st.layers| < cfg.layerMax
    && match call
       case DoVlan => len >= 4 && (IsLlc(st, off, len) ==> Rebases(st, off, len))
       case DoPppoe => len >= 6 && Be16(st.data, st.eh.value + 12) == TYPE_PPPOE_SESS
       case DoArp => len >= 28
       case DoIp => len >= 20 && !(st.iph.Some? && st.encapsulated) && Ip4Sound(st.data, off, len)
       case _ => false
  }

  /** The decoders that Ethernet and VLAN hand a slice to. */
  predicate BelowLink(call: Call) {
    call.DoVlan? || call.DoPppoe? || call.DoArp? || call.DoIp? || call.DoIpv6?
  }

  lemma IpRecordsIff(cfg: Config, st: State, off: nat, len: nat, o: Outcome)
    requires Ready(st, DoIp, off, len) && o == StepIp(cfg, st, off, len)
    ensures |o.st.layers| == |st.layers| + if WillRecord(cfg, st, DoIp, off, len) then 1 else 0
    ensures o.Next? && |st.layers| < cfg.layerMax ==> WillRecord(cfg, st, DoIp, off, len)
  {
  }

  lemma VlanRecordsIff(cfg: Config, st: State, off: nat, len: nat, o: Outcome)
    requires Ready(st, DoVlan, off, len) && o == StepVlan(cfg, st, off, len)
    ensures |o.st.layers| == |st.layers| + if WillRecord(cfg, st, DoVlan, off, len) then 1 else 0
    ensures o.Next? && |st.layers| < cfg.layerMax ==> WillRecord(cfg, st, DoVlan, off, len)
  {
  }

  lemma PppoeRecordsIff(cfg: Config, st: State, off: nat, len: nat, o: Outcome)
    requires Ready(st, DoPppoe, off, len) && o == StepPppoe(cfg, st, off, len)
    ensures |o.st.layers| == |st.layers| + if WillRecord(cfg, st, DoPppoe, off, len) then 1 else 0
    ensures o.Next? && |st.layers| < cfg.layerMax ==> WillRecord(cfg, st, DoPppoe, off, len)
  {
  }

  lemma RecordsIff(cfg: Config, st: State, call: Call, off: nat, len: nat, o: Outcome)
    requires Ready(st, call, off, len) && BelowLink(call) && o == Step(cfg, st, call, off, len)
    ensures |o.st.layers| == |st.layers| + if WillRecord(cfg, st, call, off, len) then 1 else 0
    ensures o.Next? && |st.layers| < cfg.layerMax ==> WillRecord(cfg, st, call, off, len)
  {
    match call {
      case DoVlan => VlanRecordsIff(cfg, st, off, len, o);
      case DoPppoe => PppoeRecordsIff(cfg, st, off, len, o);
      case DoIp => IpRecordsIff(cfg, st, off, len, o);
      case DoArp => assert o == StepArp(cfg, st, off, len);
      case DoIpv6 => assert o == StepIpv6(st, len);
    }
  }

  /** Somewhere the LLC branch is taken and the very next call records a layer. */
  predicate RunOverlaps(cfg: Config, st: State, call: Call, off: nat, len: nat)
    requires Ready(st, call, off, len)
    decreases len
  {
    var o := Step(cfg, st, call, off, len);
    && o.Next?
    && ((call.DoVlan? && Rebases(st, off, len) && WillRecord(cfg, o.st, o.call, o.off, o.len))
        || RunOverlaps(cfg, o.st, o.call, o.off, o.len))
  }

  /** A step records at most one layer, at the head of its slice and within it. */
  ghost predicate Records(cfg: Config, st: State, o: Outcome, off: nat, len: nat) {
    o.st.layers == st.layers
    || exists proto, length: nat :: length <= len && o.st.layers == PushOn(cfg.layerMax, st.layers, proto, off, length)
  }

  lemma OneRecorded(cfg: Config, st: State, o: Outcome, off: nat, len: nat, proto: Proto, length: nat)
    requires o.st.layers != st.layers ==> length <= len
    requires o.st.layers == st.layers || o.st.layers == PushOn(cfg.layerMax, st.layers, proto, off, length)
    ensures Records(cfg, st, o, off, len)
  {
  }

  lemma LinkRecords(cfg: Config, st: State, call: Call, off: nat, len: nat, o: Outcome)
    requires Ready(st, call, off, len) && o == Step(cfg, st, call, off, len)
    requires call.DoEth? || call.DoBridge? || call.DoVlan? || call.DoPppoe? || call.DoPpp? || call.DoArp?
    ensures Records(cfg, st, o, off, len)
  {
    match call {
      case DoEth => assert o == StepEth(cfg, st, off, len); OneRecorded(cfg, st, o, off, len, Eth, 14);
      case DoBridge => assert o == StepBridge(cfg, st, off, len); OneRecorded(cfg, st, o, off, len, Eth, 14);
      case DoVlan => assert o == StepVlan(cfg, st, off, len); OneRecorded(cfg, st, o, off, len, Vlan, 4);
      case DoPppoe => assert o == StepPppoe(cfg, st, off, len); OneRecorded(cfg, st, o, off, len, Pppoe, 6);
      case DoPpp => PppRecords(cfg, st, off, len, o);
      case DoArp => assert o == StepArp(cfg, st, off, len); OneRecorded(cfg, st, o, off, len, Arp, 28);
    }
  }

  lemma PppRecords(cfg: Config, st: State, off: nat, len: nat, o: Outcome)
    requires Ready(st, DoPpp, off, len) && o == StepPpp(cfg, st, off, len)
    ensures Records(cfg, st, o, off, len)
  {
    OneRecorded(cfg, st, o, off, len, PppEncap, if len >= 2 then PppProtocol(st.data, off).0 else 0);
  }

  lemma IpRecords(cfg: Config, st: State, off: nat, len: nat, o: Outcome)
    requires Ready(st, DoIp, off, len) && o == StepIp(cfg, st, off, len)
    ensures Records(cfg, st, o, off, len)
  {
    if len >= 20 {
      OneRecorded(cfg, st, o, off, len, Ip4, st.data[off] % 16 * 4);
    }
  }

  lemma LastRecords(cfg: Config, st: State, call: Call, off: nat, len: nat, o: Outcome)
    requires Ready(st, call, off, len) && o == Step(cfg, st, call, off, len)
    requires call.DoUdp? || call.DoTcp? || call.DoIcmp?
    ensures Records(cfg, st, o, off, len)
  {
    if o.st.layers != st.layers {
      match call {
        case DoUdp => assert o == StepUdp(cfg, st, off, len); OneRecorded(cfg, st, o, off, len, Udp, 8);
        case DoTcp =>
          assert o == StepTcp(cfg, st, off, len);
          OneRecorded(cfg, st, o, off, len, Tcp, st.data[off + 12] / 16 * 4);
        case DoIcmp =>
          assert o == StepIcmp(cfg, st, off, len);
          OneRecorded(cfg, st, o, off, len, Icmp4, IcmpLayer(st.data[off]));
      }
    }
  }

  lemma GreRecords(cfg: Config, st: State, off: nat, len: nat, o: Outcome)
    requires Ready(st, DoGre, off, len) && o == StepGre(cfg, st, off, len)
    ensures Records(cfg, st, o, off, len)
  {
    var hlen := GreHeader.Length(st.data[off..off + len]);
    if !st.encapsulated && hlen.Some? {
      OneRecorded(cfg, st, o, off, len, Gre, hlen.value);
    }
  }

  lemma GtpRecords(cfg: Config, st: State, off: nat, len: nat, o: Outcome)
    requires Ready(st, DoGtp, off, len) && o == StepGtp(cfg, st, off, len)
    ensures Records(cfg, st, o, off, len)
  {
    var hlen := GtpHeader.Length(st.data[off..off + len]);
    if !st.gtpEncapsulated && hlen.Some? {
      OneRecorded(cfg, st, o, off, len, Gtp, hlen.value);
    }
  }

  lemma StepRecords(cfg: Config, st: State, call: Call, off: nat, len: nat, o: Outcome)
    requires Ready(st, call, off, len) && o == Step(cfg, st, call, off, len)
    ensures Records(cfg, st, o, off, len)
  {
    match call {
      case DoIp => IpRecords(cfg, st, off, len, o);
      case DoIpv6 => assert o == StepIpv6(st, len);
      case DoGre => GreRecords(cfg, st, off, len, o);
      case DoEsp => assert o == StepEsp(st, off, len);
      case DoUdp | DoTcp | DoIcmp => LastRecords(cfg, st, call, off, len, o);
      case DoGtp => GtpRecords(cfg, st, off, len, o);
      case DoEth | DoBridge | DoVlan | DoPppoe | DoPpp | DoArp => LinkRecords(cfg, st, call, off, len, o);
    }
  }

  /** The table holds no more than it may, and all of it lies in the capture. */
  predicate Inside(cfg: Config, size: nat, layers: seq<Layer>) {
    |layers| <= cfg.layerMax && forall i :: 0 <= i < |layers| ==> End(layers[i]) <= size
  }

  lemma RecordsInside(cfg: Config, st: State, o: Outcome, off: nat, len: nat, size: nat)
    requires Records(cfg, st, o, off, len) && off + len <= size && Inside(cfg, size, st.layers)
    ensures Inside(cfg, size, o.st.layers)
  {
    if o.st.layers != st.layers {
      var proto, length: nat :| length <= len && o.st.layers == PushOn(cfg.layerMax, st.layers, proto, off, length);
      assert length % 0x1_0000 <= length;
    }
  }

  lemma {:induction false} RunInside(cfg: Config, st: State, call: Call, off: nat, len: nat)
    requires Ready(st, call, off, len) && Inside(cfg, |st.data|, st.layers)
    ensures Inside(cfg, |st.data|, Run(cfg, st, call, off, len).layers)
    decreases len
  {
    var o := Step(cfg, st, call, off, len);
    StepRecords(cfg, st, call, off, len, o);
    RecordsInside(cfg, st, o, off, len, |st.data|);
    if o.Next? {
      RunInside(cfg, o.st, o.call, o.off, o.len);
    }
  }

  /** Whatever the capture, LLC branch or not: at most `layerMax` layers are
      recorded, and each of them lies inside the capture. */
  lemma DecodeStaysInside(cfg: Config, data: seq<byte>)
    ensures var r := Decode(cfg, data);
            && |r.data| == |data| && |r.layers| <= cfg.layerMax
            && forall i :: 0 <= i < |r.layers| ==> r.layers[i].start + r.layers[i].length <= |data|
  {
    RunInside(cfg, Initial(data), DoEth, 0, |data|);
  }

  /** Decoding only ever appends to the table, and not at all when it is full. */
  lemma {:induction false} RunAppends(cfg: Config, st: State, call: Call, off: nat, len: nat)
    requires Ready(st, call, off, len)
    ensures st.layers <= Run(cfg, st, call, off, len).layers
    ensures |st.layers| >= cfg.layerMax ==> Run(cfg, st, call, off, len).layers == st.layers
    decreases len
  {
    var o := Step(cfg, st, call, off, len);
    StepRecords(cfg, st, call, off, len, o);
    if o.Next? {
      RunAppends(cfg, o.st, o.call, o.off, o.len);
    }
  }

  /** The slice behind the outermost Ethernet header starts at 14 or later. */
  predicate BehindEthernet(call: Call, off: nat) {
    call.DoEth? || off >= 14
  }

  lemma StackedIsInOrder(d: seq<byte>, layers: seq<Layer>)
    requires Stacked(d, layers)
    ensures InOrder(layers)
  {
    forall i, j | 0 <= i < j < |layers| ensures End(layers[i]) <= layers[j].start {
      StackedInOrder(d, layers, i, j);
    }
  }

  /** The step that takes the LLC branch still leaves the layers in order. */
  lemma RebaseRecords(cfg: Config, st: State, off: nat, len: nat, o: Outcome)
    requires Ready(st, DoVlan, off, len) && Before(cfg, st, DoVlan, off) && Rebases(st, off, len)
    requires o == StepVlan(cfg, st, off, len)
    ensures o.st.layers == PushOn(cfg.layerMax, st.layers, Vlan, off, 4) && InOrder(o.st.layers)
    ensures o.Next? ==> o.off == 12 && BelowLink(o.call)
  {
    PushLaid(cfg.layerMax, st.data, st.layers, off, Vlan, 4);
    StackedIsInOrder(st.data, PushOn(cfg.layerMax, st.layers, Vlan, off, 4));
  }

  /** A layer recorded at 12 right behind the tag. */
  lemma TagThenTwelve(cfg: Config, st: State, off: nat, len: nat, o: Outcome, o2: Outcome, n: nat)
    requires Ready(st, DoVlan, off, len) && Before(cfg, st, DoVlan, off) && Rebases(st, off, len)
    requires o == StepVlan(cfg, st, off, len) && o.Next? && n == |st.layers|
    requires WillRecord(cfg, o.st, o.call, o.off, o.len) && o2 == Step(cfg, o.st, o.call, o.off, o.len)
    ensures |o2.st.layers| == n + 2 && o2.st.layers[n] == Layer(Vlan, off, 4) && o2.st.layers[n + 1].start == 12
  {
    RebaseRecords(cfg, st, off, len, o);
    RecordsIff(cfg, o.st, o.call, o.off, o.len, o2);
    StepRecords(cfg, o.st, o.call, o.off, o.len, o2);
  }

  /** Where the next call records, the order is broken for good. */
  lemma OverlapBreaksOrder(cfg: Config, st: State, off: nat, len: nat, o: Outcome, r: State)
    requires Ready(st, DoVlan, off, len) && Before(cfg, st, DoVlan, off) && off >= 14
    requires Rebases(st, off, len) && o == StepVlan(cfg, st, off, len) && o.Next?
    requires WillRecord(cfg, o.st, o.call, o.off, o.len) && r == Run(cfg, o.st, o.call, o.off, o.len)
    ensures !InOrder(r.layers)
  {
    var n, o2 := |st.layers|, Step(cfg, o.st, o.call, o.off, o.len);
    TagThenTwelve(cfg, st, off, len, o, o2, n);
    FirstStepStays(cfg, o.st, o.call, o.off, o.len, o2, r);
    assert End(r.layers[n]) == off + 4 && r.layers[n + 1].start == 12;
  }

  /** What the first step recorded is still there at the end. */
  lemma FirstStepStays(cfg: Config, st: State, call: Call, off: nat, len: nat, o: Outcome, r: State)
    requires Ready(st, call, off, len) && o == Step(cfg, st, call, off, len) && r == Run(cfg, st, call, off, len)
    ensures o.st.layers <= r.layers
  {
    if o.Next? {
      RunAppends(cfg, o.st, o.call, o.off, o.len);
    }
  }

  /** And where it does not, nothing more is recorded. */
  lemma NoOverlapKeepsOrder(cfg: Config, st: State, off: nat, len: nat, o: Outcome, r: State)
    requires Ready(st, DoVlan, off, len) && Before(cfg, st, DoVlan, off)
    requires Rebases(st, off, len) && o == StepVlan(cfg, st, off, len)
    requires o.Next? ==> !WillRecord(cfg, o.st, o.call, o.off, o.len)
    requires r == if o.Stop? then o.st else Run(cfg, o.st, o.call, o.off, o.len)
    ensures r.layers == o.st.layers && InOrder(r.layers)
    ensures o.Next? ==> !RunOverlaps(cfg, o.st, o.call, o.off, o.len)
  {
    RebaseRecords(cfg, st, off, len, o);
    if o.Next? {
      QuietCall(cfg, o.st, o.call, o.off, o.len);
    }
  }

  /** A call that records nothing is the last one, or the table is full. */
  lemma QuietCall(cfg: Config, st: State, call: Call, off: nat, len: nat)
    requires Ready(st, call, off, len) && BelowLink(call) && !WillRecord(cfg, st, call, off, len)
    ensures Run(cfg, st, call, off, len).layers == st.layers
    ensures !RunOverlaps(cfg, st, call, off, len)
  {
    if |st.layers| < cfg.layerMax {
      var o := Step(cfg, st, call, off, len);
      RecordsIff(cfg, st, call, off, len, o);
      StepRecords(cfg, st, call, off, len, o);
    } else {
      RunAppends(cfg, st, call, off, len);
      FullNeverOverlaps(cfg, st, call, off, len);
    }
  }

  lemma {:induction false} RunInOrderIff(cfg: Config, st: State, call: Call, off: nat, len: nat, o: Outcome, r: State)
    requires Ready(st, call, off, len) && Before(cfg, st, call, off) && BehindEthernet(call, off)
    requires o == Step(cfg, st, call, off, len) && r == Run(cfg, st, call, off, len)
    ensures InOrder(r.layers) <==> !RunOverlaps(cfg, st, call, off, len)
    decreases len
  {
    var r1 := if o.Stop? then o.st else Run(cfg, o.st, o.call, o.off, o.len);
    assert r.layers == r1.layers;
    if call.DoVlan? && Rebases(st, off, len) {
      if o.Next? && WillRecord(cfg, o.st, o.call, o.off, o.len) {
        OverlapBreaksOrder(cfg, st, off, len, o, r1);
      } else {
        NoOverlapKeepsOrder(cfg, st, off, len, o, r1);
      }
    } else {
      StepLaid(cfg, st, call, off, len);
      StepNests(cfg, st, call, off, len);
      if o.Next? {
        RunInOrderIff(cfg, o.st, o.call, o.off, o.len, Step(cfg, o.st, o.call, o.off, o.len), r1);
      } else {
        StackedIsInOrder(o.st.data, o.st.layers);
      }
    }
  }

  lemma {:induction false} FullNeverOverlaps(cfg: Config, st: State, call: Call, off: nat, len: nat)
    requires Ready(st, call, off, len) && |st.layers| >= cfg.layerMax
    ensures !RunOverlaps(cfg, st, call, off, len)
    decreases len
  {
    var o := Step(cfg, st, call, off, len);
    StepRecords(cfg, st, call, off, len, o);
    if o.Next? {
      FullNeverOverlaps(cfg, o.st, o.call, o.off, o.len);
    }
  }

  /** The layers of a decoded capture are in increasing order and disjoint iff
      no call behind the LLC branch recorded a layer. */
  lemma DecodeInOrderIff(cfg: Config, data: seq<byte>)
    ensures InOrder(Decode(cfg, data).layers) <==> !RunOverlaps(cfg, Initial(data), DoEth, 0, |data|)
  {
    var st := Initial(data);
    RunInOrderIff(cfg, st, DoEth, 0, |data|, Step(cfg, st, DoEth, 0, |data|), Decode(cfg, data));
  }

  /** Captures of 30 octets whose layers overlap: the second VLAN layer is
      recorded at 12, inside the Ethernet header. */
  lemma OverlapExample(cfg: Config, data: seq<byte>)
    requires cfg.layerMax >= 3
    requires |data| == 30 && Be16(data, 12) == TYPE_VLAN && Be16(data, 14) == 0x9999 && Be16(data, 16) == 0
    requires data[18] == 0xaa && data[19] == 0xaa && Be16(data, 24) == TYPE_VLAN
    ensures Decode(cfg, data).layers == [Layer(Eth, 0, 14), Layer(Vlan, 14, 4), Layer(Vlan, 12, 4)]
  {
    var s0 := Initial(data);
    var o1 := StepEth(cfg, s0, 0, 30);
    assert o1.call == DoVlan && o1.st.layers == [Layer(Eth, 0, 14)];
    var o2 := StepVlan(cfg, o1.st, 14, 16);
    assert o2.call == DoVlan && o2.off == 12 && o2.len == 4;
    assert o2.st.layers == [Layer(Eth, 0, 14), Layer(Vlan, 14, 4)];
    var o3 := StepVlan(cfg, o2.st, 12, 4);
    assert o3.Stop? && o3.st.layers == o2.st.layers + [Layer(Vlan, 12, 4)];
    assert Run(cfg, o2.st, DoVlan, 12, 4) == o3.st;
    assert Run(cfg, o1.st, DoVlan, 14, 16) == o3.st;
  }
}
