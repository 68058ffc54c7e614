/** How often a layer can occur in one decoding: IPv4 twice, GRE once, GTP once. */
module DecoderCounts {
  import opened Bytes
  import opened DecoderModel
  import GreHeader
  import GtpHeader

  function Count(layers: seq<Layer>, proto: Proto): nat {
    if layers == [] then 0
    else Count(layers[..|layers| - 1], proto) + if layers[|layers| - 1].proto == proto then 1 else 0
  }

  lemma {:induction false} CountPush(max: nat, layers: seq<Layer>, proto: Proto, start: nat, length: nat, p: Proto)
    ensures var n := Count(PushOn(max, layers, proto, start, length), p);
            n <= Count(layers, p) + if p == proto then 1 else 0
  {
    assert (layers + [Layer(proto, start, length % 0x1_0000)])[..|layers|] == layers;
  }

  /** At most this many IPv4, GRE and GTP layers. */
  predicate AtMost(layers: seq<Layer>, ip: nat, gre: nat, gtp: nat) {
    Count(layers, Ip4) <= ip && Count(layers, Gre) <= gre && Count(layers, Gtp) <= gtp
  }

  lemma PushAtMost(max: nat, layers: seq<Layer>, proto: Proto, start: nat, length: nat,
                   ip: nat, gre: nat, gtp: nat)
    requires AtMost(layers, ip, gre, gtp)
    ensures AtMost(PushOn(max, layers, proto, start, length),
                   ip + if proto == Ip4 then 1 else 0, gre + if proto == Gre then 1 else 0,
                   gtp + if proto == Gtp then 1 else 0)
  {
    CountPush(max, layers, proto, start, length, Ip4);
    CountPush(max, layers, proto, start, length, Gre);
    CountPush(max, layers, proto, start, length, Gtp);
  }

  /** Decoders that may be called behind a GRE header. */
  predicate BehindGre(call: Call) {
    (call.DoBridge? || call.DoVlan? || call.DoPppoe? || call.DoPpp? || call.DoArp? || call.DoIp? || call.DoIpv6?)
  }

  function IpBudget(st: State, call: Call): nat {
    if call.DoArp? || st.encapsulated then 2 else if st.iph.Some? then 1 else 0
  }

  function GreBudget(st: State, call: Call): nat {
    if call.DoArp? || st.encapsulated || (st.iph.Some? && BehindGre(call)) then 1 else 0
  }

  function GtpBudget(st: State): nat {
    if st.gtpEncapsulated then 1 else 0
  }

  /** What the fields of the packet promise about the layers laid so far. */
  predicate Budgeted(st: State, call: Call) {
    && AtMost(st.layers, IpBudget(st, call), GreBudget(st, call), GtpBudget(st))
    && (!call.DoArp? && st.iph.None? ==> !st.encapsulated)
  }

  predicate Within(o: Outcome) {
    && AtMost(o.st.layers, 2, 1, 1)
    && (o.Next? ==> Budgeted(o.st, o.call))
  }

  /** A step that lays at most one layer of another kind, keeps the fields, and
      goes on to a decoder whose budget is no smaller. */
  lemma PlainWithin(max: nat, st: State, call: Call, o: Outcome, proto: Proto, start: nat, length: nat)
    requires Budgeted(st, call)
    requires proto != Ip4 && proto != Gre && proto != Gtp
    requires o.st.layers == st.layers || o.st.layers == PushOn(max, st.layers, proto, start, length)
    requires o.Next? ==>
               && o.st.encapsulated == st.encapsulated && o.st.gtpEncapsulated == st.gtpEncapsulated
               && o.st.iph == st.iph && !call.DoArp?
               && (BehindGre(call) ==> BehindGre(o.call))
    ensures Within(o)
  {
    PushAtMost(max, st.layers, proto, start, length, IpBudget(st, call), GreBudget(st, call), GtpBudget(st));
  }

  lemma EthWithin(cfg: Config, st: State, call: Call, off: nat, len: nat)
    requires call == DoEth || call == DoBridge
    requires Ready(st, call, off, len) && Budgeted(st, call)
    ensures Within(Step(cfg, st, call, off, len))
  {
    PlainWithin(cfg.layerMax, st, call, Step(cfg, st, call, off, len), Eth, off, 14);
  }

  lemma VlanWithin(cfg: Config, st: State, off: nat, len: nat)
    requires Ready(st, DoVlan, off, len) && Budgeted(st, DoVlan)
    ensures Within(StepVlan(cfg, st, off, len))
  {
    PlainWithin(cfg.layerMax, st, DoVlan, StepVlan(cfg, st, off, len), Vlan, off, 4);
  }

  lemma PppoeWithin(cfg: Config, st: State, off: nat, len: nat)
    requires Ready(st, DoPppoe, off, len) && Budgeted(st, DoPppoe)
    ensures Within(StepPppoe(cfg, st, off, len))
  {
    PlainWithin(cfg.layerMax, st, DoPppoe, StepPppoe(cfg, st, off, len), Pppoe, off, 6);
  }

  lemma PppWithin(cfg: Config, st: State, off: nat, len: nat)
    requires Ready(st, DoPpp, off, len) && Budgeted(st, DoPpp)
    ensures Within(StepPpp(cfg, st, off, len))
  {
    var hlen := if len >= 2 then PppProtocol(st.data, off).0 else 0;
    PlainWithin(cfg.layerMax, st, DoPpp, StepPpp(cfg, st, off, len), PppEncap, off, hlen);
  }

  lemma IpWithin(cfg: Config, st: State, off: nat, len: nat)
    requires Ready(st, DoIp, off, len) && Budgeted(st, DoIp)
    ensures Within(StepIp(cfg, st, off, len))
  {
    if len >= 20 && !(st.iph.Some? && st.encapsulated) && Ip4Sound(st.data, off, len) {
      var st1 := st.(encapsulated := st.encapsulated || st.iph.Some?, iph := Some(off));
      AfterIpWithin(cfg, st1, off, len, IpBudget(st, DoIp), GreBudget(st, DoIp));
    }
  }

  lemma AfterIpWithin(cfg: Config, st: State, off: nat, len: nat, ip: nat, gre: nat)
    requires Ready(st.(iph := None), DoIp, off, len) && st.iph == Some(off)
    requires len >= 20 && Ip4Sound(st.data, off, len)
    requires AtMost(st.layers, ip, gre, GtpBudget(st))
    requires if st.encapsulated then ip <= 1 && gre <= 1 else ip == 0 && gre == 0
    ensures Within(AfterIp(cfg, st, off, len))
  {
    var hlen := st.data[off] % 16 * 4;
    PushAtMost(cfg.layerMax, st.layers, Ip4, off, hlen, ip, gre, GtpBudget(st));
    OneMoreIp(st, AfterIp(cfg, st, off, len), ip, gre);
  }

  lemma OneMoreIp(st: State, o: Outcome, ip: nat, gre: nat)
    requires AtMost(o.st.layers, ip + 1, gre, GtpBudget(st))
    requires if st.encapsulated then ip <= 1 && gre <= 1 else ip == 0 && gre == 0
    requires o.st.iph.Some? && o.st.encapsulated == st.encapsulated && o.st.gtpEncapsulated == st.gtpEncapsulated
    requires o.Next? ==> !o.call.DoArp?
    ensures Within(o)
  {
  }

  lemma EspWithin(cfg: Config, st: State, off: nat, len: nat)
    requires Ready(st, DoEsp, off, len) && Budgeted(st, DoEsp)
    ensures Within(StepEsp(st, off, len))
  {
    PlainWithin(cfg.layerMax, st, DoEsp, StepEsp(st, off, len), Eth, off, 0);
  }

  lemma GreWithin(cfg: Config, st: State, off: nat, len: nat)
    requires Ready(st, DoGre, off, len) && Budgeted(st, DoGre)
    ensures Within(StepGre(cfg, st, off, len))
  {
    var hlen := GreHeader.Length(st.data[off..off + len]);
    if !st.encapsulated && hlen.Some? {
      AfterGreWithin(cfg, st, off, len, hlen.value);
    }
  }

  lemma AfterGreWithin(cfg: Config, st: State, off: nat, len: nat, hlen: nat)
    requires Ready(st, DoGre, off, len) && 4 <= hlen <= len
    requires Budgeted(st, DoGre) && !st.encapsulated
    ensures Within(AfterGre(cfg, st, off, len, hlen))
  {
    PushAtMost(cfg.layerMax, st.layers, Gre, off, hlen, IpBudget(st, DoGre), GreBudget(st, DoGre), GtpBudget(st));
    var o := AfterGre(cfg, st, off, len, hlen);
    assert o.st.layers == PushOn(cfg.layerMax, st.layers, Gre, off, hlen);
    assert o.Next? ==> BehindGre(o.call);
  }

  lemma UdpWithin(cfg: Config, st: State, off: nat, len: nat)
    requires Ready(st, DoUdp, off, len) && Budgeted(st, DoUdp)
    ensures Within(StepUdp(cfg, st, off, len))
  {
    PlainWithin(cfg.layerMax, st, DoUdp, StepUdp(cfg, st, off, len), Udp, off, 8);
  }

  lemma GtpWithin(cfg: Config, st: State, off: nat, len: nat)
    requires Ready(st, DoGtp, off, len) && Budgeted(st, DoGtp)
    ensures Within(StepGtp(cfg, st, off, len))
  {
    var hlen := GtpHeader.Length(st.data[off..off + len]);
    if !st.gtpEncapsulated && hlen.Some? {
      var st1 := st.(gtpEncapsulated := true);
      AfterGtpWithin(cfg, st1, off, len, hlen.value);
      var o, o' := AfterGtp(cfg, st1, off, len, hlen.value), StepGtp(cfg, st, off, len);
      assert o' == o || (o'.Stop? && o'.st.layers == o.st.layers);
    }
  }

  lemma AfterGtpWithin(cfg: Config, st: State, off: nat, len: nat, hlen: nat)
    requires Ready(st, DoGtp, off, len) && 8 <= hlen <= len
    requires AtMost(st.layers, IpBudget(st, DoGtp), GreBudget(st, DoGtp), 0) && st.gtpEncapsulated
    ensures Within(AfterGtp(cfg, st, off, len, hlen))
  {
    PushAtMost(cfg.layerMax, st.layers, Gtp, off, hlen, IpBudget(st, DoGtp), GreBudget(st, DoGtp), 0);
    var o := AfterGtp(cfg, st, off, len, hlen);
    assert o.st.layers == PushOn(cfg.layerMax, st.layers, Gtp, off, hlen);
    assert o.Next? ==> !o.call.DoArp? && o.st.iph == st.iph && o.st.encapsulated == st.encapsulated;
  }

  lemma LastWithin(cfg: Config, st: State, call: Call, off: nat, len: nat)
    requires (call.DoArp? || call.DoIpv6? || call.DoTcp? || call.DoIcmp?)
    requires Ready(st, call, off, len) && Budgeted(st, call)
    ensures Within(Step(cfg, st, call, off, len))
  {
    var proto := if call.DoArp? then Arp else if call.DoTcp? then Tcp else Icmp4;
    var length := if call.DoArp? then 28
                  else if call.DoTcp? && len >= 20 then st.data[off + 12] / 16 * 4
                  else if call.DoIcmp? && len >= 4 then IcmpLayer(st.data[off]) else 0;
    PlainWithin(cfg.layerMax, st, call, Step(cfg, st, call, off, len), proto, off, length);
  }

  lemma StepWithin(cfg: Config, st: State, call: Call, off: nat, len: nat)
    requires Ready(st, call, off, len) && Budgeted(st, call)
    ensures Within(Step(cfg, st, call, off, len))
  {
    match call {
      case DoEth => EthWithin(cfg, st, call, off, len);
      case DoBridge => EthWithin(cfg, st, call, off, len);
      case DoVlan => VlanWithin(cfg, st, off, len);
      case DoPppoe => PppoeWithin(cfg, st, off, len);
      case DoPpp => PppWithin(cfg, st, off, len);
      case DoIp => IpWithin(cfg, st, off, len);
      case DoGre => GreWithin(cfg, st, off, len);
      case DoEsp => EspWithin(cfg, st, off, len);
      case DoUdp => UdpWithin(cfg, st, off, len);
      case DoGtp => GtpWithin(cfg, st, off, len);
      case _ => LastWithin(cfg, st, call, off, len);
    }
  }

  lemma {:induction false} RunWithin(cfg: Config, st: State, call: Call, off: nat, len: nat)
    requires Ready(st, call, off, len) && Budgeted(st, call)
    ensures AtMost(Run(cfg, st, call, off, len).layers, 2, 1, 1)
    decreases len
  {
    StepWithin(cfg, st, call, off, len);
    var o := Step(cfg, st, call, off, len);
    if o.Next? {
      RunWithin(cfg, o.st, o.call, o.off, o.len);
    }
  }

  /** Decoding any capture whatsoever lays at most two IPv4 layers, one GRE
      layer and one GTP layer. */
  lemma DecodeBounded(cfg: Config, data: seq<byte>)
    ensures AtMost(Decode(cfg, data).layers, 2, 1, 1)
  {
    RunWithin(cfg, Initial(data), DoEth, 0, |data|);
  }

  /** Once laid, the IPv4 header stays set for every further call, except for
      ARP behind GRE, which ends the decoding; the second IPv4 header marks the
      packet as encapsulated; nothing unmarks it. */
  lemma StepKeepsIp(cfg: Config, st: State, call: Call, off: nat, len: nat)
    requires Ready(st, call, off, len)
    ensures var o := Step(cfg, st, call, off, len);
            o.Next? ==>
              && (st.iph.Some? ==> o.st.iph.Some? || o.call == DoArp)
              && (st.encapsulated ==> o.st.encapsulated)
              && (st.gtpEncapsulated ==> o.st.gtpEncapsulated)
              && (call == DoIp && st.iph.Some? ==> o.st.encapsulated)
              && (call == DoGtp ==> o.st.gtpEncapsulated)
  {
  }
}
