/** How far the recorded layers reach: what lies behind an IPv4 header ends
    within the datagram that its total length field delimits, and the length
    fields of the UDP and GTP headers in it agree with that. */
module DecoderExtents {
  import opened Bytes
  import opened DecoderModel
  import opened DecoderLaws
  import opened DecoderCourse
  import opened DecoderLateWrites
  import opened DecoderTrailers
  import GreHeader
  import GtpHeader

  /** Where the slice behind these layers has to end: with the innermost IPv4
      datagram, or with the capture. */
  function Limit(d: seq<byte>, layers: seq<Layer>): nat {
    if layers == [] then |d|
    else
      var last := layers[|layers| - 1];
      if last.proto.Ip4? then last.start + Total(d, last) else Limit(d, layers[..|layers| - 1])
  }

  /** A UDP header right behind an IPv4 header that is no fragment: its length
      field reaches to the end of the datagram. With ESP between them, trailer
      and authentication data come behind. */
  predicate UdpFills(d: seq<byte>, ip: Layer, l: Layer) {
    && ip.start + 8 <= |d| && l.start + 6 <= |d|
    && (!IsFragment(d, ip.start) ==>
          if EspBelow(d, ip) then l.start + Be16(d, l.start + 4) + 14 <= ip.start + Total(d, ip)
          else l.start + Be16(d, l.start + 4) == ip.start + Total(d, ip))
  }

  /** The length field of a GTP header, which does not count the octets of its
      own fixed part, reaches to where that of the UDP header above it does. */
  predicate GtpFills(d: seq<byte>, udp: Layer, l: Layer) {
    && udp.start + 6 <= |d| && l.start + 4 <= |d|
    && l.start + Be16(d, l.start + 2) + (if d[l.start] / 32 == 0 then 20 else 8) == udp.start + Be16(d, udp.start + 4)
  }

  /** Layer `l`, recorded behind `layers`, keeps within them. */
  predicate Agrees(d: seq<byte>, layers: seq<Layer>, l: Layer) {
    && End(l) <= Limit(d, layers)
    && (l.proto.Ip4? ==> l.length >= 20 && l.start + Total(d, l) <= Limit(d, layers))
    && (l.proto.Udp? ==>
          l.length == 8 && layers != [] && layers[|layers| - 1].proto.Ip4? && UdpFills(d, layers[|layers| - 1], l))
    && (l.proto.Gtp? ==>
          l.length >= 8 && layers != [] && layers[|layers| - 1].proto.Udp? && GtpFills(d, layers[|layers| - 1], l))
  }

  predicate AgreesAt(d: seq<byte>, layers: seq<Layer>, i: nat)
    requires i < |layers|
  {
    Agrees(d, layers[..i], layers[i])
  }

  predicate AllAgree(d: seq<byte>, layers: seq<Layer>) {
    forall i :: 0 <= i < |layers| ==> AgreesAt(d, layers, i)
  }

  // ------------------------------------------------------------ one call at a time

  /** What a call finds: its slice ends within the limit; UDP and ESP stand right
      behind the IPv4 header and fill what it leaves, GTP what UDP leaves. */
  predicate Fills(st: State, call: Call, end: nat) {
    && end <= Limit(st.data, st.layers)
    && (call.DoUdp? || call.DoEsp? || call.DoGtp? ==> st.layers != [])
    && (call.DoUdp? || call.DoEsp? ==> BehindDatagram(st, st.layers[|st.layers| - 1], call.DoEsp?, end))
    && (call.DoGtp? ==> BehindUdp(st, st.layers[|st.layers| - 1], end))
  }

  predicate BehindDatagram(st: State, ip: Layer, esp: bool, end: nat) {
    && ip.proto.Ip4? && ip.start + 20 <= |st.data|
    && st.fragmented == IsFragment(st.data, ip.start)
    && (esp ==> EspBelow(st.data, ip))
    && (if EspBelow(st.data, ip) && !esp then end + 14 <= ip.start + Total(st.data, ip)
        else end == ip.start + Total(st.data, ip))
  }

  predicate BehindUdp(st: State, udp: Layer, end: nat) {
    udp.proto.Udp? && udp.start + 6 <= |st.data| && end == udp.start + Be16(st.data, udp.start + 4)
  }

  /** Kept before each call; a full table asks nothing of the slice. */
  predicate Extents(cfg: Config, st: State, call: Call, end: nat) {
    AllAgree(st.data, st.layers) && (|st.layers| < cfg.layerMax ==> Fills(st, call, end))
  }

  predicate ExtentsAfter(cfg: Config, o: Outcome) {
    AllAgree(o.st.data, o.st.layers) && (o.Next? ==> Extents(cfg, o.st, o.call, o.off + o.len))
  }

  lemma OneMoreAgrees(d: seq<byte>, layers: seq<Layer>, l: Layer)
    requires AllAgree(d, layers) && Agrees(d, layers, l)
    ensures AllAgree(d, layers + [l])
    ensures Limit(d, layers + [l]) == if l.proto.Ip4? then l.start + Total(d, l) else Limit(d, layers)
  {
    var more := layers + [l];
    assert more[..|layers|] == layers;
    forall i | 0 <= i < |more| ensures AgreesAt(d, more, i) {
      if i < |layers| {
        assert AgreesAt(d, layers, i) && more[..i] == layers[..i];
      }
    }
  }

  /** Calls whose slice may end anywhere within the limit. */
  predicate Anywhere(call: Call) {
    !call.DoUdp? && !call.DoEsp? && !call.DoGtp?
  }

  lemma PlainPush(max: nat, d: seq<byte>, layers: seq<Layer>, l: Layer, end: nat, more: seq<Layer>)
    requires AllAgree(d, layers) && (|layers| < max ==> End(l) <= end <= Limit(d, layers))
    requires l.length < 0x1_0000 && !l.proto.Ip4? && !l.proto.Udp? && !l.proto.Gtp?
    requires more == PushOn(max, layers, l.proto, l.start, l.length)
    ensures AllAgree(d, more) && (|more| < max ==> end <= Limit(d, more))
  {
    if |layers| < max {
      assert Layer(l.proto, l.start, l.length % 0x1_0000) == l;
      OneMoreAgrees(d, layers, l);
    }
  }

  /** A step that records at most a layer other than IPv4, UDP and GTP. */
  lemma PlainExtents(cfg: Config, st: State, call: Call, off: nat, len: nat, o: Outcome, l: Layer)
    requires Extents(cfg, st, call, off + len) && o.st.data == st.data
    requires o.st.layers == st.layers || o.st.layers == PushOn(cfg.layerMax, st.layers, l.proto, l.start, l.length)
    requires l.length < 0x1_0000 && !l.proto.Ip4? && !l.proto.Udp? && !l.proto.Gtp?
    requires o.st.layers != st.layers ==> End(l) <= off + len
    requires o.Next? ==> Anywhere(o.call) && o.off + o.len <= off + len
    ensures ExtentsAfter(cfg, o)
  {
    if o.st.layers != st.layers {
      PlainPush(cfg.layerMax, st.data, st.layers, l, off + len, o.st.layers);
    }
  }

  lemma LinkExtents(cfg: Config, st: State, call: Call, off: nat, len: nat, o: Outcome)
    requires Ready(st, call, off, len) && Extents(cfg, st, call, off + len) && o == Step(cfg, st, call, off, len)
    requires call.DoEth? || call.DoBridge? || call.DoPppoe? || call.DoArp?
    ensures ExtentsAfter(cfg, o)
  {
    match call {
      case DoEth =>
        assert o == StepEth(cfg, st, off, len);
        PlainExtents(cfg, st, call, off, len, o, Layer(Eth, off, 14));
      case DoBridge =>
        assert o == StepBridge(cfg, st, off, len);
        PlainExtents(cfg, st, call, off, len, o, Layer(Eth, off, 14));
      case DoPppoe =>
        assert o == StepPppoe(cfg, st, off, len);
        PlainExtents(cfg, st, call, off, len, o, Layer(Pppoe, off, 6));
      case DoArp =>
        assert o == StepArp(cfg, st, off, len);
        PlainExtents(cfg, st, call, off, len, o, Layer(Arp, off, 28));
    }
  }

  lemma VlanExtents(cfg: Config, st: State, off: nat, len: nat, o: Outcome)
    requires Ready(st, DoVlan, off, len) && Extents(cfg, st, DoVlan, off + len)
    requires o == StepVlan(cfg, st, off, len)
    ensures ExtentsAfter(cfg, o)
  {
    PlainExtents(cfg, st, DoVlan, off, len, o, Layer(Vlan, off, 4));
  }

  /** A step that records an IPv4 header and hands on what is left of its datagram. */
  lemma DatagramExtents(cfg: Config, st: State, end: nat, o: Outcome, l: Layer)
    requires Extents(cfg, st, DoIp, end) && l.proto.Ip4? && 20 <= l.length < 0x1_0000 && l.start + 20 <= |st.data|
    requires End(l) <= l.start + Total(st.data, l) <= end
    requires o.st.data == st.data && o.st.layers == PushOn(cfg.layerMax, st.layers, Ip4, l.start, l.length)
    requires o.Next? ==>
               && o.st.fragmented == IsFragment(st.data, l.start) && o.off + o.len == l.start + Total(st.data, l)
               && !o.call.DoGtp? && (o.call.DoEsp? <==> EspBelow(st.data, l))
    ensures ExtentsAfter(cfg, o)
  {
    if |st.layers| < cfg.layerMax {
      assert Layer(Ip4, l.start, l.length % 0x1_0000) == l;
      OneMoreAgrees(st.data, st.layers, l);
    }
  }

  lemma AfterIpExtents(cfg: Config, st: State, st1: State, off: nat, len: nat)
    requires Ready(st1.(iph := None), DoIp, off, len) && st1.iph == Some(off) && len >= 20
    requires Ip4Sound(st1.data, off, len) && st1.data == st.data && st1.layers == st.layers
    requires Extents(cfg, st, DoIp, off + len)
    ensures ExtentsAfter(cfg, AfterIp(cfg, st1, off, len))
  {
    var hlen := st.data[off] % 16 * 4;
    EspIsBelow(cfg, st.data, off, hlen);
    DatagramExtents(cfg, st, off + len, AfterIp(cfg, st1, off, len), Layer(Ip4, off, hlen));
  }

  lemma IpExtents(cfg: Config, st: State, off: nat, len: nat, o: Outcome)
    requires Ready(st, DoIp, off, len) && Extents(cfg, st, DoIp, off + len) && o == StepIp(cfg, st, off, len)
    ensures ExtentsAfter(cfg, o)
  {
    if len >= 20 && !(st.iph.Some? && st.encapsulated) && Ip4Sound(st.data, off, len) {
      AfterIpExtents(cfg, st, st.(encapsulated := st.encapsulated || st.iph.Some?, iph := Some(off)), off, len);
    }
  }

  lemma EspExtents(cfg: Config, st: State, off: nat, len: nat, o: Outcome)
    requires Ready(st, DoEsp, off, len) && Extents(cfg, st, DoEsp, off + len) && o == StepEsp(st, off, len)
    ensures ExtentsAfter(cfg, o)
  {
    assert o.st.layers == st.layers && o.st.data == st.data;
    if o.Next? {
      assert o.off + o.len + 14 <= off + len && o.st.fragmented == st.fragmented;
    }
  }

  lemma GreExtents(cfg: Config, st: State, off: nat, len: nat, o: Outcome)
    requires Ready(st, DoGre, off, len) && Extents(cfg, st, DoGre, off + len) && o == StepGre(cfg, st, off, len)
    ensures ExtentsAfter(cfg, o)
  {
    var hlen := GreHeader.Length(st.data[off..off + len]);
    if !st.encapsulated && hlen.Some? {
      assert o == AfterGre(cfg, st, off, len, hlen.value);
      PlainExtents(cfg, st, DoGre, off, len, o, Layer(Gre, off, hlen.value));
    }
  }

  lemma UdpExtents(cfg: Config, st: State, off: nat, len: nat, o: Outcome)
    requires Ready(st, DoUdp, off, len) && Extents(cfg, st, DoUdp, off + len) && o == StepUdp(cfg, st, off, len)
    ensures ExtentsAfter(cfg, o)
  {
    if len >= 8 {
      var l := Layer(Udp, off, 8);
      if o.st.layers != st.layers {
        assert o.st.layers == st.layers + [l];
        UdpAgrees(st, off, len, l);
        OneMoreAgrees(st.data, st.layers, l);
        assert o.Next? ==> o.call.DoGtp? && !st.fragmented;
      }
    }
  }

  lemma UdpAgrees(st: State, off: nat, len: nat, l: Layer)
    requires Ready(st, DoUdp, off, len) && Fills(st, DoUdp, off + len) && l == Layer(Udp, off, 8)
    requires len >= 8 && UdpLength(st, off) == len
    ensures Agrees(st.data, st.layers, l)
  {
  }

  lemma GtpLengthField(d: seq<byte>, off: nat, len: nat)
    requires off + len <= |d| && GtpHeader.Length(d[off..off + len]).Some?
    ensures len >= 8 && len == Be16(d, off + 2) + if d[off] / 32 == 0 then 20 else 8
  {
    var w := d[off..off + len];
    assert Be16(w, 2) == Be16(d, off + 2);
  }

  lemma AfterGtpExtents(cfg: Config, st: State, st1: State, off: nat, len: nat, hlen: nat)
    requires Ready(st, DoGtp, off, len) && Extents(cfg, st, DoGtp, off + len) && 8 <= hlen <= len
    requires len == Be16(st.data, off + 2) + (if st.data[off] / 32 == 0 then 20 else 8)
    requires st1 == st.(gtpEncapsulated := true)
    ensures ExtentsAfter(cfg, AfterGtp(cfg, st1, off, len, hlen))
  {
    var o := AfterGtp(cfg, st1, off, len, hlen);
    assert o.st.layers == PushOn(cfg.layerMax, st.layers, Gtp, off, hlen) && o.st.data == st.data;
    assert o.Next? ==> Anywhere(o.call) && o.off + o.len == off + len;
    if |st.layers| < cfg.layerMax {
      var l := Layer(Gtp, off, hlen);
      assert hlen % 0x1_0000 == hlen;
      OneMoreAgrees(st.data, st.layers, l);
    }
  }

  lemma GtpExtents(cfg: Config, st: State, off: nat, len: nat, o: Outcome)
    requires Ready(st, DoGtp, off, len) && Extents(cfg, st, DoGtp, off + len) && o == StepGtp(cfg, st, off, len)
    ensures ExtentsAfter(cfg, o)
  {
    var hlen := GtpHeader.Length(st.data[off..off + len]);
    if !st.gtpEncapsulated && hlen.Some? {
      GtpLengthField(st.data, off, len);
      AfterGtpExtents(cfg, st, st.(gtpEncapsulated := true), off, len, hlen.value);
    }
  }

  lemma LastExtents(cfg: Config, st: State, call: Call, off: nat, len: nat, o: Outcome)
    requires Ready(st, call, off, len) && Extents(cfg, st, call, off + len) && o == Step(cfg, st, call, off, len)
    requires call.DoTcp? || call.DoIcmp? || call.DoIpv6?
    ensures ExtentsAfter(cfg, o)
  {
    match call {
      case DoTcp =>
        assert o == StepTcp(cfg, st, off, len);
        var hlen := if len >= 20 then st.data[off + 12] / 16 * 4 else 0;
        PlainExtents(cfg, st, call, off, len, o, Layer(Tcp, off, hlen));
      case DoIcmp =>
        assert o == StepIcmp(cfg, st, off, len);
        var n := if len >= 4 then IcmpLayer(st.data[off]) else 0;
        PlainExtents(cfg, st, call, off, len, o, Layer(Icmp4, off, n));
      case DoIpv6 =>
        assert o == StepIpv6(st, len);
    }
  }

  // ---------------------------------------------------- PPP, which may write ahead

  /** The octet is none that a length field of these layers holds. */
  predicate Harmless(layers: seq<Layer>, w: nat) {
    NoTransport(layers) && forall i :: 0 <= i < |layers| && layers[i].proto.Ip4? ==> layers[i].start + 4 <= w
  }

  lemma {:induction false} LimitStays(d: seq<byte>, d': seq<byte>, layers: seq<Layer>, w: nat)
    requires w < |d| && d' == d[w := PROTO_TCP] && Harmless(layers, w)
    ensures Limit(d', layers) == Limit(d, layers)
    decreases |layers|
  {
    if layers != [] {
      LimitStays(d, d', layers[..|layers| - 1], w);
    }
  }

  lemma {:induction false} RewriteExtents(d: seq<byte>, d': seq<byte>, layers: seq<Layer>, w: nat)
    requires AllAgree(d, layers) && w < |d| && d' == d[w := PROTO_TCP] && Harmless(layers, w)
    ensures AllAgree(d', layers) && Limit(d', layers) == Limit(d, layers)
  {
    LimitStays(d, d', layers, w);
    forall i | 0 <= i < |layers| ensures AgreesAt(d', layers, i) {
      assert AgreesAt(d, layers, i);
      LimitStays(d, d', layers[..i], w);
    }
  }

  lemma PppExtents(cfg: Config, st: State, off: nat, len: nat, o: Outcome)
    requires Ready(st, DoPpp, off, len) && Extents(cfg, st, DoPpp, off + len) && o == StepPpp(cfg, st, off, len)
    requires Course(cfg, st, DoPpp, off)
    ensures ExtentsAfter(cfg, o)
  {
    PppWritesOne(cfg, st, off, len, o);
    WritesBehindLengths(cfg, st, off, len);
    var st1 := st.(data := o.st.data);
    if VjWrites(st, off, len) {
      RewriteExtents(st.data, st1.data, st.layers, VjAt(st, off, len));
    }
    if o.st.layers != st.layers {
      PlainExtents(cfg, st1, DoPpp, off, len, o, Layer(PppEncap, off, PppProtocol(st.data, off).0));
    }
  }

  lemma PppWritesOne(cfg: Config, st: State, off: nat, len: nat, o: Outcome)
    requires Ready(st, DoPpp, off, len) && o == StepPpp(cfg, st, off, len)
    ensures o.st.data == if VjWrites(st, off, len) then st.data[VjAt(st, off, len) := PROTO_TCP] else st.data
    ensures VjWrites(st, off, len) ==> VjAt(st, off, len) >= off + 10
    ensures len < 2 ==> o == Stop(st)
    ensures len >= 2 ==>
              o.st.layers == st.layers ||
              o.st.layers == PushOn(cfg.layerMax, st.layers, PppEncap, off, PppProtocol(st.data, off).0)
    ensures o.Next? ==>
              && len >= 2 && o.call.DoIp? && o.off + o.len == off + len
              && o.st.layers == PushOn(cfg.layerMax, st.layers, PppEncap, off, PppProtocol(st.data, off).0)
  {
  }

  // ------------------------------------------------------------------ whole runs

  /** Every call whatsoever keeps the extents. */
  lemma StepExtents(cfg: Config, st: State, call: Call, off: nat, len: nat, o: Outcome)
    requires Ready(st, call, off, len) && Course(cfg, st, call, off) && Extents(cfg, st, call, off + len)
    requires o == Step(cfg, st, call, off, len)
    ensures ExtentsAfter(cfg, o)
  {
    match call {
      case DoVlan => VlanExtents(cfg, st, off, len, o);
      case DoPpp => PppExtents(cfg, st, off, len, o);
      case DoIp => IpExtents(cfg, st, off, len, o);
      case DoGre => GreExtents(cfg, st, off, len, o);
      case DoEsp => EspExtents(cfg, st, off, len, o);
      case DoUdp => UdpExtents(cfg, st, off, len, o);
      case DoGtp => GtpExtents(cfg, st, off, len, o);
      case DoEth | DoBridge | DoPppoe | DoArp => LinkExtents(cfg, st, call, off, len, o);
      case DoTcp | DoIcmp | DoIpv6 => LastExtents(cfg, st, call, off, len, o);
    }
  }

  lemma {:induction false} RunExtents(cfg: Config, st: State, call: Call, off: nat, len: nat, r: State)
    requires Ready(st, call, off, len) && Course(cfg, st, call, off) && Extents(cfg, st, call, off + len)
    requires r == Run(cfg, st, call, off, len)
    ensures AllAgree(r.data, r.layers)
    decreases len
  {
    var o := Step(cfg, st, call, off, len);
    StepExtents(cfg, st, call, off, len, o);
    StepCourse(cfg, st, call, off, len, o);
    if o.Next? {
      RunExtents(cfg, o.st, o.call, o.off, o.len, Run(cfg, o.st, o.call, o.off, o.len));
    }
  }

  /** Limits only ever tighten. */
  lemma {:induction false} LimitWithin(d: seq<byte>, layers: seq<Layer>, n: nat, i: nat)
    requires AllAgree(d, layers) && i < n <= |layers| && layers[i].proto.Ip4?
    ensures Limit(d, layers[..n]) <= layers[i].start + Total(d, layers[i])
    decreases n
  {
    var last := layers[n - 1];
    assert layers[..n][..n - 1] == layers[..n - 1] && layers[..n][n - 1] == last;
    if i < n - 1 {
      LimitWithin(d, layers, n - 1, i);
      assert AgreesAt(d, layers, n - 1);
    }
  }

  // ------------------------------------------------------------------ the outcome

  /** Each layer behind an IPv4 layer ends within the total length of that one. */
  predicate WithinDatagrams(d: seq<byte>, layers: seq<Layer>) {
    forall i, j :: 0 <= i < j < |layers| && layers[i].proto.Ip4? ==>
                     End(layers[j]) <= layers[i].start + Total(d, layers[i])
  }

  predicate UdpAllFill(d: seq<byte>, layers: seq<Layer>) {
    forall j :: 0 <= j < |layers| && layers[j].proto.Udp? ==>
                  j > 0 && layers[j - 1].proto.Ip4? && UdpFills(d, layers[j - 1], layers[j])
  }

  predicate GtpAllFill(d: seq<byte>, layers: seq<Layer>) {
    forall j :: 0 <= j < |layers| && layers[j].proto.Gtp? ==>
                  j > 0 && layers[j - 1].proto.Udp? && GtpFills(d, layers[j - 1], layers[j])
  }

  lemma AgreeWithin(d: seq<byte>, layers: seq<Layer>)
    requires AllAgree(d, layers)
    ensures WithinDatagrams(d, layers)
  {
    forall i, j | 0 <= i < j < |layers| && layers[i].proto.Ip4?
      ensures End(layers[j]) <= layers[i].start + Total(d, layers[i])
    {
      assert AgreesAt(d, layers, j);
      LimitWithin(d, layers, j, i);
    }
  }

  lemma FillsAt(d: seq<byte>, layers: seq<Layer>, j: nat)
    requires AllAgree(d, layers) && j < |layers|
    ensures layers[j].proto.Udp? ==> j > 0 && layers[j - 1].proto.Ip4? && UdpFills(d, layers[j - 1], layers[j])
    ensures layers[j].proto.Gtp? ==> j > 0 && layers[j - 1].proto.Udp? && GtpFills(d, layers[j - 1], layers[j])
  {
    assert AgreesAt(d, layers, j);
    var before := layers[..j];
    assert j > 0 ==> before[|before| - 1] == layers[j - 1];
  }

  lemma AgreeFills(d: seq<byte>, layers: seq<Layer>)
    requires AllAgree(d, layers)
    ensures UdpAllFill(d, layers) && GtpAllFill(d, layers)
  {
    forall j | 0 <= j < |layers| && layers[j].proto.Udp?
      ensures j > 0 && layers[j - 1].proto.Ip4? && UdpFills(d, layers[j - 1], layers[j])
    {
      FillsAt(d, layers, j);
    }
    forall j | 0 <= j < |layers| && layers[j].proto.Gtp?
      ensures j > 0 && layers[j - 1].proto.Udp? && GtpFills(d, layers[j - 1], layers[j])
    {
      FillsAt(d, layers, j);
    }
  }

  /** Whatever the capture, LLC branch or not: every layer behind an IPv4 layer
      ends within the total length of that one; the length field of a UDP layer
      reaches to the end of its unfragmented datagram, and that of a GTP layer to
      the end of its UDP datagram. What the PPP decoder writes changes none of it. */
  lemma DecodeKeepsExtents(cfg: Config, data: seq<byte>)
    ensures var r := Decode(cfg, data);
            WithinDatagrams(r.data, r.layers) && UdpAllFill(r.data, r.layers) && GtpAllFill(r.data, r.layers)
  {
    var r := Decode(cfg, data);
    RunExtents(cfg, Initial(data), DoEth, 0, |data|, r);
    AgreeWithin(r.data, r.layers);
    AgreeFills(r.data, r.layers);
  }
}
