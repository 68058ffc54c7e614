/** What the recorded layers say about the capture: each stands on a sound
    header of its kind, and each header names the one recorded after it. */
module DecoderParse {
  import opened Bytes
  import opened DecoderModel
  import opened DecoderLaws
  import opened DecoderTrailers
  import GreHeader
  import GtpHeader

  // ---------------------------------------------------------- what a header names

  predicate EtherNames(t: uint16, call: Call) {
    || (call.DoIp? && t == 0x0800)
    || (call.DoArp? && (t == 0x0806 || t == 0x8035))
    || (call.DoVlan? && t == 0x8100)
    || (call.DoPppoe? && (t == 0x8863 || t == 0x8864))
    || (call.DoIpv6? && t == 0x86dd)
  }

  predicate GreNames(t: uint16, call: Call) {
    || (call.DoBridge? && t == 0x6558)
    || (call.DoPpp? && t == 0x880b)
    || (!call.DoPppoe? && EtherNames(t, call))
  }

  /** A protocol number of IPv4, or the next-header octet of an ESP trailer. */
  predicate ProtoNames(proto: byte, call: Call) {
    || (call.DoIcmp? && proto == 1)
    || (call.DoIp? && proto == 4)
    || (call.DoTcp? && proto == 6)
    || (call.DoUdp? && proto == 17)
    || (call.DoIpv6? && proto == 41)
    || (call.DoGre? && proto == 47)
  }

  /** Of a datagram that carries ESP: 12 octets of authentication data end it,
      and the octet before them names what ESP carries. */
  predicate TrailerNames(d: seq<byte>, l: Layer, call: Call) {
    var end := l.start + Total(d, l);
    13 <= end <= |d| && ProtoNames(d[end - 13], call)
  }

  /** The protocol number names the decoder, ESP among them; and if it is that of
      ESP so does the trailer. */
  predicate IpNames(cfg: Config, d: seq<byte>, l: Layer, proto: byte, call: Call) {
    || ProtoNames(proto, call)
    || (proto == 50 && cfg.espDecoding && (call.DoEsp? || TrailerNames(d, l, call)))
  }

  /** Only the datagram itself, or the head of a fragmented UDP one. */
  predicate WholeOrUdp(frag: uint16, proto: byte) {
    frag % 0x2000 == 0 && (frag / 0x2000 % 2 == 0 || proto == 17)
  }

  predicate PortsNameGtp(cfg: Config, sp: uint16, dp: uint16) {
    cfg.gtpDecoding && (sp in cfg.gtpPorts || dp in cfg.gtpPorts)
  }

  /** Does the header of this layer, as it stands in the capture, name the decoder? */
  predicate Names(cfg: Config, d: seq<byte>, l: Layer, call: Call) {
    var at := l.start;
    || (l.proto.Eth? && at + 14 <= |d| && EtherNames(Be16(d, at + 12), call))
    || (l.proto.Vlan? && at + 4 <= |d| && EtherNames(Be16(d, at + 2), call))
    || (l.proto.Pppoe? && call.DoPpp?)
    || (l.proto.PppEncap? && at + 2 <= |d| && call.DoIp?
        && (PppProtocol(d, at).1 == 0x21 || PppProtocol(d, at).1 == 0x2f))
    || (l.proto.Ip4? && at + 20 <= |d| && IpNames(cfg, d, l, d[at + 9], call)
        && WholeOrUdp(Be16(d, at + 6), d[at + 9]))
    || (l.proto.Gre? && at + 4 <= |d| && GreNames(Be16(d, at + 2), call))
    || (l.proto.Udp? && at + 4 <= |d| && call.DoGtp? && PortsNameGtp(cfg, Be16(d, at), Be16(d, at + 2)))
    || (l.proto.Gtp? && End(l) < |d|
        && ((call.DoIp? && d[End(l)] / 16 == 4) || (call.DoIpv6? && d[End(l)] / 16 == 6)))
  }

  /** The decoder that records a layer of this kind behind another one. */
  function CallFor(proto: Proto): Call {
    match proto
    case Eth => DoBridge
    case Arp => DoArp
    case Vlan => DoVlan
    case Pppoe => DoPppoe
    case PppEncap => DoPpp
    case Ip4 => DoIp
    case Gre => DoGre
    case Gtp => DoGtp
    case Udp => DoUdp
    case Tcp => DoTcp
    case Icmp4 => DoIcmp
  }

  // ------------------------------------------------------------- sound headers

  /** The walk over these octets ends at their end. Then, and only then, they are
      the encoding of a well-formed header (`EncodedIff` in both modules). */
  predicate IsGre(s: seq<byte>) {
    GreHeader.Length(s) == Some(|s|)
  }

  predicate IsGtp(s: seq<byte>) {
    GtpHeader.HeaderEnd(s) == Some(|s|)
  }

  /** The octets of the layer are a header of its kind. */
  predicate SoundLayer(d: seq<byte>, l: Layer) {
    var at, n := l.start, l.length;
    && at + n <= |d|
    && (|| (l.proto.Eth? && n == 14)
        || (l.proto.Vlan? && n == 4)
        || (l.proto.Pppoe? && n == 6)
        || (l.proto.Arp? && n == 28)
        || (l.proto.PppEncap? && at + 2 <= |d| && n == PppProtocol(d, at).0)
        || (l.proto.Ip4? && at + 20 <= |d| && d[at] / 16 == 4 && n == d[at] % 16 * 4
            && 20 <= n <= Be16(d, at + 2) <= |d| - at)
        || (l.proto.Gre? && IsGre(d[at..at + n]))
        || (l.proto.Gtp? && IsGtp(d[at..at + n]))
        || (l.proto.Udp? && n == 8)
        || (l.proto.Tcp? && at + 20 <= |d| && n == d[at + 12] / 16 * 4 && 20 <= n)
        || (l.proto.Icmp4? && at + 4 <= |d| && n == IcmpLayer(d[at])))
  }

  /** Layer `i` is sound, and named by the header before it. */
  predicate LayerFits(cfg: Config, d: seq<byte>, layers: seq<Layer>, i: nat)
    requires i < |layers|
  {
    SoundLayer(d, layers[i]) && (i > 0 ==> Names(cfg, d, layers[i - 1], CallFor(layers[i].proto)))
  }

  predicate Parsed(cfg: Config, d: seq<byte>, layers: seq<Layer>) {
    forall i :: 0 <= i < |layers| ==> LayerFits(cfg, d, layers, i)
  }

  /** The header recorded last names the decoder that is called next. */
  predicate Expected(cfg: Config, d: seq<byte>, layers: seq<Layer>, call: Call) {
    |layers| < cfg.layerMax ==>
      if layers == [] then call.DoEth? else Names(cfg, d, layers[|layers| - 1], call)
  }

  predicate Holds(cfg: Config, o: Outcome) {
    && Parsed(cfg, o.st.data, o.st.layers)
    && (o.Next? ==> !o.call.DoEth? && Expected(cfg, o.st.data, o.st.layers, o.call))
  }

  lemma OneMoreParsed(cfg: Config, d: seq<byte>, layers: seq<Layer>, l: Layer)
    requires Parsed(cfg, d, layers) && SoundLayer(d, l)
    requires layers != [] ==> Names(cfg, d, layers[|layers| - 1], CallFor(l.proto))
    ensures Parsed(cfg, d, layers + [l])
  {
    forall i | 0 <= i <= |layers| ensures LayerFits(cfg, d, layers + [l], i) {
      if i < |layers| {
        assert LayerFits(cfg, d, layers, i);
      }
    }
  }

  lemma PushParsed(cfg: Config, d: seq<byte>, layers: seq<Layer>, call: Call, l: Layer,
                   next: Option<Call>, more: seq<Layer>)
    requires Parsed(cfg, d, layers) && Expected(cfg, d, layers, call)
    requires SoundLayer(d, l) && l.length < 0x1_0000
    requires CallFor(l.proto) == call || (call.DoEth? && layers == [])
    requires next.Some? ==> Names(cfg, d, l, next.value)
    requires more == PushOn(cfg.layerMax, layers, l.proto, l.start, l.length)
    ensures Parsed(cfg, d, more) && (next.Some? ==> Expected(cfg, d, more, next.value))
  {
    if |layers| < cfg.layerMax {
      assert Layer(l.proto, l.start, l.length % 0x1_0000) == l;
      OneMoreParsed(cfg, d, layers, l);
    }
  }

  /** What every step may rely on. */
  predicate Sofar(cfg: Config, st: State, call: Call) {
    && Parsed(cfg, st.data, st.layers)
    && Expected(cfg, st.data, st.layers, call)
    && (call.DoEth? ==> st.layers == [])
  }

  /** The step records `l`, a sound header, and goes on as that header says. */
  lemma Records(cfg: Config, st: State, call: Call, o: Outcome, l: Layer)
    requires Sofar(cfg, st, call) && SoundLayer(st.data, l) && l.length < 0x1_0000
    requires CallFor(l.proto) == call || call.DoEth?
    requires o.st.data == st.data && o.st.layers == PushOn(cfg.layerMax, st.layers, l.proto, l.start, l.length)
    requires o.Next? ==> !o.call.DoEth? && Names(cfg, st.data, l, o.call)
    ensures Holds(cfg, o)
  {
    PushParsed(cfg, st.data, st.layers, call, l, if o.Next? then Some(o.call) else None, o.st.layers);
  }

  lemma EtherNamed(t: uint16)
    ensures OfEtherType(t).Some? ==> EtherNames(t, OfEtherType(t).value)
  {
  }

  lemma EthParsed(cfg: Config, st: State, off: nat, len: nat)
    requires Ready(st, DoEth, off, len) && Sofar(cfg, st, DoEth)
    ensures Holds(cfg, StepEth(cfg, st, off, len))
  {
    if len >= 14 {
      EtherNamed(Be16(st.data, off + 12));
      Records(cfg, st, DoEth, StepEth(cfg, st, off, len), Layer(Eth, off, 14));
    }
  }

  lemma BridgeParsed(cfg: Config, st: State, off: nat, len: nat)
    requires Ready(st, DoBridge, off, len) && Sofar(cfg, st, DoBridge)
    ensures Holds(cfg, StepBridge(cfg, st, off, len))
  {
    if len >= 14 {
      EtherNamed(Be16(st.data, off + 12));
      Records(cfg, st, DoBridge, StepBridge(cfg, st, off, len), Layer(Eth, off, 14));
    }
  }

  lemma VlanParsed(cfg: Config, st: State, off: nat, len: nat)
    requires Ready(st, DoVlan, off, len) && Sofar(cfg, st, DoVlan) && !Rebases(st, off, len)
    ensures Holds(cfg, StepVlan(cfg, st, off, len))
  {
    var o := StepVlan(cfg, st, off, len);
    if len >= 4 && !IsLlc(st, off, len) {
      EtherNamed(Be16(st.data, off + 2));
      Records(cfg, st, DoVlan, o, Layer(Vlan, off, 4));
    } else {
      assert o.Stop? && o.st.data == st.data && o.st.layers == st.layers;
    }
  }

  lemma PppoeParsed(cfg: Config, st: State, off: nat, len: nat)
    requires Ready(st, DoPppoe, off, len) && Sofar(cfg, st, DoPppoe)
    ensures Holds(cfg, StepPppoe(cfg, st, off, len))
  {
    var o := StepPppoe(cfg, st, off, len);
    if o.Next? {
      Records(cfg, st, DoPppoe, o, Layer(Pppoe, off, 6));
    }
  }

  lemma ArpParsed(cfg: Config, st: State, off: nat, len: nat)
    requires Ready(st, DoArp, off, len) && Sofar(cfg, st, DoArp)
    ensures Holds(cfg, StepArp(cfg, st, off, len))
  {
    if len >= 28 {
      Records(cfg, st, DoArp, StepArp(cfg, st, off, len), Layer(Arp, off, 28));
    }
  }

  lemma AfterIpParsed(cfg: Config, st: State, st1: State, off: nat, len: nat)
    requires Ready(st1.(iph := None), DoIp, off, len) && st1.iph == Some(off) && len >= 20
    requires Ip4Sound(st1.data, off, len) && st1.data == st.data && st1.layers == st.layers
    requires Sofar(cfg, st, DoIp)
    ensures Holds(cfg, AfterIp(cfg, st1, off, len))
  {
    Records(cfg, st, DoIp, AfterIp(cfg, st1, off, len), Layer(Ip4, off, st.data[off] % 16 * 4));
  }

  lemma IpParsed(cfg: Config, st: State, off: nat, len: nat)
    requires Ready(st, DoIp, off, len) && Sofar(cfg, st, DoIp)
    ensures Holds(cfg, StepIp(cfg, st, off, len))
  {
    if len >= 20 && !(st.iph.Some? && st.encapsulated) && Ip4Sound(st.data, off, len) {
      AfterIpParsed(cfg, st, st.(encapsulated := st.encapsulated || st.iph.Some?, iph := Some(off)), off, len);
    }
  }

  /** ESP records nothing; its trailer names what comes next. */
  lemma EspNamed(cfg: Config, d: seq<byte>, l: Layer, end: nat, call: Call)
    requires Names(cfg, d, l, DoEsp) && 13 <= end == l.start + Total(d, l) && end <= |d|
    requires OfEspNext(d[end - 13]) == Some(call)
    ensures Names(cfg, d, l, call)
  {
  }

  lemma NothingRecorded(cfg: Config, st: State, call: Call, o: Outcome)
    requires Sofar(cfg, st, call) && !call.DoEth? && o.st.data == st.data && o.st.layers == st.layers
    requires o.Next? ==> !o.call.DoEth?
    requires o.Next? && st.layers != [] && |st.layers| < cfg.layerMax ==>
               Names(cfg, st.data, st.layers[|st.layers| - 1], o.call)
    ensures Holds(cfg, o)
  {
  }

  lemma EspParsed(cfg: Config, st: State, off: nat, len: nat, o: Outcome)
    requires Ready(st, DoEsp, off, len) && Sofar(cfg, st, DoEsp) && o == StepEsp(st, off, len)
    requires LastClear(cfg, st.data, st.layers, DoEsp, off + len)
    ensures Holds(cfg, o)
  {
    assert o.st.data == st.data && o.st.layers == st.layers;
    if o.Next? {
      assert OfEspNext(st.data[off + len - 13]) == Some(o.call);
      if st.layers != [] && |st.layers| < cfg.layerMax {
        EspNamed(cfg, st.data, st.layers[|st.layers| - 1], off + len, o.call);
      }
    }
    NothingRecorded(cfg, st, DoEsp, o);
  }

  lemma GreNamed(t: uint16)
    ensures OfGreType(t).Some? ==> GreNames(t, OfGreType(t).value)
  {
  }

  lemma GreLayerSound(d: seq<byte>, off: nat, len: nat, hlen: nat)
    requires off + len <= |d| && GreHeader.Length(d[off..off + len]) == Some(hlen)
    ensures 4 <= hlen <= len && SoundLayer(d, Layer(Gre, off, hlen))
  {
    GreHeader.PrefixIsHeader(d[off..off + len], hlen);
    assert d[off..off + len][..hlen] == d[off..off + hlen];
  }

  lemma GreParsed(cfg: Config, st: State, off: nat, len: nat)
    requires Ready(st, DoGre, off, len) && Sofar(cfg, st, DoGre)
    ensures Holds(cfg, StepGre(cfg, st, off, len))
  {
    var hlen := GreHeader.Length(st.data[off..off + len]);
    if !st.encapsulated && hlen.Some? {
      AfterGreParsed(cfg, st, off, len, hlen.value);
    }
  }

  lemma AfterGreParsed(cfg: Config, st: State, off: nat, len: nat, hlen: nat)
    requires Ready(st, DoGre, off, len) && Sofar(cfg, st, DoGre)
    requires GreHeader.Length(st.data[off..off + len]) == Some(hlen)
    ensures 4 <= hlen <= len && Holds(cfg, AfterGre(cfg, st, off, len, hlen))
  {
    GreLayerSound(st.data, off, len, hlen);
    GreNamed(Be16(st.data, off + 2));
    Records(cfg, st, DoGre, AfterGre(cfg, st, off, len, hlen), Layer(Gre, off, hlen));
  }

  lemma UdpRecorded(cfg: Config, st: State, off: nat, len: nat, o: Outcome)
    requires Ready(st, DoUdp, off, len) && o == StepUdp(cfg, st, off, len) && o != Stop(st)
    ensures len >= 8 && o.st.data == st.data && o.st.layers == PushOn(cfg.layerMax, st.layers, Udp, off, 8)
    ensures o.Next? ==> o.call.DoGtp? && PortsNameGtp(cfg, Be16(st.data, off), Be16(st.data, off + 2))
  {
  }

  lemma UdpParsed(cfg: Config, st: State, off: nat, len: nat)
    requires Ready(st, DoUdp, off, len) && Sofar(cfg, st, DoUdp)
    ensures Holds(cfg, StepUdp(cfg, st, off, len))
  {
    var o := StepUdp(cfg, st, off, len);
    if o != Stop(st) {
      UdpRecorded(cfg, st, off, len, o);
      Records(cfg, st, DoUdp, o, Layer(Udp, off, 8));
    }
  }

  lemma GtpLayerSound(d: seq<byte>, off: nat, len: nat, hlen: nat)
    requires off + len <= |d| && GtpHeader.Length(d[off..off + len]) == Some(hlen)
    ensures 8 <= hlen <= len && SoundLayer(d, Layer(Gtp, off, hlen))
  {
    GtpHeader.LengthIsEnd(d[off..off + len]);
    GtpHeader.PrefixIsHeader(d[off..off + len], hlen);
    assert d[off..off + len][..hlen] == d[off..off + hlen];
  }

  lemma AfterGtpParsed(cfg: Config, st: State, st1: State, off: nat, len: nat, hlen: nat)
    requires Ready(st, DoGtp, off, len) && Sofar(cfg, st, DoGtp)
    requires GtpHeader.Length(st.data[off..off + len]) == Some(hlen) && st1 == st.(gtpEncapsulated := true)
    ensures 8 <= hlen <= len && Holds(cfg, AfterGtp(cfg, st1, off, len, hlen))
  {
    GtpLayerSound(st.data, off, len, hlen);
    Records(cfg, st, DoGtp, AfterGtp(cfg, st1, off, len, hlen), Layer(Gtp, off, hlen));
  }

  lemma GtpParsed(cfg: Config, st: State, off: nat, len: nat)
    requires Ready(st, DoGtp, off, len) && Sofar(cfg, st, DoGtp)
    ensures Holds(cfg, StepGtp(cfg, st, off, len))
  {
    var hlen := GtpHeader.Length(st.data[off..off + len]);
    if !st.gtpEncapsulated && hlen.Some? {
      AfterGtpParsed(cfg, st, st.(gtpEncapsulated := true), off, len, hlen.value);
    }
  }

  lemma TcpParsed(cfg: Config, st: State, off: nat, len: nat)
    requires Ready(st, DoTcp, off, len) && Sofar(cfg, st, DoTcp)
    ensures Holds(cfg, StepTcp(cfg, st, off, len))
  {
    var o := StepTcp(cfg, st, off, len);
    if o != Stop(st) {
      Records(cfg, st, DoTcp, o, Layer(Tcp, off, st.data[off + 12] / 16 * 4));
    }
  }

  lemma IcmpParsed(cfg: Config, st: State, off: nat, len: nat)
    requires Ready(st, DoIcmp, off, len) && Sofar(cfg, st, DoIcmp)
    ensures Holds(cfg, StepIcmp(cfg, st, off, len))
  {
    if len >= 4 && len >= IcmpNeeds(st.data[off]) {
      Records(cfg, st, DoIcmp, StepIcmp(cfg, st, off, len), Layer(Icmp4, off, IcmpLayer(st.data[off])));
    }
  }

  // ------------------------------------------------- PPP, which may write ahead

  lemma SoundSame(d: seq<byte>, d': seq<byte>, off: nat, l: Layer)
    requires SameBefore(d, d', off) && End(l) <= off && SoundLayer(d, l)
    ensures SoundLayer(d', l)
  {
    SameSlice(d, d', off, l.start, End(l));
    if l.length > 0 {
      SameOctets(d, d', off, l.start);
      if l.length > 1 {
        SameOctets(d, d', off, l.start + 1);
      }
    }
    if l.proto.Ip4? {
      SameOctets(d, d', off, l.start + 2);
      SameOctets(d, d', off, l.start + 3);
    } else if l.proto.Tcp? {
      SameOctets(d, d', off, l.start + 12);
    }
  }

  lemma GreLength(s: seq<byte>)
    requires IsGre(s)
    ensures |s| >= 4
  {
  }

  /** ESP and its trailer, when the slice in which octets differ lies before it. */
  lemma IpNamesSame(cfg: Config, d: seq<byte>, d': seq<byte>, off: nat, end: nat, l: Layer, call: Call)
    requires SameOutside(d, d', off, end) && l.start + 20 <= off && l.proto.Ip4? && Names(cfg, d, l, call)
    requires BeforeTrailer(d, l, end)
    ensures Names(cfg, d', l, call)
  {
    SameField(d, d', off, l.start + 6);
    SameOctets(d, d', off, l.start + 9);
    SameTotal(d, d', off, l);
    var t := l.start + Total(d, l);
    if EspBelow(d, l) && t <= |d| {
      SameBehind(d, d', off, end, t - 13);
    }
  }

  /** The fields that name the next decoder lie in the header itself, but for
      GTP, where the first octet behind it counts, and for ESP. */
  lemma NamesSame(cfg: Config, d: seq<byte>, d': seq<byte>, off: nat, end: nat, l: Layer, call: Call)
    requires SameOutside(d, d', off, end) && SoundLayer(d, l) && Names(cfg, d, l, call) && BeforeTrailer(d, l, end)
    requires End(l) <= off && (l.proto.Gtp? ==> End(l) < off)
    ensures Names(cfg, d', l, call)
  {
    var at := l.start;
    match l.proto {
      case Eth => SameField(d, d', off, at + 12);
      case Vlan => SameField(d, d', off, at + 2);
      case PppEncap =>
        SameOctets(d, d', off, at);
        if l.length == 2 {
          SameField(d, d', off, at);
        }
      case Ip4 => IpNamesSame(cfg, d, d', off, end, l, call);
      case Gre => GreLength(d[at..at + l.length]); SameField(d, d', off, at + 2);
      case Udp => SameField(d, d', off, at); SameField(d, d', off, at + 2);
      case Gtp => SameOctets(d, d', off, End(l));
      case _ =>
    }
  }

  lemma NotEmpty(d: seq<byte>, l: Layer)
    requires SoundLayer(d, l)
    ensures l.length > 0
  {
    if l.proto.Gre? {
      GreLength(d[l.start..End(l)]);
    }
  }

  /** Writing behind the recorded headers and before all trailers leaves what
      they say alone. */
  lemma RewriteParsed(cfg: Config, d: seq<byte>, d': seq<byte>, layers: seq<Layer>, off: nat, end: nat)
    requires Parsed(cfg, d, layers) && SameOutside(d, d', off, end) && Clear(d, layers, end)
    requires Stacked(d, layers) && forall i :: 0 <= i < |layers| ==> End(layers[i]) <= off
    ensures Parsed(cfg, d', layers)
  {
    forall i | 0 <= i < |layers| ensures LayerFits(cfg, d', layers, i) {
      assert LayerFits(cfg, d, layers, i);
      SoundSame(d, d', off, layers[i]);
      if i > 0 {
        assert LayerFits(cfg, d, layers, i - 1) && Abuts(d, layers, i) && Cleared(d, layers, end, i - 1);
        NotEmpty(d, layers[i]);
        NamesSame(cfg, d, d', off, end, layers[i - 1], CallFor(layers[i].proto));
      }
    }
  }

  lemma ExpectedSame(cfg: Config, d: seq<byte>, d': seq<byte>, off: nat, end: nat, layers: seq<Layer>)
    requires Parsed(cfg, d, layers) && Expected(cfg, d, layers, DoPpp) && SameOutside(d, d', off, end)
    requires LastClear(cfg, d, layers, DoPpp, end)
    requires layers != [] ==> End(layers[|layers| - 1]) <= off
    ensures Expected(cfg, d', layers, DoPpp)
  {
    if layers != [] && |layers| < cfg.layerMax {
      var n := |layers| - 1;
      ParsedAt(cfg, d, layers, n);
      NamesSame(cfg, d, d', off, end, layers[n], DoPpp);
    }
  }

  lemma VjSofar(cfg: Config, st: State, st1: State, off: nat, end: nat, at: nat)
    requires Sofar(cfg, st, DoPpp) && Before(cfg, st, DoPpp, off) && Tidy(cfg, st, DoPpp, end)
    requires off <= at < end <= |st.data| && st1 == st.(data := st.data[at := PROTO_TCP])
    ensures Sofar(cfg, st1, DoPpp)
  {
    assert SameOutside(st.data, st1.data, off, end);
    RewriteParsed(cfg, st.data, st1.data, st.layers, off, end);
    ExpectedSame(cfg, st.data, st1.data, off, end, st.layers);
  }

  lemma AfterPppParsed(cfg: Config, st: State, off: nat, len: nat, hlen: nat)
    requires Ready(st, DoPpp, off, len) && Sofar(cfg, st, DoPpp) && 2 <= len && hlen <= len
    requires var (h, protocol) := PppProtocol(st.data, off);
             h == hlen && (protocol == PPP_IP || protocol == PPP_VJ_UCOMP)
    ensures Holds(cfg, AfterPpp(cfg, st, off, len, hlen))
  {
    Records(cfg, st, DoPpp, AfterPpp(cfg, st, off, len, hlen), Layer(PppEncap, off, hlen));
  }

  lemma VjParsed(cfg: Config, st: State, st1: State, off: nat, len: nat, hlen: nat)
    requires Ready(st, DoPpp, off, len) && Sofar(cfg, st, DoPpp) && Before(cfg, st, DoPpp, off)
    requires Tidy(cfg, st, DoPpp, off + len)
    requires 2 <= len && PppProtocol(st.data, off) == (hlen, PPP_VJ_UCOMP) && hlen + 20 <= len
    requires st1 == st.(data := st.data[off + hlen + 9 := PROTO_TCP])
    ensures Holds(cfg, AfterPpp(cfg, st1, off, len, hlen))
  {
    VjSofar(cfg, st, st1, off, off + len, off + hlen + 9);
    AfterPppParsed(cfg, st1, off, len, hlen);
  }

  lemma IpxParsed(cfg: Config, st: State, off: nat, len: nat, hlen: nat)
    requires Ready(st, DoPpp, off, len) && Sofar(cfg, st, DoPpp) && 2 <= len
    requires PppProtocol(st.data, off).0 == hlen
    ensures Holds(cfg, Stop(Push(cfg, st, PppEncap, off, hlen)))
  {
    Records(cfg, st, DoPpp, Stop(Push(cfg, st, PppEncap, off, hlen)), Layer(PppEncap, off, hlen));
  }

  lemma PppParsed(cfg: Config, st: State, off: nat, len: nat)
    requires Ready(st, DoPpp, off, len) && Sofar(cfg, st, DoPpp) && Before(cfg, st, DoPpp, off)
    requires Tidy(cfg, st, DoPpp, off + len)
    ensures Holds(cfg, StepPpp(cfg, st, off, len))
  {
    var o := StepPpp(cfg, st, off, len);
    if o != Stop(st) {
      var (hlen, protocol) := PppProtocol(st.data, off);
      if protocol == PPP_VJ_UCOMP {
        var st1 := st.(data := st.data[off + hlen + 9 := PROTO_TCP]);
        assert o == AfterPpp(cfg, st1, off, len, hlen);
        VjParsed(cfg, st, st1, off, len, hlen);
      } else if protocol == PPP_IP {
        assert o == AfterPpp(cfg, st, off, len, hlen);
        AfterPppParsed(cfg, st, off, len, hlen);
      } else {
        assert o == Stop(Push(cfg, st, PppEncap, off, hlen));
        IpxParsed(cfg, st, off, len, hlen);
      }
    }
  }

  // ------------------------------------------------------------- the whole run

  lemma StepParsed(cfg: Config, st: State, call: Call, off: nat, len: nat, o: Outcome)
    requires Ready(st, call, off, len) && Sofar(cfg, st, call) && Before(cfg, st, call, off)
    requires Tidy(cfg, st, call, off + len)
    requires !(call.DoVlan? && Rebases(st, off, len)) && o == Step(cfg, st, call, off, len)
    ensures Holds(cfg, o)
  {
    match call {
      case DoEth => EthParsed(cfg, st, off, len);
      case DoBridge => BridgeParsed(cfg, st, off, len);
      case DoVlan => VlanParsed(cfg, st, off, len);
      case DoPppoe => PppoeParsed(cfg, st, off, len);
      case DoPpp => PppParsed(cfg, st, off, len);
      case DoArp => ArpParsed(cfg, st, off, len);
      case DoIp => IpParsed(cfg, st, off, len);
      case DoIpv6 =>
      case DoGre => GreParsed(cfg, st, off, len);
      case DoEsp => EspParsed(cfg, st, off, len, o);
      case DoUdp => UdpParsed(cfg, st, off, len);
      case DoGtp => GtpParsed(cfg, st, off, len);
      case DoTcp => TcpParsed(cfg, st, off, len);
      case DoIcmp => IcmpParsed(cfg, st, off, len);
    }
  }

  /** What every call outside the LLC branch keeps. */
  predicate Steady(cfg: Config, st: State, call: Call, off: nat, end: nat) {
    Sofar(cfg, st, call) && Before(cfg, st, call, off) && Tidy(cfg, st, call, end)
  }

  lemma StepSteady(cfg: Config, st: State, call: Call, off: nat, len: nat, o: Outcome)
    requires Ready(st, call, off, len) && Steady(cfg, st, call, off, off + len)
    requires !(call.DoVlan? && Rebases(st, off, len)) && o == Step(cfg, st, call, off, len)
    ensures Parsed(cfg, o.st.data, o.st.layers)
    ensures o.Next? ==> Steady(cfg, o.st, o.call, o.off, o.off + o.len)
  {
    StepParsed(cfg, st, call, off, len, o);
    StepTidy(cfg, st, call, off, len, o);
    StepLaid(cfg, st, call, off, len);
  }

  function SteadyInv(cfg: Config): (State, Call, nat, nat) -> bool {
    (st: State, call: Call, off: nat, len: nat) => Steady(cfg, st, call, off, off + len)
  }

  function ParsedOut(cfg: Config): (seq<byte>, seq<Layer>) -> bool {
    (d: seq<byte>, layers: seq<Layer>) => Parsed(cfg, d, layers)
  }

  lemma SteadyIsInv(cfg: Config, st: State, call: Call, off: nat, len: nat)
    ensures SteadyInv(cfg)(st, call, off, len) <==> Steady(cfg, st, call, off, off + len)
  {
  }

  lemma ParsedIsOut(cfg: Config, d: seq<byte>, layers: seq<Layer>)
    ensures ParsedOut(cfg)(d, layers) <==> Parsed(cfg, d, layers)
  {
  }

  lemma SteadyOutcome(cfg: Config, st: State, call: Call, off: nat, len: nat, o: Outcome)
    requires Ready(st, call, off, len) && SteadyInv(cfg)(st, call, off, len) && Counts(false, st, call, off, len)
    requires o == Step(cfg, st, call, off, len)
    ensures ParsedOut(cfg)(o.st.data, o.st.layers) && (o.Next? ==> SteadyInv(cfg)(o.st, o.call, o.off, o.len))
  {
    SteadyIsInv(cfg, st, call, off, len);
    StepSteady(cfg, st, call, off, len, o);
    ParsedIsOut(cfg, o.st.data, o.st.layers);
    if o.Next? {
      SteadyIsInv(cfg, o.st, o.call, o.off, o.len);
    }
  }

  lemma RunParsed(cfg: Config, st: State, call: Call, off: nat, len: nat, r: State)
    requires Ready(st, call, off, len) && Steady(cfg, st, call, off, off + len)
    requires !RunRebases(cfg, st, call, off, len) && r == Run(cfg, st, call, off, len)
    ensures Parsed(cfg, r.data, r.layers)
  {
    SteadyIsInv(cfg, st, call, off, len);
    RunSteady(cfg, st, call, off, len, r);
    ParsedIsOut(cfg, r.data, r.layers);
  }

  lemma RunSteady(cfg: Config, st: State, call: Call, off: nat, len: nat, r: State)
    requires Ready(st, call, off, len) && SteadyInv(cfg)(st, call, off, len)
    requires !RunRebases(cfg, st, call, off, len) && r == Run(cfg, st, call, off, len)
    ensures ParsedOut(cfg)(r.data, r.layers)
  {
    forall s: State, c: Call, i: nat, n: nat |
      Ready(s, c, i, n) && SteadyInv(cfg)(s, c, i, n) && Counts(false, s, c, i, n)
      ensures Keeps(cfg, SteadyInv(cfg), ParsedOut(cfg), s, c, i, n)
    {
      var o := Step(cfg, s, c, i, n);
      SteadyOutcome(cfg, s, c, i, n, o);
      KeepsBy(cfg, SteadyInv(cfg), ParsedOut(cfg), s, c, i, n, o);
    }
    RunKeeps(cfg, SteadyInv(cfg), ParsedOut(cfg), false, st, call, off, len, r);
  }

  /** Unless the LLC branch is taken, the layers recorded for any capture are a
      parse of it: each stands on a sound header of its kind, and each header
      names the one recorded after it. */
  lemma DecodeParses(cfg: Config, data: seq<byte>)
    requires !RunRebases(cfg, Initial(data), DoEth, 0, |data|)
    ensures var r := Decode(cfg, data);
            && (forall i :: 0 <= i < |r.layers| ==> SoundLayer(r.data, r.layers[i]))
            && (forall i :: 0 < i < |r.layers| ==> Names(cfg, r.data, r.layers[i - 1], CallFor(r.layers[i].proto)))
  {
    var r := Decode(cfg, data);
    RunParsed(cfg, Initial(data), DoEth, 0, |data|, r);
    forall i | 0 <= i < |r.layers| ensures SoundLayer(r.data, r.layers[i]) {
      ParsedAt(cfg, r.data, r.layers, i);
    }
    forall i | 0 < i < |r.layers| ensures Names(cfg, r.data, r.layers[i - 1], CallFor(r.layers[i].proto)) {
      ParsedAt(cfg, r.data, r.layers, i);
    }
  }

  /** What is recorded behind an IPv4 header that carries ESP is what the
      next-header octet of the ESP trailer names. */
  lemma {:induction false} TrailerNamesNext(cfg: Config, data: seq<byte>, r: State, i: nat)
    requires r == Decode(cfg, data) && !RunRebases(cfg, Initial(data), DoEth, 0, |data|)
    requires i + 1 < |r.layers| && EspBelow(r.data, r.layers[i])
    ensures var trailer := r.layers[i].start + Total(r.data, r.layers[i]) - 13;
            0 <= trailer < |r.data| && OfEspNext(r.data[trailer]) == Some(CallFor(r.layers[i + 1].proto))
  {
    RunParsed(cfg, Initial(data), DoEth, 0, |data|, r);
    TrailerAt(cfg, r.data, r.layers, i);
  }

  lemma TrailerAt(cfg: Config, d: seq<byte>, layers: seq<Layer>, i: nat)
    requires Parsed(cfg, d, layers) && i + 1 < |layers| && EspBelow(d, layers[i])
    ensures var trailer := layers[i].start + Total(d, layers[i]) - 13;
            0 <= trailer < |d| && OfEspNext(d[trailer]) == Some(CallFor(layers[i + 1].proto))
  {
    ParsedAt(cfg, d, layers, i + 1);
    EspNamesOnly(cfg, d, layers[i], CallFor(layers[i + 1].proto));
  }

  lemma EspNamesOnly(cfg: Config, d: seq<byte>, l: Layer, call: Call)
    requires EspBelow(d, l) && Names(cfg, d, l, call) && !call.DoEsp?
    ensures var trailer := l.start + Total(d, l) - 13;
            0 <= trailer < |d| && OfEspNext(d[trailer]) == Some(call)
  {
  }

  lemma ParsedAt(cfg: Config, d: seq<byte>, layers: seq<Layer>, i: nat)
    requires Parsed(cfg, d, layers) && i < |layers|
    ensures SoundLayer(d, layers[i]) && (i > 0 ==> Names(cfg, d, layers[i - 1], CallFor(layers[i].proto)))
  {
    assert LayerFits(cfg, d, layers, i);
  }
}
