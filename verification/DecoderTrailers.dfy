/** Where ESP trailers lie: behind every slice that is decoded once ESP itself
    is. So the octet in a trailer that names what ESP carries stays as it is. */
module DecoderTrailers {
  import opened Bytes
  import opened DecoderModel
  import opened DecoderLaws
  import GreHeader
  import GtpHeader

  /** The total length field of an IPv4 layer. */
  function Total(d: seq<byte>, l: Layer): nat {
    if l.start + 4 <= |d| then Be16(d, l.start + 2) else 0
  }

  /** The slice that ends at `end` lies before the ESP trailer of this layer. */
  predicate BeforeTrailer(d: seq<byte>, l: Layer, end: nat) {
    EspBelow(d, l) ==> end + 14 <= l.start + Total(d, l)
  }

  predicate Cleared(d: seq<byte>, layers: seq<Layer>, end: nat, i: nat)
    requires i < |layers|
  {
    BeforeTrailer(d, layers[i], end)
  }

  /** So it does for every layer but the last. */
  predicate Clear(d: seq<byte>, layers: seq<Layer>, end: nat) {
    forall i :: 0 <= i < |layers| - 1 ==> Cleared(d, layers, end, i)
  }

  /** And for the last, unless ESP is still to be decoded. Then its slice is what
      the datagram holds. */
  predicate LastClear(cfg: Config, d: seq<byte>, layers: seq<Layer>, call: Call, end: nat) {
    layers != [] && |layers| < cfg.layerMax ==>
      var last := layers[|layers| - 1];
      if call.DoEsp? then end == last.start + Total(d, last) else BeforeTrailer(d, last, end)
  }

  predicate Tidy(cfg: Config, st: State, call: Call, end: nat) {
    Clear(st.data, st.layers, end) && LastClear(cfg, st.data, st.layers, call, end)
  }

  predicate TidyAfter(cfg: Config, o: Outcome) {
    o.Next? ==> Tidy(cfg, o.st, o.call, o.off + o.len)
  }

  lemma ClearWithin(d: seq<byte>, layers: seq<Layer>, end: nat, less: nat)
    requires Clear(d, layers, end) && less <= end
    ensures Clear(d, layers, less)
  {
    forall i | 0 <= i < |layers| - 1 ensures Cleared(d, layers, less, i) {
      assert Cleared(d, layers, end, i);
    }
  }

  lemma ClearPush(d: seq<byte>, layers: seq<Layer>, l: Layer, end: nat)
    requires Clear(d, layers, end) && (layers != [] ==> BeforeTrailer(d, layers[|layers| - 1], end))
    ensures Clear(d, layers + [l], end)
  {
    forall i | 0 <= i < |layers| ensures Cleared(d, layers + [l], end, i) {
      if i < |layers| - 1 {
        assert Cleared(d, layers, end, i);
      }
    }
  }

  /** What is handed on behind a recorded layer still lies before all trailers. */
  lemma PushTidy(cfg: Config, st: State, call: Call, end: nat, o: Outcome, l: Layer)
    requires Tidy(cfg, st, call, end) && !call.DoEsp? && l.length < 0x1_0000
    requires o.st.data == st.data && o.st.layers == PushOn(cfg.layerMax, st.layers, l.proto, l.start, l.length)
    requires o.Next? ==> o.off + o.len <= end
    requires o.Next? ==> if o.call.DoEsp? then o.off + o.len == l.start + Total(st.data, l) else !EspBelow(st.data, l)
    ensures TidyAfter(cfg, o)
  {
    if o.Next? {
      var less := o.off + o.len;
      ClearWithin(st.data, st.layers, end, less);
      if |st.layers| < cfg.layerMax {
        assert Layer(l.proto, l.start, l.length % 0x1_0000) == l;
        ClearPush(st.data, st.layers, l, less);
      }
    }
  }

  // ------------------------------------------------------- octets that stay the same

  /** Nothing before `off` differs. */
  predicate SameBefore(d: seq<byte>, d': seq<byte>, off: nat) {
    |d| == |d'| && off <= |d| && d[..off] == d'[..off]
  }

  lemma SameOctets(d: seq<byte>, d': seq<byte>, off: nat, i: nat)
    requires SameBefore(d, d', off) && i < off
    ensures d[i] == d'[i]
  {
    assert d[..off][i] == d[i] && d'[..off][i] == d'[i];
  }

  lemma SameSlice(d: seq<byte>, d': seq<byte>, off: nat, a: nat, b: nat)
    requires SameBefore(d, d', off) && a <= b <= off
    ensures d[a..b] == d'[a..b]
  {
    assert d[a..b] == d[..off][a..b];
    assert d'[a..b] == d'[..off][a..b];
  }

  /** A 16-bit field before `off` is the same in both. */
  lemma SameField(d: seq<byte>, d': seq<byte>, off: nat, i: nat)
    requires SameBefore(d, d', off) && i + 2 <= off
    ensures Be16(d, i) == Be16(d', i)
  {
    SameOctets(d, d', off, i);
    SameOctets(d, d', off, i + 1);
  }

  /** Nothing before `off` differs, nor anything from `end` on. */
  predicate SameOutside(d: seq<byte>, d': seq<byte>, off: nat, end: nat) {
    SameBefore(d, d', off) && end <= |d| && d[end..] == d'[end..]
  }

  lemma SameBehind(d: seq<byte>, d': seq<byte>, off: nat, end: nat, i: nat)
    requires SameOutside(d, d', off, end) && end <= i < |d|
    ensures d[i] == d'[i]
  {
    assert d[end..][i - end] == d[i] && d'[end..][i - end] == d'[i];
  }

  lemma SameTotal(d: seq<byte>, d': seq<byte>, off: nat, l: Layer)
    requires SameBefore(d, d', off) && l.start + 4 <= off
    ensures Total(d, l) == Total(d', l)
  {
    SameField(d, d', off, l.start + 2);
  }

  lemma SameTrailer(d: seq<byte>, d': seq<byte>, off: nat, l: Layer, end: nat)
    requires SameBefore(d, d', off) && BeforeTrailer(d, l, end) && End(l) <= off && (l.proto.Ip4? ==> l.length >= 20)
    ensures BeforeTrailer(d', l, end)
  {
    if l.proto.Ip4? {
      SameTotal(d, d', off, l);
      SameOctets(d, d', off, l.start + 9);
    }
  }

  lemma RewriteClear(d: seq<byte>, d': seq<byte>, layers: seq<Layer>, off: nat, end: nat)
    requires Clear(d, layers, end) && SameBefore(d, d', off)
    requires forall i :: 0 <= i < |layers| ==>
               End(layers[i]) <= off && (layers[i].proto.Ip4? ==> layers[i].length >= 20)
    ensures Clear(d', layers, end)
  {
    forall i | 0 <= i < |layers| - 1 ensures Cleared(d', layers, end, i) {
      assert Cleared(d, layers, end, i);
      SameTrailer(d, d', off, layers[i], end);
    }
  }

  // ----------------------------------------------------------------- one call at a time

  lemma LinkTidy(cfg: Config, st: State, call: Call, off: nat, len: nat, o: Outcome)
    requires Ready(st, call, off, len) && Tidy(cfg, st, call, off + len) && o == Step(cfg, st, call, off, len)
    requires call.DoEth? || call.DoBridge? || call.DoPppoe? || call.DoArp? || call.DoIpv6?
    ensures TidyAfter(cfg, o)
  {
    match call {
      case DoEth =>
        assert o == StepEth(cfg, st, off, len);
        if o.Next? {
          PushTidy(cfg, st, call, off + len, o, Layer(Eth, off, 14));
        }
      case DoBridge =>
        assert o == StepBridge(cfg, st, off, len);
        if o.Next? {
          PushTidy(cfg, st, call, off + len, o, Layer(Eth, off, 14));
        }
      case DoPppoe =>
        assert o == StepPppoe(cfg, st, off, len);
        if o.Next? {
          PushTidy(cfg, st, call, off + len, o, Layer(Pppoe, off, 6));
        }
      case DoArp => assert o == StepArp(cfg, st, off, len);
      case DoIpv6 => assert o == StepIpv6(st, len);
    }
  }

  lemma VlanTidy(cfg: Config, st: State, off: nat, len: nat, o: Outcome)
    requires Ready(st, DoVlan, off, len) && Tidy(cfg, st, DoVlan, off + len)
    requires o == StepVlan(cfg, st, off, len) && !Rebases(st, off, len)
    ensures TidyAfter(cfg, o)
  {
    if o.Next? {
      PushTidy(cfg, st, DoVlan, off + len, o, Layer(Vlan, off, 4));
    }
  }

  lemma PppTidy(cfg: Config, st: State, st1: State, off: nat, len: nat, o: Outcome)
    requires Ready(st, DoPpp, off, len) && Tidy(cfg, st, DoPpp, off + len) && Before(cfg, st, DoPpp, off)
    requires o == StepPpp(cfg, st, off, len) && o.Next? && st1 == st.(data := o.st.data)
    ensures SameOutside(st.data, st1.data, off, off + len) && Tidy(cfg, st1, DoPpp, off + len)
    ensures TidyAfter(cfg, o)
  {
    PppWritesWithin(cfg, st, off, len, o);
    RewriteClear(st.data, st1.data, st.layers, off, off + len);
    if st.layers != [] && |st.layers| < cfg.layerMax {
      SameTrailer(st.data, st1.data, off, st.layers[|st.layers| - 1], off + len);
    }
    PushTidy(cfg, st1, DoPpp, off + len, o, Layer(PppEncap, off, PppProtocol(st.data, off).0));
  }

  lemma PppWritesWithin(cfg: Config, st: State, off: nat, len: nat, o: Outcome)
    requires Ready(st, DoPpp, off, len) && o == StepPpp(cfg, st, off, len) && o.Next?
    ensures SameOutside(st.data, o.st.data, off, off + len)
    ensures len >= 2 && o.st.layers == PushOn(cfg.layerMax, st.layers, PppEncap, off, PppProtocol(st.data, off).0)
    ensures o.call.DoIp? && o.off + o.len == off + len
  {
  }

  lemma AfterIpTidy(cfg: Config, st: State, st1: State, off: nat, len: nat)
    requires Ready(st1.(iph := None), DoIp, off, len) && st1.iph == Some(off) && len >= 20
    requires Ip4Sound(st1.data, off, len) && st1.data == st.data && st1.layers == st.layers
    requires Tidy(cfg, st, DoIp, off + len)
    ensures TidyAfter(cfg, AfterIp(cfg, st1, off, len))
  {
    var hlen := st.data[off] % 16 * 4;
    EspIsBelow(cfg, st.data, off, hlen);
    PushTidy(cfg, st, DoIp, off + len, AfterIp(cfg, st1, off, len), Layer(Ip4, off, hlen));
  }

  lemma IpTidy(cfg: Config, st: State, off: nat, len: nat, o: Outcome)
    requires Ready(st, DoIp, off, len) && Tidy(cfg, st, DoIp, off + len) && o == StepIp(cfg, st, off, len)
    ensures TidyAfter(cfg, o)
  {
    if len >= 20 && !(st.iph.Some? && st.encapsulated) && Ip4Sound(st.data, off, len) {
      AfterIpTidy(cfg, st, st.(encapsulated := st.encapsulated || st.iph.Some?, iph := Some(off)), off, len);
    }
  }

  lemma EspTidy(cfg: Config, st: State, off: nat, len: nat, o: Outcome)
    requires Ready(st, DoEsp, off, len) && Tidy(cfg, st, DoEsp, off + len) && o == StepEsp(st, off, len)
    ensures TidyAfter(cfg, o)
  {
    assert o.st.data == st.data && o.st.layers == st.layers;
    if o.Next? {
      assert o.off + o.len + 14 <= off + len && !o.call.DoEsp?;
      ClearWithin(st.data, st.layers, off + len, o.off + o.len);
    }
  }

  lemma GreTidy(cfg: Config, st: State, off: nat, len: nat, o: Outcome)
    requires Ready(st, DoGre, off, len) && Tidy(cfg, st, DoGre, off + len) && o == StepGre(cfg, st, off, len)
    ensures TidyAfter(cfg, o)
  {
    if o.Next? {
      var hlen := GreHeader.Length(st.data[off..off + len]).value;
      assert o == AfterGre(cfg, st, off, len, hlen);
      PushTidy(cfg, st, DoGre, off + len, o, Layer(Gre, off, hlen));
    }
  }

  lemma UdpTidy(cfg: Config, st: State, off: nat, len: nat, o: Outcome)
    requires Ready(st, DoUdp, off, len) && Tidy(cfg, st, DoUdp, off + len) && o == StepUdp(cfg, st, off, len)
    ensures TidyAfter(cfg, o)
  {
    if o.Next? {
      PushTidy(cfg, st, DoUdp, off + len, o, Layer(Udp, off, 8));
    }
  }

  lemma GtpTidy(cfg: Config, st: State, off: nat, len: nat, o: Outcome)
    requires Ready(st, DoGtp, off, len) && Tidy(cfg, st, DoGtp, off + len) && o == StepGtp(cfg, st, off, len)
    ensures TidyAfter(cfg, o)
  {
    if o.Next? {
      var hlen := GtpHeader.Length(st.data[off..off + len]).value;
      PushTidy(cfg, st, DoGtp, off + len, o, Layer(Gtp, off, hlen));
    }
  }

  /** Every call but the LLC branch keeps the trailers out of its slice. */
  lemma StepTidy(cfg: Config, st: State, call: Call, off: nat, len: nat, o: Outcome)
    requires Ready(st, call, off, len) && Before(cfg, st, call, off) && Tidy(cfg, st, call, off + len)
    requires o == Step(cfg, st, call, off, len) && !(call.DoVlan? && Rebases(st, off, len))
    ensures TidyAfter(cfg, o)
  {
    match call {
      case DoVlan => VlanTidy(cfg, st, off, len, o);
      case DoPpp =>
        if o.Next? {
          PppTidy(cfg, st, st.(data := o.st.data), off, len, o);
        }
      case DoIp => IpTidy(cfg, st, off, len, o);
      case DoEsp => EspTidy(cfg, st, off, len, o);
      case DoGre => GreTidy(cfg, st, off, len, o);
      case DoUdp => UdpTidy(cfg, st, off, len, o);
      case DoGtp => GtpTidy(cfg, st, off, len, o);
      case DoEth | DoBridge | DoPppoe | DoArp | DoIpv6 => LinkTidy(cfg, st, call, off, len, o);
      case DoTcp => assert o == StepTcp(cfg, st, off, len);
      case DoIcmp => assert o == StepIcmp(cfg, st, off, len);
    }
  }
}
