/** Decoding what a sender encoded: for every well-formed stack of headers the
    decoder records exactly those headers, as many as the table holds. */
module DecoderRoundTrip {
  import opened Bytes
  import opened DecoderModel
  import opened Frames
  import Checksum
  import GreHeader
  import GtpHeader

  /** The decoder in charge of a frame that is not at the very front. */
  function CallOf(f: Frame): Call
    requires !f.Opaque?
  {
    match f
    case EthF(_, _) => DoBridge
    case VlanF(_, _) => DoVlan
    case PppoeF(_, _) => DoPppoe
    case PppF(_, _, _) => DoPpp
    case ArpF(_, _, _) => DoArp
    case IpF(_, _, _, _, _, _, _, _, _) => DoIp
    case EspF(_, _, _, _) => DoEsp
    case GreF(_, _) => DoGre
    case UdpF(_, _, _, _, _) => DoUdp
    case GtpF(_, _) => DoGtp
    case TcpF(_, _, _, _, _) => DoTcp
    case IcmpF(_, _, _) => DoIcmp
  }

  /** The table after one more header: a full one stays as it is. */
  function Recorded(max: nat, layers: seq<Layer>, own: seq<Layer>): seq<Layer> {
    if |layers| < max then layers + own else layers
  }

  /** The headers that decoders look back at end at or before `off`. */
  predicate Behind(st: State, off: nat) {
    (st.eh.Some? ==> st.eh.value + 14 <= off) && (st.iph.Some? ==> st.iph.value + 20 <= off)
  }

  /** The packet fields are what the headers above make them, and these end at or
      before `off`. */
  predicate Tracks(st: State, ctx: Context, off: nat) {
    && Behind(st, off)
    && (st.iph.Some? <==> ctx.depth > 0)
    && (st.encapsulated <==> ctx.depth > 1)
    && st.gtpEncapsulated == ctx.gtp
    && st.unsure == ctx.unsure
    && (st.eh.Some? && st.eh.value + 14 <= |st.data| ==>
          (Be16(st.data, st.eh.value + 12) == TYPE_PPPOE_SESS <==> ctx.pppoe))
    && (st.iph.Some? ==> TracksIp(st, ctx))
  }

  predicate TracksIp(st: State, ctx: Context)
    requires st.iph.Some?
  {
    var ip := st.iph.value;
    && ip + 20 <= |st.data|
    && st.data[ip + 12..ip + 20] == ctx.addresses
    && st.data[ip + 9] == ctx.proto
    && Be16(st.data, ip + 2) - st.data[ip] % 16 * 4 == ctx.rest
    && st.fragmented == ctx.fragmented
  }

  /** The slice holds exactly the encoding of `f`, a header of `head` octets
      around `inner`. */
  predicate Holds(cfg: Config, st: State, off: nat, len: nat, ctx: Context, f: Frame, head: seq<byte>, inner: seq<byte>)
    requires !f.Opaque?
  {
    && HeaderOk(cfg, ctx, f)
    && inner == Encode(f.below) && head == Head(f, |inner|)
    && StandsAt(st.data, off, head) && StandsAt(st.data, off + |head|, Carried(f, inner))
    && len == |head| + |inner| + |Tail(f)|
    && off + len <= |st.data|
  }

  /** The capture once the header is read: where it announced a slot number, the
      protocol number of TCP is back in its place. */
  function Restored(f: Frame, d: seq<byte>, at: nat): (r: seq<byte>)
    ensures |r| == |d|
  {
    if f.PppF? && f.slot.Some? && at + 9 < |d| then d[at + 9 := PROTO_TCP] else d
  }

  /** An IPv4 header with the protocol number of what it carries. */
  predicate LikeIp(f: Frame, inner: seq<byte>)
    requires f.IpF?
  {
    |inner| >= 20 && inner[0] / 16 == 4 && inner[9] == IpProtoOf(f.below)
  }

  /** A call that pushes no layer: IPv6 never does here, PPPoE not without a
      session or room for its header, GTP not inside GTP or without a header of
      its own. */
  predicate Idle(o: Outcome)
    requires o.Next?
  {
    || o.call.DoIpv6?
    || (o.call.DoPppoe? && (o.len < 6 || !Session(o.st)))
    || (o.call.DoGtp? && (o.st.gtpEncapsulated || NoGtp(o.st.data, o.off, o.len)))
  }

  /** Is the Ethernet header last laid of the PPPoE session type? */
  predicate Session(st: State) {
    st.eh.Some? && st.eh.value + 14 <= |st.data| && Be16(st.data, st.eh.value + 12) == TYPE_PPPOE_SESS
  }

  predicate NoGtp(d: seq<byte>, off: nat, len: nat) {
    off + len <= |d| && GtpHeader.Length(d[off..off + len]).None?
  }

  /** The step records the header and goes on with what it carries, or with
      nothing that pushes a layer. */
  predicate Leads(cfg: Config, o: Outcome, st: State, off: nat, ctx: Context, f: Frame,
                  head: seq<byte>, inner: seq<byte>)
    requires !f.Opaque?
  {
    && o.st.data == Restored(f, st.data, off + |head|)
    && o.st.layers == Recorded(cfg.layerMax, st.layers, OwnLayer(f, off, |head|))
    && if f.below.Opaque? then o.Next? ==> Idle(o)
       else
         && o.Next? && o.call == CallOf(f.below)
         && o.off == off + |head| && o.len == |inner|
         && (f.below.ArpF? || Tracks(o.st, Under(ctx, f), o.off))
  }

  /** The decoder named for what follows is the one in charge of it; for what
      is not decoded it is none, or one that pushes nothing. */
  predicate NextFits(next: Option<Call>, below: Frame) {
    if below.Opaque? then next.None? || next == Some(DoIpv6) else next == Some(CallOf(below))
  }

  /** Once the header is recorded and the next decoder named, the step leads on. */
  lemma Onward(cfg: Config, st: State, st1: State, next: Option<Call>, off: nat, ctx: Context,
               f: Frame, head: seq<byte>, inner: seq<byte>)
    requires !f.Opaque? && NextFits(next, f.below)
    requires st1.data == Restored(f, st.data, off + |head|)
    requires st1.layers == Recorded(cfg.layerMax, st.layers, OwnLayer(f, off, |head|))
    requires f.below.Opaque? || f.below.ArpF? || Tracks(st1, Under(ctx, f), off + |head|)
    ensures Leads(cfg, Dispatch(st1, next, off + |head|, |inner|), st, off, ctx, f, head, inner)
  {
  }

  /** Or, for what is not decoded, a decoder that leaves it alone. */
  lemma OnwardIdle(cfg: Config, st: State, st1: State, call: Call, off: nat, ctx: Context,
                   f: Frame, head: seq<byte>, inner: seq<byte>)
    requires !f.Opaque? && f.below.Opaque? && Idle(Next(st1, call, off + |head|, |inner|))
    requires st1.data == Restored(f, st.data, off + |head|)
    requires st1.layers == Recorded(cfg.layerMax, st.layers, OwnLayer(f, off, |head|))
    ensures Leads(cfg, Next(st1, call, off + |head|, |inner|), st, off, ctx, f, head, inner)
  {
  }

  /** Recording a layer changes nothing that the headers below look at. */
  lemma PushRecords(cfg: Config, st: State, off: nat, ctx: Context, f: Frame, head: nat)
    requires !f.Opaque? && head < 0x1_0000 && OwnLayer(f, off, head) != []
    requires Tracks(st, ctx, off + head)
    ensures var st1 := Push(cfg, st, ProtoOf(f), off, if f.IcmpF? then IcmpLayer(f.message) else head);
            && Tracks(st1, ctx, off + head) && st1.data == st.data
            && st1.layers == Recorded(cfg.layerMax, st.layers, OwnLayer(f, off, head))
  {
  }

  /** A header that is recorded and handed on from. */
  lemma PushOnward(cfg: Config, st: State, st1: State, next: Option<Call>, off: nat, ctx: Context,
                   f: Frame, head: seq<byte>, inner: seq<byte>)
    requires !f.Opaque? && !f.IcmpF? && NextFits(next, f.below)
    requires |head| < 0x1_0000 && OwnLayer(f, off, |head|) != []
    requires st1.data == Restored(f, st.data, off + |head|) && st1.layers == st.layers
    requires Tracks(st1, Under(ctx, f), off + |head|)
    ensures Leads(cfg, Dispatch(Push(cfg, st1, ProtoOf(f), off, |head|), next, off + |head|, |inner|), st, off, ctx, f,
                  head, inner)
  {
    PushRecords(cfg, st1, off, Under(ctx, f), f, |head|);
    Onward(cfg, st, Push(cfg, st1, ProtoOf(f), off, |head|), next, off, ctx, f, head, inner);
  }

  // -------------------------------------------------------------- the link layers

  lemma TypeReads(d: seq<byte>, off: nat, a: seq<byte>, t: uint16)
    requires StandsAt(d, off, a + Be16Bytes(t))
    ensures off + |a| + 2 <= |d| && Be16(d, off + |a|) == t
  {
    StandsAtConcat(d, off, a, Be16Bytes(t));
    var b := Be16Bytes(t);
    assert b[0] == d[off + |a|] && b[1] == d[off + |a| + 1];
  }

  /** The Ethernet type names the decoder of what follows. */
  lemma EtherDispatch(below: Frame)
    requires EtherCarries(below) || below.PppoeF?
    ensures NextFits(OfEtherType(EtherTypeOf(below)), below)
  {
  }

  lemma EthStep(cfg: Config, st: State, off: nat, len: nat, ctx: Context, f: Frame,
                head: seq<byte>, inner: seq<byte>)
    requires f.EthF? && ctx == Outermost() && st == Initial(st.data)
    requires Ready(st, DoEth, off, len) && Holds(cfg, st, off, len, ctx, f, head, inner)
    ensures Leads(cfg, StepEth(cfg, st, off, len), st, off, ctx, f, head, inner)
  {
    TypeReads(st.data, off, f.addresses, EtherTypeOf(f.below));
    EthOnward(cfg, st, Push(cfg, st.(eh := Some(off)), Eth, off, 14), off, ctx, f, head, inner);
  }

  lemma EthOnward(cfg: Config, st: State, st1: State, off: nat, ctx: Context, f: Frame,
                  head: seq<byte>, inner: seq<byte>)
    requires f.EthF? && ctx == Outermost() && st == Initial(st.data) && |head| == 14
    requires EtherCarries(f.below) || f.below.PppoeF? || PppoeIdle(EtherTypeOf(f.below) == TYPE_PPPOE_SESS, f.below)
    requires inner == Encode(f.below) && off + 14 <= |st.data| && Be16(st.data, off + 12) == EtherTypeOf(f.below)
    requires st1 == Push(cfg, st.(eh := Some(off)), Eth, off, 14)
    ensures Leads(cfg, Dispatch(st1, OfEtherType(EtherTypeOf(f.below)), off + 14, |inner|), st, off, ctx, f, head,
                  inner)
  {
    if f.below.Opaque? && EtherTypeOf(f.below) in [TYPE_PPPOE_DISC, TYPE_PPPOE_SESS] {
      OnwardIdle(cfg, st, st1, DoPppoe, off, ctx, f, head, inner);
    } else {
      EtherDispatch(f.below);
      Onward(cfg, st, st1, OfEtherType(EtherTypeOf(f.below)), off, ctx, f, head, inner);
    }
  }

  lemma BridgeDispatch(below: Frame)
    requires EtherCarries(below) || PppoeIdle(false, below)
    ensures var next := OfEtherType(EtherTypeOf(below));
            NextFits(if next == Some(DoPppoe) then None else next, below)
  {
  }

  lemma BridgeOnward(cfg: Config, st: State, off: nat, len: nat, ctx: Context, f: Frame,
                     head: seq<byte>, inner: seq<byte>)
    requires f.EthF? && ctx.depth > 0 && Tracks(st, ctx, off) && Ready(st, DoBridge, off, len)
    requires |head| == 14 && len == 14 + |inner| && (EtherCarries(f.below) || PppoeIdle(false, f.below))
    requires Be16(st.data, off + 12) == EtherTypeOf(f.below)
    ensures Leads(cfg, StepBridge(cfg, st, off, len), st, off, ctx, f, head, inner)
  {
    var st1 := st.(eh := Some(off));
    BridgeDispatch(f.below);
    var next := OfEtherType(EtherTypeOf(f.below));
    PushOnward(cfg, st, st1, if next == Some(DoPppoe) then None else next, off, ctx, f, head, inner);
  }

  lemma BridgeStep(cfg: Config, st: State, off: nat, len: nat, ctx: Context, f: Frame,
                   head: seq<byte>, inner: seq<byte>)
    requires f.EthF? && ctx.depth > 0 && Tracks(st, ctx, off)
    requires Ready(st, DoBridge, off, len) && Holds(cfg, st, off, len, ctx, f, head, inner)
    ensures Leads(cfg, StepBridge(cfg, st, off, len), st, off, ctx, f, head, inner)
  {
    TypeReads(st.data, off, f.addresses, EtherTypeOf(f.below));
    BridgeOnward(cfg, st, off, len, ctx, f, head, inner);
  }

  lemma VlanStep(cfg: Config, st: State, off: nat, len: nat, ctx: Context, f: Frame,
                 head: seq<byte>, inner: seq<byte>)
    requires f.VlanF? && Tracks(st, ctx, off)
    requires Ready(st, DoVlan, off, len) && Holds(cfg, st, off, len, ctx, f, head, inner)
    ensures Leads(cfg, StepVlan(cfg, st, off, len), st, off, ctx, f, head, inner)
  {
    TypeReads(st.data, off, f.tag, EtherTypeOf(f.below));
    VlanOnward(cfg, st, Push(cfg, st, Vlan, off, 4), off, ctx, f, head, inner);
  }

  lemma VlanOnward(cfg: Config, st: State, st1: State, off: nat, ctx: Context, f: Frame,
                   head: seq<byte>, inner: seq<byte>)
    requires f.VlanF? && Tracks(st, ctx, off) && off + 4 <= |st.data| && |head| == 4 && inner == Encode(f.below)
    requires EtherCarries(f.below) || f.below.PppoeF? || PppoeIdle(ctx.pppoe, f.below)
    requires st1 == Push(cfg, st, Vlan, off, 4)
    ensures Leads(cfg, Dispatch(st1, OfEtherType(EtherTypeOf(f.below)), off + 4, |inner|), st, off, ctx, f, head, inner)
  {
    if PppoeIdle(ctx.pppoe, f.below) {
      PushRecords(cfg, st, off, ctx, f, 4);
      OnwardIdle(cfg, st, st1, DoPppoe, off, ctx, f, head, inner);
    } else {
      EtherDispatch(f.below);
      PushOnward(cfg, st, st, OfEtherType(EtherTypeOf(f.below)), off, ctx, f, head, inner);
    }
  }

  lemma PppoeStep(cfg: Config, st: State, off: nat, len: nat, ctx: Context, f: Frame,
                  head: seq<byte>, inner: seq<byte>)
    requires f.PppoeF? && ctx.pppoe && Tracks(st, ctx, off)
    requires Ready(st, DoPppoe, off, len) && Holds(cfg, st, off, len, ctx, f, head, inner)
    ensures Leads(cfg, StepPppoe(cfg, st, off, len), st, off, ctx, f, head, inner)
  {
    PushOnward(cfg, st, st, Some(DoPpp), off, ctx, f, head, inner);
  }

  lemma PppReads(d: seq<byte>, off: nat, f: Frame, n: nat)
    requires f.PppF? && StandsAt(d, off, Head(f, n)) && off + 2 <= |d|
    requires var number := PppNumber(f.slot, f.below);
             if f.compressed then number < 256 && number % 2 == 1 else number / 256 % 2 == 0
    ensures PppProtocol(d, off) == (if f.compressed then 1 else 2, PppNumber(f.slot, f.below))
  {
    var head := Head(f, n);
    assert head[0] == d[off];
    if !f.compressed {
      assert head[1] == d[off + 1];
    }
  }

  /** A write behind the headers looked back at. */
  lemma StillTracks(st: State, st1: State, ctx: Context, off: nat, w: nat)
    requires Tracks(st, ctx, off) && off <= w < |st.data| && st1 == st.(data := st.data[w := PROTO_TCP])
    ensures Tracks(st1, ctx, off)
  {
    if st.iph.Some? {
      var ip := st.iph.value;
      assert st1.data[ip + 12..ip + 20] == st.data[ip + 12..ip + 20];
    }
  }

  lemma PppStep(cfg: Config, st: State, off: nat, len: nat, ctx: Context, f: Frame,
                head: seq<byte>, inner: seq<byte>)
    requires f.PppF? && Tracks(st, ctx, off)
    requires Ready(st, DoPpp, off, len) && Holds(cfg, st, off, len, ctx, f, head, inner)
    requires f.below.IpF? ==> LikeIp(f.below, inner)
    ensures Leads(cfg, StepPpp(cfg, st, off, len), st, off, ctx, f, head, inner)
  {
    PppReads(st.data, off, f, |inner|);
    if f.slot.Some? {
      PppSlotStep(cfg, st, off, len, ctx, f, head, inner);
    } else {
      PppPlainStep(cfg, st, off, len, ctx, f, head, inner);
    }
  }

  lemma PppSlotStep(cfg: Config, st: State, off: nat, len: nat, ctx: Context, f: Frame,
                    head: seq<byte>, inner: seq<byte>)
    requires f.PppF? && f.slot.Some? && f.below.IpF? && Tracks(st, ctx, off) && Ready(st, DoPpp, off, len)
    requires len == |head| + |inner| && 1 <= |head| <= 2 && |inner| >= 20
    requires PppProtocol(st.data, off) == (|head|, PPP_VJ_UCOMP)
    ensures Leads(cfg, StepPpp(cfg, st, off, len), st, off, ctx, f, head, inner)
  {
    var st1 := st.(data := st.data[off + |head| + 9 := PROTO_TCP]);
    StillTracks(st, st1, ctx, off, off + |head| + 9);
    PushOnward(cfg, st, st1, Some(DoIp), off, ctx, f, head, inner);
  }

  lemma PppPlainStep(cfg: Config, st: State, off: nat, len: nat, ctx: Context, f: Frame,
                     head: seq<byte>, inner: seq<byte>)
    requires f.PppF? && f.slot.None? && Tracks(st, ctx, off) && Ready(st, DoPpp, off, len)
    requires len == |head| + |inner| && 1 <= |head| <= 2 && len >= 2
    requires f.below.IpF? || (f.below.Opaque? && PppProtoOf(f.below) !in [PPP_IP, PPP_VJ_UCOMP])
    requires PppProtocol(st.data, off) == (|head|, PppProtoOf(f.below))
    ensures Leads(cfg, StepPpp(cfg, st, off, len), st, off, ctx, f, head, inner)
  {
    if f.below.IpF? {
      PushOnward(cfg, st, st, Some(DoIp), off, ctx, f, head, inner);
    } else if PppProtoOf(f.below) == PPP_IPX {
      PushOnward(cfg, st, st, None, off, ctx, f, head, inner);
    } else {
      assert st.layers + [] == st.layers;
      Onward(cfg, st, st, None, off, ctx, f, head, inner);
    }
  }

  lemma ArpStep(cfg: Config, st: State, off: nat, len: nat, ctx: Context, f: Frame,
                head: seq<byte>, inner: seq<byte>)
    requires f.ArpF?
    requires Ready(st, DoArp, off, len) && Holds(cfg, st, off, len, ctx, f, head, inner)
    ensures Leads(cfg, StepArp(cfg, st, off, len), st, off, ctx, f, head, inner)
  {
  }

  // ------------------------------------------------------------------- IPv4, ESP

  lemma {:induction false} IpReads(d: seq<byte>, off: nat, f: Frame, n: nat, head: seq<byte>)
    requires f.IpF? && head == Head(f, n) && StandsAt(d, off, head)
    requires |f.ident| == 2 && |f.checksum| == 2 && |f.addresses| == 8
    requires |f.options| % 4 == 0 && |f.options| <= 40 && 20 + |f.options| + n < 0x1_0000
    ensures |head| == 20 + |f.options|
    ensures d[off] / 16 == 4 && d[off] % 16 * 4 == |head| && Be16(d, off + 2) == |head| + n
    ensures Be16(d, off + 6) == f.frag && d[off + 9] == IpProtoOf(f.below)
    ensures d[off + 12..off + 20] == f.addresses
  {
    var start := IpStart(f.tos, |f.options|, n);
    assert head[..4] == start && head[6..8] == Be16Bytes(f.frag) && head[12..20] == f.addresses;
    assert start[2..4] == Be16Bytes(20 + |f.options| + n);
    assert head[0] == start[0] && head[2] == start[2..4][0] && head[3] == start[2..4][1];
    assert head[6] == head[6..8][0] && head[7] == head[6..8][1] && head[9] == IpProtoOf(f.below);
    StandsAtSlice(d, off, head);
    assert d[off + 12..off + 20] == d[off..off + |head|][12..20];
  }

  /** Protocol number and fragment fields name the decoder of what follows. */
  lemma IpDispatch(cfg: Config, d: seq<byte>, off: nat, f: Frame)
    requires f.IpF? && off + 20 <= |d| && IpCarries(cfg, f.frag, f.below)
    requires Be16(d, off + 6) == f.frag && d[off + 9] == IpProtoOf(f.below)
    ensures IsFragment(d, off) == (FragOffset(f.frag) != 0 || MoreFragments(f.frag))
    ensures NextFits(BelowIp(cfg, d, off), f.below)
  {
  }

  lemma IpTracks(st: State, st2: State, off: nat, ctx: Context, f: Frame, head: nat)
    requires f.IpF? && Tracks(st, ctx, off) && ctx.depth < 2 && off + 20 <= |st.data| && head >= 20
    requires st2 == st.(encapsulated := st.encapsulated || st.iph.Some?, iph := Some(off),
                        fragmented := FragOffset(f.frag) != 0 || MoreFragments(f.frag))
    requires st.data[off + 12..off + 20] == f.addresses && st.data[off + 9] == IpProtoOf(f.below)
    requires Be16(st.data, off + 2) - st.data[off] % 16 * 4 == |Encode(f.below)|
    ensures Tracks(st2, Under(ctx, f), off + head)
  {
  }

  lemma IpOnward(cfg: Config, st: State, st1: State, off: nat, len: nat, ctx: Context, f: Frame,
                 head: seq<byte>, inner: seq<byte>)
    requires f.IpF? && Ready(st, DoIp, off, len) && len >= 20 && Ip4Sound(st.data, off, len)
    requires st1 == st.(encapsulated := st.encapsulated || st.iph.Some?, iph := Some(off))
    requires st.data[off] % 16 * 4 == |head| && Be16(st.data, off + 2) == |head| + |inner|
    requires NextFits(BelowIp(cfg, st.data, off), f.below)
    requires Tracks(st1.(fragmented := IsFragment(st.data, off)), Under(ctx, f), off + |head|)
    ensures Leads(cfg, AfterIp(cfg, st1, off, len), st, off, ctx, f, head, inner)
  {
    var st2 := st1.(fragmented := IsFragment(st.data, off));
    PushOnward(cfg, st, st2, BelowIp(cfg, st.data, off), off, ctx, f, head, inner);
  }

  lemma {:induction false} AfterIpStep(cfg: Config, st: State, st1: State, off: nat, len: nat, ctx: Context, f: Frame,
                                       head: seq<byte>, inner: seq<byte>)
    requires f.IpF? && Tracks(st, ctx, off) && ctx.depth < 2
    requires Ready(st, DoIp, off, len) && Holds(cfg, st, off, len, ctx, f, head, inner)
    requires st1 == st.(encapsulated := st.encapsulated || st.iph.Some?, iph := Some(off))
    ensures len >= 20 && Ip4Sound(st1.data, off, len)
    ensures Leads(cfg, AfterIp(cfg, st1, off, len), st, off, ctx, f, head, inner)
  {
    IpReads(st.data, off, f, |inner|, head);
    IpDispatch(cfg, st.data, off, f);
    IpTracks(st, st1.(fragmented := IsFragment(st.data, off)), off, ctx, f, |head|);
    IpOnward(cfg, st, st1, off, len, ctx, f, head, inner);
  }

  lemma IpStep(cfg: Config, st: State, off: nat, len: nat, ctx: Context, f: Frame,
               head: seq<byte>, inner: seq<byte>)
    requires f.IpF? && Tracks(st, ctx, off) && ctx.depth < 2
    requires Ready(st, DoIp, off, len) && Holds(cfg, st, off, len, ctx, f, head, inner)
    ensures Leads(cfg, StepIp(cfg, st, off, len), st, off, ctx, f, head, inner)
  {
    var st1 := st.(encapsulated := st.encapsulated || st.iph.Some?, iph := Some(off));
    AfterIpStep(cfg, st, st1, off, len, ctx, f, head, inner);
  }

  lemma EspDispatch(below: Frame)
    requires EspCarries(below)
    ensures NextFits(OfEspNext(IpProtoOf(below)), below)
  {
  }

  lemma EspReads(d: seq<byte>, off: nat, len: nat, f: Frame, inner: seq<byte>)
    requires f.EspF? && |f.padding| < 256 && |f.auth| == 12 && |inner| > 0
    requires StandsAt(d, off + 8 + |inner|, Tail(f)) && len == 8 + |inner| + |Tail(f)|
    ensures off + len <= |d| && EspSound(d, off, len)
    ensures d[off + len - 14] == |f.padding| && d[off + len - 13] == IpProtoOf(f.below)
    ensures len - 22 - |f.padding| == |inner|
  {
    var tail, p := Tail(f), |f.padding|;
    assert tail[p] == p && tail[p + 1] == IpProtoOf(f.below);
    assert tail[p] == d[off + 8 + |inner| + p] && tail[p + 1] == d[off + 8 + |inner| + (p + 1)];
  }

  lemma AfterEspStep(cfg: Config, st: State, off: nat, len: nat, ctx: Context, f: Frame,
                     head: seq<byte>, inner: seq<byte>)
    requires f.EspF? && Tracks(st, ctx, off)
    requires Ready(st, DoEsp, off, len) && EspSound(st.data, off, len) && EspCarries(f.below) && |head| == 8
    requires st.data[off + len - 13] == IpProtoOf(f.below)
    requires len - 22 - st.data[off + len - 14] == |inner|
    ensures Leads(cfg, AfterEsp(st, off, len), st, off, ctx, f, head, inner)
  {
    EspDispatch(f.below);
    Onward(cfg, st, st.(unsure := true), OfEspNext(IpProtoOf(f.below)), off, ctx, f, head, inner);
  }

  lemma EspStep(cfg: Config, st: State, off: nat, len: nat, ctx: Context, f: Frame,
                head: seq<byte>, inner: seq<byte>)
    requires f.EspF? && Tracks(st, ctx, off)
    requires Ready(st, DoEsp, off, len) && Holds(cfg, st, off, len, ctx, f, head, inner)
    requires StandsAt(st.data, off + |head| + |inner|, Tail(f))
    ensures Leads(cfg, StepEsp(st, off, len), st, off, ctx, f, head, inner)
  {
    EspReads(st.data, off, len, f, inner);
    AfterEspStep(cfg, st, off, len, ctx, f, head, inner);
  }

  // -------------------------------------------------------------- GRE, UDP, GTP

  lemma GreReads(d: seq<byte>, off: nat, len: nat, gre: GreHeader.Header, head: seq<byte>)
    requires GreHeader.WellFormed(gre) && head == GreHeader.Encode(gre)
    requires StandsAt(d, off, head) && |head| <= len && off + len <= |d|
    ensures GreHeader.Length(d[off..off + len]) == Some(|head|)
    ensures |head| >= 4 && Be16(d, off + 2) == if gre.V0? then gre.proto else GreHeader.TYPE_PPP
  {
    var w := d[off..off + len];
    StandsAtSlice(d, off, head);
    assert head == w[..|head|];
    GreHeader.LengthOfEncoded(w, gre);
    GreHeader.TypeOfEncoded(w, gre);
    assert w[2] == d[off + 2] && w[3] == d[off + 3];
  }

  lemma GreDispatch(below: Frame)
    requires GreCarries(below)
    ensures NextFits(OfGreType(EtherTypeOf(below)), below)
  {
  }

  lemma {:induction false} AfterGreStep(cfg: Config, st: State, off: nat, len: nat, ctx: Context, f: Frame,
                                        head: seq<byte>, inner: seq<byte>)
    requires f.GreF? && Tracks(st, ctx, off) && ctx.depth < 2
    requires Ready(st, DoGre, off, len) && Holds(cfg, st, off, len, ctx, f, head, inner)
    requires |head| >= 4 && Be16(st.data, off + 2) == EtherTypeOf(f.below)
    ensures Leads(cfg, AfterGre(cfg, st, off, len, |head|), st, off, ctx, f, head, inner)
  {
    GreDispatch(f.below);
    PushRecords(cfg, st, off, ctx, f, |head|);
    var st1, next := Push(cfg, st, Gre, off, |head|), OfGreType(EtherTypeOf(f.below));
    Onward(cfg, st, if next == Some(DoArp) then st1.(iph := None) else st1, next, off, ctx, f, head, inner);
  }

  lemma GreStep(cfg: Config, st: State, off: nat, len: nat, ctx: Context, f: Frame,
                head: seq<byte>, inner: seq<byte>)
    requires f.GreF? && Tracks(st, ctx, off) && ctx.depth < 2
    requires Ready(st, DoGre, off, len) && Holds(cfg, st, off, len, ctx, f, head, inner)
    ensures Leads(cfg, StepGre(cfg, st, off, len), st, off, ctx, f, head, inner)
  {
    GreReads(st.data, off, len, f.gre, head);
    AfterGreStep(cfg, st, off, len, ctx, f, head, inner);
  }

  lemma UdpReads(d: seq<byte>, off: nat, f: Frame, n: nat, head: seq<byte>)
    requires f.UdpF? && head == Head(f, n) && StandsAt(d, off, head)
    ensures |head| == 8 && Be16(d, off) == f.sp && Be16(d, off + 2) == f.dp
    ensures Be16(d, off + 4) == f.length && Be16(d, off + 6) == f.check
  {
    assert head[0..2] == Be16Bytes(f.sp) && head[2..4] == Be16Bytes(f.dp);
    assert head[4..6] == Be16Bytes(f.length) && head[6..8] == Be16Bytes(f.check);
    assert forall i :: 0 <= i < 8 ==> head[i] == d[off + i];
    assert head[0] == head[0..2][0] && head[1] == head[0..2][1] && head[2] == head[2..4][0] && head[3] == head[2..4][1];
    assert head[4] == head[4..6][0] && head[5] == head[4..6][1] && head[6] == head[6..8][0] && head[7] == head[6..8][1];
  }

  /** The pseudo-header is made of what the last IPv4 header said. */
  lemma SegmentSums(cfg: Config, st: State, off: nat, len: nat, ctx: Context, f: Frame,
                    head: seq<byte>, inner: seq<byte>, length: uint16)
    requires (f.UdpF? || f.TcpF?) && Tracks(st, ctx, off) && st.iph.Some?
    requires Holds(cfg, st, off, len, ctx, f, head, inner)
    ensures SumsUp(cfg, ctx, Encode(f), length) <==>
            Checksum.Rfc1071(cfg.host, PseudoHeader(st, length) + st.data[off..off + len]) == 0
  {
    StandsAtConcat(st.data, off, head, inner);
    StandsAtSlice(st.data, off, head + inner);
    assert Encode(f) == head + inner;
  }

  /** A wrong checksum is not there, or does not count. */
  lemma UdpChecked(cfg: Config, st: State, off: nat, len: nat, ctx: Context, f: Frame,
                   head: seq<byte>, inner: seq<byte>)
    requires f.UdpF? && Tracks(st, ctx, off) && !SumRefused(cfg, ctx, f)
    requires Ready(st, DoUdp, off, len) && Holds(cfg, st, off, len, ctx, f, head, inner) && |head| == 8
    requires Be16(st.data, off + 4) == f.length && Be16(st.data, off + 6) == f.check
    ensures !(UdpChecksumBad(cfg, st, off, len) && st.unsure)
  {
    if UdpChecksumBad(cfg, st, off, len) && st.unsure {
      SegmentSums(cfg, st, off, len, ctx, f, head, inner, f.length);
    }
  }

  /** A datagram that is not dropped is recorded, and handed on if a port is one of GTP. */
  lemma UdpGoes(cfg: Config, st: State, off: nat, len: nat, st1: State)
    requires Ready(st, DoUdp, off, len) && len >= 8 && UdpLength(st, off) == len
    requires !(UdpChecksumBad(cfg, st, off, len) && st.unsure) && st1 == Push(cfg, st, Udp, off, 8)
    ensures StepUdp(cfg, st, off, len) ==
            if !st.fragmented && GtpPort(cfg, Be16(st.data, off), Be16(st.data, off + 2))
            then Next(st1, DoGtp, off + 8, len - 8) else Stop(st1)
  {
  }

  lemma UdpOnward(cfg: Config, st: State, off: nat, ctx: Context, f: Frame,
                  head: seq<byte>, inner: seq<byte>, st1: State)
    requires f.UdpF? && Tracks(st, ctx, off) && |head| == 8
    requires if !ctx.fragmented && GtpPort(cfg, f.sp, f.dp) then f.below.GtpF? else f.below.Opaque?
    requires st1 == Push(cfg, st, Udp, off, 8)
    ensures Leads(cfg, if f.below.GtpF? then Next(st1, DoGtp, off + 8, |inner|) else Stop(st1), st, off, ctx, f, head,
                  inner)
  {
    PushOnward(cfg, st, st, if f.below.GtpF? then Some(DoGtp) else None, off, ctx, f, head, inner);
  }

  lemma UdpOnwardIdle(cfg: Config, st: State, off: nat, ctx: Context, f: Frame,
                      head: seq<byte>, inner: seq<byte>, st1: State)
    requires f.UdpF? && Tracks(st, ctx, off) && |head| == 8 && GtpIdle(ctx, f.below)
    requires StandsAt(st.data, off + 8, inner) && inner == f.below.payload
    requires st1 == Push(cfg, st, Udp, off, 8)
    ensures Leads(cfg, Next(st1, DoGtp, off + 8, |inner|), st, off, ctx, f, head, inner)
  {
    StandsAtSlice(st.data, off + 8, inner);
    OnwardIdle(cfg, st, st1, DoGtp, off, ctx, f, head, inner);
  }

  lemma UdpStep(cfg: Config, st: State, off: nat, len: nat, ctx: Context, f: Frame,
                head: seq<byte>, inner: seq<byte>)
    requires f.UdpF? && Tracks(st, ctx, off) && !SumRefused(cfg, ctx, f)
    requires Ready(st, DoUdp, off, len) && Holds(cfg, st, off, len, ctx, f, head, inner)
    ensures Leads(cfg, StepUdp(cfg, st, off, len), st, off, ctx, f, head, inner)
  {
    UdpReads(st.data, off, f, |inner|, head);
    UdpChecked(cfg, st, off, len, ctx, f, head, inner);
    var st1 := Push(cfg, st, Udp, off, 8);
    UdpGoes(cfg, st, off, len, st1);
    if !ctx.fragmented && GtpPort(cfg, f.sp, f.dp) && f.below.Opaque? {
      UdpOnwardIdle(cfg, st, off, ctx, f, head, inner, st1);
    } else {
      UdpOnward(cfg, st, off, ctx, f, head, inner, st1);
    }
  }

  lemma GtpReads(d: seq<byte>, off: nat, len: nat, f: Frame, head: seq<byte>)
    requires f.GtpF? && GtpHeader.WellFormed(f.gtp) && len >= |head| && off + len <= |d|
    requires |GtpHeader.Encode(f.gtp, 0)| + (len - |head|) < 0x1_0000
    requires head == Head(f, len - |head|) && StandsAt(d, off, head)
    ensures GtpHeader.Length(d[off..off + len]) == Some(|head|) && |head| >= 8
  {
    var w, length := d[off..off + len], GtpLength(f.gtp, len - |head|);
    StandsAtSlice(d, off, head);
    assert head == w[..|head|];
    GtpHeader.LengthOfAnyField(f.gtp, 0, length);
    GtpHeader.LengthOfEncoded(w, f.gtp, length);
  }

  lemma GtpDispatch(below: Frame, inner: seq<byte>)
    requires GtpCarries(below) && inner == Encode(below)
    requires below.IpF? ==> LikeIp(below, inner)
    ensures NextFits(if inner != [] then OfIpVersion(inner[0] / 16) else None, below)
  {
  }

  lemma {:induction false} AfterGtpStep(cfg: Config, st: State, st1: State, off: nat, len: nat, ctx: Context, f: Frame,
                                        head: seq<byte>, inner: seq<byte>, next: Option<Call>)
    requires f.GtpF? && Tracks(st, ctx, off) && !ctx.gtp && st1 == st.(gtpEncapsulated := true)
    requires Ready(st, DoGtp, off, len) && 8 <= |head| && len == |head| + |inner| && NextFits(next, f.below)
    requires next == if inner != [] then OfIpVersion(inner[0] / 16) else None
    requires StandsAt(st.data, off + |head|, inner)
    ensures Leads(cfg, AfterGtp(cfg, st1, off, len, |head|), st, off, ctx, f, head, inner)
  {
    assert inner != [] ==> inner[0] == st.data[off + |head|];
    PushOnward(cfg, st, st1, next, off, ctx, f, head, inner);
  }

  lemma GtpStep(cfg: Config, st: State, off: nat, len: nat, ctx: Context, f: Frame,
                head: seq<byte>, inner: seq<byte>)
    requires f.GtpF? && Tracks(st, ctx, off) && !ctx.gtp
    requires Ready(st, DoGtp, off, len) && Holds(cfg, st, off, len, ctx, f, head, inner)
    requires f.below.IpF? ==> LikeIp(f.below, inner)
    ensures Leads(cfg, StepGtp(cfg, st, off, len), st, off, ctx, f, head, inner)
  {
    GtpReads(st.data, off, len, f, head);
    GtpDispatch(f.below, inner);
    var next := if inner != [] then OfIpVersion(inner[0] / 16) else None;
    AfterGtpStep(cfg, st, st.(gtpEncapsulated := true), off, len, ctx, f, head, inner, next);
  }

  // ------------------------------------------------------------------- TCP, ICMP

  lemma {:induction false} TcpReads(d: seq<byte>, off: nat, f: Frame, n: nat, head: seq<byte>)
    requires f.TcpF? && head == Head(f, n) && StandsAt(d, off, head)
    requires |f.ports| == 12 && |f.options| % 4 == 0 && |f.options| <= 40 && |f.window| == 7
    ensures |head| == 20 + |f.options| && d[off + 12] / 16 * 4 == |head|
  {
    assert head[12] == (5 + |f.options| / 4) % 16 * 16 + f.low % 16;
    assert head[12] == d[off + 12];
  }

  lemma SegmentLength(cfg: Config, st: State, off: nat, len: nat, ctx: Context, f: Frame,
                      head: seq<byte>, inner: seq<byte>)
    requires f.TcpF? && Holds(cfg, st, off, len, ctx, f, head, inner) && len < 0x1_0000
    ensures |Encode(f)| % 0x1_0000 == len
  {
  }

  /** The checksum counts, and is wrong, exactly when the segment is refused for it. */
  lemma TcpVerdict(cfg: Config, st: State, off: nat, len: nat, ctx: Context, f: Frame,
                   head: seq<byte>, inner: seq<byte>)
    requires f.TcpF? && Tracks(st, ctx, off) && Ready(st, DoTcp, off, len)
    requires Holds(cfg, st, off, len, ctx, f, head, inner)
    ensures SumRefused(cfg, ctx, f) <==> TcpChecksumBad(cfg, st, off, len) && st.unsure
  {
    SegmentLength(cfg, st, off, len, ctx, f, head, inner);
    SegmentSums(cfg, st, off, len, ctx, f, head, inner, len);
  }

  lemma TcpStep(cfg: Config, st: State, off: nat, len: nat, ctx: Context, f: Frame,
                head: seq<byte>, inner: seq<byte>)
    requires f.TcpF? && Tracks(st, ctx, off) && !SumRefused(cfg, ctx, f)
    requires Ready(st, DoTcp, off, len) && Holds(cfg, st, off, len, ctx, f, head, inner)
    ensures Leads(cfg, StepTcp(cfg, st, off, len), st, off, ctx, f, head, inner)
  {
    TcpReads(st.data, off, f, |inner|, head);
    TcpVerdict(cfg, st, off, len, ctx, f, head, inner);
    PushOnward(cfg, st, st, None, off, ctx, f, head, inner);
  }

  lemma IcmpStep(cfg: Config, st: State, off: nat, len: nat, ctx: Context, f: Frame,
                 head: seq<byte>, inner: seq<byte>)
    requires f.IcmpF?
    requires Ready(st, DoIcmp, off, len) && Holds(cfg, st, off, len, ctx, f, head, inner)
    ensures Leads(cfg, StepIcmp(cfg, st, off, len), st, off, ctx, f, head, inner)
  {
    assert head[0] == st.data[off];
  }

  // ------------------------------------------------------------- the whole frame

  /** The encoding of a frame falls into its header, what it carries, and the
      trailer. */
  lemma Parts(d: seq<byte>, off: nat, f: Frame, head: seq<byte>, inner: seq<byte>)
    requires !f.Opaque? && inner == Encode(f.below) && head == Head(f, |inner|)
    requires StandsAt(d, off, Encode(f))
    ensures StandsAt(d, off, head) && StandsAt(d, off + |head|, Carried(f, inner))
    ensures StandsAt(d, off + |head| + |inner|, Tail(f))
    ensures |Encode(f)| == |head| + |inner| + |Tail(f)|
  {
    StandsAtConcat(d, off, head + Carried(f, inner), Tail(f));
    StandsAtConcat(d, off, head, Carried(f, inner));
  }

  /** Once the header is read, what it carries stands behind it as it was. */
  lemma Restores(d: seq<byte>, at: nat, f: Frame, inner: seq<byte>)
    requires !f.Opaque? && StandsAt(d, at, Carried(f, inner)) && SlotIsTcp(f, inner)
    ensures StandsAt(Restored(f, d, at), at, inner)
  {
    var d', carried := Restored(f, d, at), Carried(f, inner);
    forall i | 0 <= i < |inner| ensures inner[i] == d'[at + i] {
      assert carried[i] == d[at + i];
    }
  }

  /** A slot number takes the place of the protocol number of TCP. */
  predicate SlotIsTcp(f: Frame, inner: seq<byte>) {
    f.PppF? && f.slot.Some? ==> |inner| >= 20 && inner[9] == PROTO_TCP
  }

  lemma IpStarts(f: Frame)
    requires f.IpF? && |f.ident| == 2 && |f.checksum| == 2 && |f.addresses| == 8
    requires |f.options| % 4 == 0 && |f.options| <= 40
    ensures LikeIp(f, Encode(f))
  {
    var inner := Encode(f.below);
    var head := Head(f, |inner|);
    assert |head| >= 20 && head[0] == IpStart(f.tos, |f.options|, |inner|)[0] && head[9] == IpProtoOf(f.below);
    assert Encode(f) == head + (inner + f.trailer);
  }

  lemma LinkLeads(cfg: Config, st: State, off: nat, len: nat, ctx: Context, f: Frame,
                  head: seq<byte>, inner: seq<byte>, o: Outcome)
    requires (f.EthF? && ctx.depth > 0) || f.VlanF? || (f.PppoeF? && ctx.pppoe) || f.PppF? || f.ArpF?
    requires f.ArpF? || Tracks(st, ctx, off)
    requires f.below.IpF? ==> LikeIp(f.below, inner)
    requires Ready(st, CallOf(f), off, len) && Holds(cfg, st, off, len, ctx, f, head, inner)
    requires o == Step(cfg, st, CallOf(f), off, len)
    ensures Leads(cfg, o, st, off, ctx, f, head, inner)
  {
    match f {
      case EthF(_, _) =>
        assert o == StepBridge(cfg, st, off, len);
        BridgeStep(cfg, st, off, len, ctx, f, head, inner);
      case VlanF(_, _) =>
        assert o == StepVlan(cfg, st, off, len);
        VlanStep(cfg, st, off, len, ctx, f, head, inner);
      case PppoeF(_, _) =>
        assert o == StepPppoe(cfg, st, off, len);
        PppoeStep(cfg, st, off, len, ctx, f, head, inner);
      case PppF(_, _, _) =>
        assert o == StepPpp(cfg, st, off, len);
        PppStep(cfg, st, off, len, ctx, f, head, inner);
      case ArpF(_, _, _) =>
        assert o == StepArp(cfg, st, off, len);
        ArpStep(cfg, st, off, len, ctx, f, head, inner);
    }
  }

  lemma {:induction false} StepIsIp(cfg: Config, st: State, off: nat, len: nat, o: Outcome)
    requires Ready(st, DoIp, off, len) && o == Step(cfg, st, DoIp, off, len)
    ensures o == StepIp(cfg, st, off, len)
  {
  }

  lemma StepIsEsp(cfg: Config, st: State, off: nat, len: nat, o: Outcome)
    requires Ready(st, DoEsp, off, len) && o == Step(cfg, st, DoEsp, off, len)
    ensures o == StepEsp(st, off, len)
  {
  }

  lemma IpLeads(cfg: Config, st: State, off: nat, len: nat, ctx: Context, f: Frame,
                head: seq<byte>, inner: seq<byte>, o: Outcome)
    requires ((f.IpF? && ctx.depth < 2) || f.EspF?) && Tracks(st, ctx, off)
    requires StandsAt(st.data, off + |head| + |inner|, Tail(f))
    requires Ready(st, CallOf(f), off, len) && Holds(cfg, st, off, len, ctx, f, head, inner)
    requires o == Step(cfg, st, CallOf(f), off, len)
    ensures Leads(cfg, o, st, off, ctx, f, head, inner)
  {
    if f.IpF? {
      StepIsIp(cfg, st, off, len, o);
      IpStep(cfg, st, off, len, ctx, f, head, inner);
    } else {
      StepIsEsp(cfg, st, off, len, o);
      EspStep(cfg, st, off, len, ctx, f, head, inner);
    }
  }

  lemma StepIsGre(cfg: Config, st: State, off: nat, len: nat, o: Outcome)
    requires Ready(st, DoGre, off, len) && o == Step(cfg, st, DoGre, off, len)
    ensures o == StepGre(cfg, st, off, len)
  {
  }

  lemma GtpLeads(cfg: Config, st: State, off: nat, len: nat, ctx: Context, f: Frame,
                 head: seq<byte>, inner: seq<byte>, o: Outcome)
    requires f.GtpF? && Tracks(st, ctx, off) && !ctx.gtp
    requires f.below.IpF? ==> LikeIp(f.below, inner)
    requires Ready(st, CallOf(f), off, len) && Holds(cfg, st, off, len, ctx, f, head, inner)
    requires o == Step(cfg, st, CallOf(f), off, len)
    ensures Leads(cfg, o, st, off, ctx, f, head, inner)
  {
    assert o == StepGtp(cfg, st, off, len);
    GtpStep(cfg, st, off, len, ctx, f, head, inner);
  }

  lemma TransportLeads(cfg: Config, st: State, off: nat, len: nat, ctx: Context, f: Frame,
                       head: seq<byte>, inner: seq<byte>, o: Outcome)
    requires (f.UdpF? || f.TcpF? || f.IcmpF?) && Tracks(st, ctx, off) && !SumRefused(cfg, ctx, f)
    requires Ready(st, CallOf(f), off, len) && Holds(cfg, st, off, len, ctx, f, head, inner)
    requires o == Step(cfg, st, CallOf(f), off, len)
    ensures Leads(cfg, o, st, off, ctx, f, head, inner)
  {
    match f {
      case UdpF(_, _, _, _, _) =>
        assert o == StepUdp(cfg, st, off, len);
        UdpStep(cfg, st, off, len, ctx, f, head, inner);
      case TcpF(_, _, _, _, _) =>
        assert o == StepTcp(cfg, st, off, len);
        TcpStep(cfg, st, off, len, ctx, f, head, inner);
      case IcmpF(_, _, _) =>
        assert o == StepIcmp(cfg, st, off, len);
        IcmpStep(cfg, st, off, len, ctx, f, head, inner);
    }
  }

  /** Each header that is not refused, met by the decoder in charge of it, leads on. */
  lemma StepLeads(cfg: Config, st: State, off: nat, len: nat, ctx: Context, f: Frame,
                  head: seq<byte>, inner: seq<byte>, o: Outcome)
    requires !f.Opaque? && (f.EthF? ==> ctx.depth > 0) && (f.ArpF? || Tracks(st, ctx, off)) && !Refused(cfg, ctx, f)
    requires Ready(st, CallOf(f), off, len) && Holds(cfg, st, off, len, ctx, f, head, inner)
    requires StandsAt(st.data, off + |head| + |inner|, Tail(f))
    requires f.below.IpF? ==> LikeIp(f.below, inner)
    requires o == Step(cfg, st, CallOf(f), off, len)
    ensures Leads(cfg, o, st, off, ctx, f, head, inner)
  {
    if f.UdpF? || f.TcpF? || f.IcmpF? {
      TransportLeads(cfg, st, off, len, ctx, f, head, inner, o);
    } else if f.IpF? || f.EspF? {
      IpLeads(cfg, st, off, len, ctx, f, head, inner, o);
    } else if f.GreF? {
      StepIsGre(cfg, st, off, len, o);
      GreStep(cfg, st, off, len, ctx, f, head, inner);
    } else if f.GtpF? {
      GtpLeads(cfg, st, off, len, ctx, f, head, inner, o);
    } else {
      LinkLeads(cfg, st, off, len, ctx, f, head, inner, o);
    }
  }

  lemma TunnelRefused(cfg: Config, st: State, off: nat, len: nat, ctx: Context, f: Frame, o: Outcome)
    requires (((f.IpF? || f.GreF?) && ctx.depth > 1) || (f.GtpF? && ctx.gtp)) && Tracks(st, ctx, off)
    requires Ready(st, CallOf(f), off, len) && o == Step(cfg, st, CallOf(f), off, len)
    ensures o.Stop? && o.st.layers == st.layers
  {
    if f.IpF? {
      assert o == StepIp(cfg, st, off, len);
    } else if f.GreF? {
      assert o == StepGre(cfg, st, off, len);
    } else {
      assert o == StepGtp(cfg, st, off, len);
    }
  }

  lemma PppoeRefused(cfg: Config, st: State, off: nat, len: nat, ctx: Context, o: Outcome)
    requires !ctx.pppoe && Tracks(st, ctx, off) && Ready(st, DoPppoe, off, len) && o == Step(cfg, st, DoPppoe, off, len)
    ensures o.Stop? && o.st.layers == st.layers
  {
    assert o == StepPppoe(cfg, st, off, len);
  }

  lemma UdpRefused(cfg: Config, st: State, off: nat, len: nat, ctx: Context, f: Frame,
                   head: seq<byte>, inner: seq<byte>, o: Outcome)
    requires f.UdpF? && Tracks(st, ctx, off) && SumRefused(cfg, ctx, f) && Ready(st, DoUdp, off, len)
    requires Holds(cfg, st, off, len, ctx, f, head, inner) && o == Step(cfg, st, DoUdp, off, len)
    ensures o.Stop? && o.st.layers == st.layers
  {
    UdpReads(st.data, off, f, |inner|, head);
    SegmentSums(cfg, st, off, len, ctx, f, head, inner, f.length);
    assert UdpChecksumBad(cfg, st, off, len) && st.unsure;
    assert o == StepUdp(cfg, st, off, len);
  }

  lemma TcpRefused(cfg: Config, st: State, off: nat, len: nat, ctx: Context, f: Frame,
                   head: seq<byte>, inner: seq<byte>, o: Outcome)
    requires f.TcpF? && Tracks(st, ctx, off) && SumRefused(cfg, ctx, f) && Ready(st, DoTcp, off, len)
    requires Holds(cfg, st, off, len, ctx, f, head, inner) && o == Step(cfg, st, DoTcp, off, len)
    ensures o.Stop? && o.st.layers == st.layers
  {
    TcpVerdict(cfg, st, off, len, ctx, f, head, inner);
    assert o == StepTcp(cfg, st, off, len);
  }

  /** And one that is refused stops the decoding, unrecorded. */
  lemma RefusedStops(cfg: Config, st: State, off: nat, len: nat, ctx: Context, f: Frame,
                     head: seq<byte>, inner: seq<byte>, o: Outcome)
    requires !f.Opaque? && Refused(cfg, ctx, f) && Tracks(st, ctx, off) && Ready(st, CallOf(f), off, len)
    requires Holds(cfg, st, off, len, ctx, f, head, inner) && o == Step(cfg, st, CallOf(f), off, len)
    ensures o.Stop? && o.st.layers == st.layers
  {
    if f.UdpF? {
      UdpRefused(cfg, st, off, len, ctx, f, head, inner, o);
    } else if f.TcpF? {
      TcpRefused(cfg, st, off, len, ctx, f, head, inner, o);
    } else if f.PppoeF? {
      PppoeRefused(cfg, st, off, len, ctx, o);
    } else {
      TunnelRefused(cfg, st, off, len, ctx, f, o);
    }
  }

  /** Recording a whole list of layers, one at a time. */
  function RecordedAll(max: nat, layers: seq<Layer>, more: seq<Layer>): seq<Layer>
    decreases |more|
  {
    if more == [] then layers else RecordedAll(max, Recorded(max, layers, [more[0]]), more[1..])
  }

  lemma RecordedOwn(max: nat, layers: seq<Layer>, f: Frame, off: nat, head: nat, more: seq<Layer>)
    ensures RecordedAll(max, layers, OwnLayer(f, off, head) + more) ==
            RecordedAll(max, Recorded(max, layers, OwnLayer(f, off, head)), more)
  {
    var own := OwnLayer(f, off, head);
    if own == [] {
      assert own + more == more && layers + own == layers;
    } else {
      assert (own + more)[1..] == more;
    }
  }

  lemma {:induction false} RecordedAllFits(max: nat, layers: seq<Layer>, more: seq<Layer>)
    requires |layers| <= max
    ensures RecordedAll(max, layers, more) ==
            if |layers| + |more| <= max then layers + more else (layers + more)[..max]
    decreases |more|
  {
    if more != [] {
      RecordedAllFits(max, Recorded(max, layers, [more[0]]), more[1..]);
      assert layers + more == (layers + [more[0]]) + more[1..];
    }
  }

  lemma LayersSplit(cfg: Config, ctx: Context, f: Frame, off: nat, head: seq<byte>, inner: seq<byte>)
    requires !f.Opaque? && !Refused(cfg, ctx, f) && inner == Encode(f.below) && head == Head(f, |inner|)
    ensures Layers(cfg, ctx, f, off) ==
            OwnLayer(f, off, |head|) + Layers(cfg, Under(ctx, f), f.below, off + |head|)
  {
  }

  lemma HeaderIsOk(cfg: Config, ctx: Context, f: Frame)
    requires !f.Opaque? && WellFormed(cfg, ctx, f)
    ensures HeaderOk(cfg, ctx, f) && WellFormed(cfg, Under(ctx, f), f.below)
  {
  }

  lemma BelowIsIp(cfg: Config, ctx: Context, f: Frame)
    requires !f.Opaque? && f.below.IpF? && WellFormed(cfg, ctx, f)
    ensures |f.below.ident| == 2 && |f.below.checksum| == 2 && |f.below.addresses| == 8
    ensures |f.below.options| % 4 == 0 && |f.below.options| <= 40
  {
    assert HeaderOk(cfg, Under(ctx, f), f.below);
  }

  lemma {:induction false} Prepare(cfg: Config, st: State, off: nat, len: nat, ctx: Context, f: Frame)
    returns (head: seq<byte>, inner: seq<byte>)
    requires !f.Opaque? && WellFormed(cfg, ctx, f) && off + len <= |st.data|
    requires StandsAt(st.data, off, Encode(f)) && len == |Encode(f)|
    ensures Holds(cfg, st, off, len, ctx, f, head, inner)
    ensures StandsAt(st.data, off + |head| + |inner|, Tail(f))
    ensures f.below.IpF? ==> LikeIp(f.below, inner)
    ensures SlotIsTcp(f, inner)
    ensures !Refused(cfg, ctx, f) ==>
              Layers(cfg, ctx, f, off) ==
              OwnLayer(f, off, |head|) + Layers(cfg, Under(ctx, f), f.below, off + |head|)
    ensures WellFormed(cfg, Under(ctx, f), f.below)
  {
    inner := Encode(f.below);
    head := Head(f, |inner|);
    Parts(st.data, off, f, head, inner);
    if !Refused(cfg, ctx, f) {
      LayersSplit(cfg, ctx, f, off, head, inner);
    }
    HeaderIsOk(cfg, ctx, f);
    if f.below.IpF? {
      BelowIsIp(cfg, ctx, f);
      IpStarts(f.below);
    }
  }

  /** From the first call on a frame to the end of the decoding. */
  lemma {:induction false} RunEncoded(cfg: Config, st: State, off: nat, len: nat, ctx: Context, f: Frame,
                                      layers: seq<Layer>)
    requires !f.Opaque? && WellFormed(cfg, ctx, f) && (f.EthF? ==> ctx.depth > 0) && (f.ArpF? || Tracks(st, ctx, off))
    requires Ready(st, CallOf(f), off, len) && StandsAt(st.data, off, Encode(f)) && len == |Encode(f)|
    requires layers == Layers(cfg, ctx, f, off)
    ensures Run(cfg, st, CallOf(f), off, len).layers == RecordedAll(cfg.layerMax, st.layers, layers)
    decreases f, 2
  {
    var head, inner := Prepare(cfg, st, off, len, ctx, f);
    var o := Step(cfg, st, CallOf(f), off, len);
    var r := if o.Stop? then o.st else Run(cfg, o.st, o.call, o.off, o.len);
    RunIsLeave(cfg, st, CallOf(f), off, len, o, r);
    if Refused(cfg, ctx, f) {
      RefusedStops(cfg, st, off, len, ctx, f, head, inner, o);
    } else {
      StepLeads(cfg, st, off, len, ctx, f, head, inner, o);
      LedOn(cfg, st, off, ctx, f, head, inner, o, r, layers);
    }
  }

  lemma LedOn(cfg: Config, st: State, off: nat, ctx: Context, f: Frame, head: seq<byte>, inner: seq<byte>,
              o: Outcome, r: State, layers: seq<Layer>)
    requires !f.Opaque? && WellFormed(cfg, Under(ctx, f), f.below)
    requires inner == Encode(f.below) && StandsAt(st.data, off + |head|, Carried(f, inner)) && SlotIsTcp(f, inner)
    requires o.Next? ==> Ready(o.st, o.call, o.off, o.len)
    requires Leads(cfg, o, st, off, ctx, f, head, inner)
    requires r == if o.Stop? then o.st else Run(cfg, o.st, o.call, o.off, o.len)
    requires layers == OwnLayer(f, off, |head|) + Layers(cfg, Under(ctx, f), f.below, off + |head|)
    ensures r.layers == RecordedAll(cfg.layerMax, st.layers, layers)
    decreases f, 1
  {
    var rest := Layers(cfg, Under(ctx, f), f.below, off + |head|);
    Restores(st.data, off + |head|, f, inner);
    FollowsOn(cfg, st, off, ctx, f, head, inner, o, r, rest);
    RecordedOwn(cfg.layerMax, st.layers, f, off, |head|, rest);
  }

  lemma RunIsLeave(cfg: Config, st: State, call: Call, off: nat, len: nat, o: Outcome, r: State)
    requires Ready(st, call, off, len) && o == Step(cfg, st, call, off, len)
    requires r == if o.Stop? then o.st else Run(cfg, o.st, o.call, o.off, o.len)
    ensures Run(cfg, st, call, off, len).layers == r.layers
  {
  }

  /** What the next header may rely on. */
  lemma Descend(cfg: Config, st: State, off: nat, ctx: Context, f: Frame,
                head: seq<byte>, inner: seq<byte>, o: Outcome)
    requires !f.Opaque? && !f.below.Opaque?
    requires inner == Encode(f.below) && StandsAt(o.st.data, off + |head|, inner)
    requires Leads(cfg, o, st, off, ctx, f, head, inner) && Ready(o.st, o.call, o.off, o.len)
    ensures Ready(o.st, CallOf(f.below), o.off, o.len)
    ensures StandsAt(o.st.data, o.off, Encode(f.below)) && o.len == |Encode(f.below)|
    ensures f.below.EthF? ==> Under(ctx, f).depth > 0
    ensures f.below.ArpF? || Tracks(o.st, Under(ctx, f), o.off)
  {
  }

  lemma {:induction false} FollowsOn(cfg: Config, st: State, off: nat, ctx: Context, f: Frame, head: seq<byte>,
                                     inner: seq<byte>, o: Outcome, r: State, rest: seq<Layer>)
    requires !f.Opaque? && WellFormed(cfg, Under(ctx, f), f.below)
    requires inner == Encode(f.below) && StandsAt(o.st.data, off + |head|, inner)
    requires o.Next? ==> Ready(o.st, o.call, o.off, o.len)
    requires Leads(cfg, o, st, off, ctx, f, head, inner)
    requires r == if o.Stop? then o.st else Run(cfg, o.st, o.call, o.off, o.len)
    requires rest == Layers(cfg, Under(ctx, f), f.below, off + |head|)
    ensures r.layers == RecordedAll(cfg.layerMax, o.st.layers, rest)
    decreases f, 0
  {
    if f.below.Opaque? {
      OpaqueStops(cfg, o, r);
    } else {
      Descend(cfg, st, off, ctx, f, head, inner, o);
      RunBelow(cfg, o.st, o.off, o.len, Under(ctx, f), f, rest, o.call, r);
    }
  }

  lemma {:induction false} RunBelow(cfg: Config, st: State, off: nat, len: nat, ctx: Context, f: Frame,
                                    layers: seq<Layer>, call: Call, r: State)
    requires !f.Opaque? && !f.below.Opaque? && WellFormed(cfg, ctx, f.below)
    requires (f.below.EthF? ==> ctx.depth > 0) && (f.below.ArpF? || Tracks(st, ctx, off))
    requires Ready(st, call, off, len) && call == CallOf(f.below) && r == Run(cfg, st, call, off, len)
    requires StandsAt(st.data, off, Encode(f.below)) && len == |Encode(f.below)|
    requires layers == Layers(cfg, ctx, f.below, off)
    ensures r.layers == RecordedAll(cfg.layerMax, st.layers, layers)
    decreases f.below, 3
  {
    RunEncoded(cfg, st, off, len, ctx, f.below, layers);
  }

  lemma OpaqueStops(cfg: Config, o: Outcome, r: State)
    requires o.Next? ==> Idle(o) && Ready(o.st, o.call, o.off, o.len)
    requires r == if o.Stop? then o.st else Run(cfg, o.st, o.call, o.off, o.len)
    ensures r.layers == o.st.layers
  {
  }

  /** Decoding an encoded frame records its headers, in order, each with its
      own extent, down to the first that is refused: all of them, or as many as
      the table holds. */
  lemma DecodeEncoded(cfg: Config, f: Frame)
    requires f.EthF? && WellFormed(cfg, Outermost(), f)
    ensures var layers := Layers(cfg, Outermost(), f, 0);
            Decode(cfg, Encode(f)).layers == if |layers| <= cfg.layerMax then layers else layers[..cfg.layerMax]
  {
    var d, st, ctx := Encode(f), Initial(Encode(f)), Outermost();
    StandsAtHead(d, d);
    var head, inner := Prepare(cfg, st, 0, |d|, ctx, f);
    var o := StepEth(cfg, st, 0, |d|);
    EthStep(cfg, st, 0, |d|, ctx, f, head, inner);
    var r := if o.Stop? then o.st else Run(cfg, o.st, o.call, o.off, o.len);
    var layers := Layers(cfg, ctx, f, 0);
    LedOn(cfg, st, 0, ctx, f, head, inner, o, r, layers);
    RunIsLeave(cfg, st, DoEth, 0, |d|, o, r);
    RecordedAllFits(cfg.layerMax, [], layers);
    assert [] + layers == layers;
  }
}
