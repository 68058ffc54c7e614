/** The stacks of headers that the documentation of the decoder shows, and the
    one whose protocol number PPP restores, whatever their fields. */
module DecoderStacks {
  import opened Bytes
  import opened DecoderModel
  import opened Frames
  import DecoderRoundTrip

  function Protos(layers: seq<Layer>): (s: seq<Proto>)
    ensures |s| == |layers|
  {
    if layers == [] then [] else [layers[0].proto] + Protos(layers[1..])
  }

  lemma ProtosCons(l: Layer, rest: seq<Layer>)
    ensures Protos([l] + rest) == [l.proto] + Protos(rest)
  {
    assert ([l] + rest)[1..] == rest;
  }

  /** A header that is recorded, before what it carries: `below` stands in the
      context `next`, at `at`. */
  lemma HeaderFirst(cfg: Config, ctx: Context, f: Frame, off: nat)
    returns (next: Context, at: nat, rest: seq<Proto>)
    requires !f.Opaque? && !Refused(cfg, ctx, f) && !f.EspF? && (f.PppF? ==> f.below.IpF?)
    ensures next == Under(ctx, f) && next.unsure == ctx.unsure
    ensures next.depth == ctx.depth + if f.IpF? then 1 else 0
    ensures rest == Protos(Layers(cfg, next, f.below, at))
    ensures Protos(Layers(cfg, ctx, f, off)) == [ProtoOf(f)] + rest
  {
    var head := |Head(f, |Encode(f.below)|)|;
    next, at := Under(ctx, f), off + head;
    rest := Protos(Layers(cfg, next, f.below, at));
    var own := OwnLayer(f, off, head);
    ProtosCons(own[0], Layers(cfg, next, f.below, at));
    assert own == [own[0]];
  }

  lemma NothingMore(cfg: Config, ctx: Context, f: Frame, off: nat)
    requires f.Opaque? || Refused(cfg, ctx, f)
    ensures Protos(Layers(cfg, ctx, f, off)) == []
  {
  }

  /** Ethernet, IPv4, TCP. */
  predicate IsPacket(f: Frame) {
    f.EthF? && f.below.IpF? && f.below.below.TcpF? && f.below.below.below.Opaque?
  }

  lemma PacketProtos(cfg: Config, ctx: Context, f: Frame, off: nat)
    requires IsPacket(f) && ctx.depth < 2 && !ctx.unsure
    ensures Protos(Layers(cfg, ctx, f, off)) == [Eth, Ip4, Tcp]
  {
    var c1, at1, r1 := HeaderFirst(cfg, ctx, f, off);
    var c2, at2, r2 := HeaderFirst(cfg, c1, f.below, at1);
    var c3, at3, r3 := HeaderFirst(cfg, c2, f.below.below, at2);
    NothingMore(cfg, c3, f.below.below.below, at3);
  }

  /** Ethernet and IPv4, the second in its context. */
  lemma IpFront(cfg: Config, f: Frame) returns (ctx: Context, at: nat, rest: seq<Proto>)
    requires f.EthF? && f.below.IpF?
    ensures ctx.depth == 1 && !ctx.unsure && rest == Protos(Layers(cfg, ctx, f.below.below, at))
    ensures Protos(Layers(cfg, Outermost(), f, 0)) == [Eth, Ip4] + rest
  {
    var c1, at1, r1 := HeaderFirst(cfg, Outermost(), f, 0);
    ctx, at, rest := HeaderFirst(cfg, c1, f.below, at1);
  }

  /** The stack with `inner` behind a GRE header. */
  predicate IsGreStack(f: Frame, inner: Frame) {
    f.EthF? && f.below.IpF? && f.below.below.GreF? && f.below.below.below == inner
  }

  lemma GreFront(cfg: Config, f: Frame, inner: Frame)
    returns (ctx: Context, at: nat, rest: seq<Proto>)
    requires IsGreStack(f, inner)
    ensures ctx.depth == 1 && !ctx.unsure && rest == Protos(Layers(cfg, ctx, inner, at))
    ensures Protos(Layers(cfg, Outermost(), f, 0)) == [Eth, Ip4, Gre] + rest
  {
    var c1, at1, r1 := IpFront(cfg, f);
    ctx, at, rest := HeaderFirst(cfg, c1, f.below.below, at1);
  }

  /** What the layers of a frame say is what decoding it records, if it fits. */
  lemma DecodedProtos(cfg: Config, f: Frame, protos: seq<Proto>)
    requires f.EthF? && WellFormed(cfg, Outermost(), f)
    requires Protos(Layers(cfg, Outermost(), f, 0)) == protos && |protos| <= cfg.layerMax
    ensures Protos(Decode(cfg, Encode(f)).layers) == protos
  {
    DecoderRoundTrip.DecodeEncoded(cfg, f);
  }

  /** A packet inside another, by way of GRE and bridging, is decoded to the
      innermost header. */
  lemma {:induction false} GreStackDecodes(cfg: Config, f: Frame, inner: Frame)
    requires IsGreStack(f, inner) && IsPacket(inner) && WellFormed(cfg, Outermost(), f) && cfg.layerMax >= 6
    ensures Protos(Decode(cfg, Encode(f)).layers) == [Eth, Ip4, Gre, Eth, Ip4, Tcp]
  {
    var ctx, at, rest := GreFront(cfg, f, inner);
    PacketProtos(cfg, ctx, inner, at);
    DecodedProtos(cfg, f, [Eth, Ip4, Gre] + [Eth, Ip4, Tcp]);
  }

  lemma SecondGreProtos(cfg: Config, ctx: Context, f: Frame, off: nat)
    requires f.IpF? && f.below.GreF? && ctx.depth == 1
    ensures Protos(Layers(cfg, ctx, f, off)) == [Ip4]
  {
    var c, at, rest := HeaderFirst(cfg, ctx, f, off);
    NothingMore(cfg, c, f.below, at);
  }

  /** The second GRE header is refused, with all that it carries. */
  lemma DoubleGreDecodes(cfg: Config, f: Frame, inner: Frame)
    requires IsGreStack(f, inner) && inner.IpF? && inner.below.GreF?
    requires WellFormed(cfg, Outermost(), f) && cfg.layerMax >= 4
    ensures Protos(Decode(cfg, Encode(f)).layers) == [Eth, Ip4, Gre, Ip4]
  {
    var ctx, at, rest := GreFront(cfg, f, inner);
    SecondGreProtos(cfg, ctx, inner, at);
    DecodedProtos(cfg, f, [Eth, Ip4, Gre] + [Ip4]);
  }

  /** The third of three IPv4 headers is refused, with all that it carries. */
  lemma {:induction false} TripleIpDecodes(cfg: Config, f: Frame)
    requires f.EthF? && f.below.IpF? && f.below.below.IpF? && f.below.below.below.IpF?
    requires WellFormed(cfg, Outermost(), f) && cfg.layerMax >= 3
    ensures Protos(Decode(cfg, Encode(f)).layers) == [Eth, Ip4, Ip4]
  {
    var c1, at1, r1 := IpFront(cfg, f);
    var c2, at2, r2 := HeaderFirst(cfg, c1, f.below.below, at1);
    NothingMore(cfg, c2, f.below.below.below, at2);
    DecodedProtos(cfg, f, [Eth, Ip4] + [Ip4]);
  }

  /** Ethernet, PPPoE, PPP that announces a slot number, IPv4, TCP. */
  predicate IsSlotStack(f: Frame) {
    && f.EthF? && f.below.PppoeF? && f.below.below.PppF? && f.below.below.slot.Some?
    && f.below.below.below.IpF? && f.below.below.below.below.TcpF? && f.below.below.below.below.below.Opaque?
  }

  lemma SlotProtos(cfg: Config, f: Frame)
    requires IsSlotStack(f)
    ensures Protos(Layers(cfg, Outermost(), f, 0)) == [Eth, Pppoe, PppEncap, Ip4, Tcp]
  {
    var ip := f.below.below.below;
    var c1, at1, r1 := HeaderFirst(cfg, Outermost(), f, 0);
    var c2, at2, r2 := HeaderFirst(cfg, c1, f.below, at1);
    var c3, at3, r3 := HeaderFirst(cfg, c2, f.below.below, at2);
    var c4, at4, r4 := HeaderFirst(cfg, c3, ip, at3);
    var c5, at5, r5 := HeaderFirst(cfg, c4, ip.below, at4);
    NothingMore(cfg, c5, ip.below.below, at5);
  }

  /** A TCP packet that left with a slot number in place of its protocol number
      is decoded to its TCP header all the same, whatever the number. */
  lemma SlotStackDecodes(cfg: Config, f: Frame)
    requires IsSlotStack(f) && WellFormed(cfg, Outermost(), f) && cfg.layerMax >= 5
    ensures Protos(Decode(cfg, Encode(f)).layers) == [Eth, Pppoe, PppEncap, Ip4, Tcp]
  {
    SlotProtos(cfg, f);
    DecodedProtos(cfg, f, [Eth, Pppoe, PppEncap, Ip4, Tcp]);
  }
}
