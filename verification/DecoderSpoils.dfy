/** What writing one octet does to recorded headers: exactly which octets of
    which header the parse depends on. */
module DecoderSpoils {
  import opened Bytes
  import opened DecoderModel
  import opened DecoderLaws
  import opened DecoderParse
  import opened DecoderTrailers
  import GreHeader
  import GtpHeader

  /** Layer `i` is sound, and names the one after it. */
  predicate Stands(cfg: Config, d: seq<byte>, l: Layer, next: Option<Proto>) {
    SoundLayer(d, l) && (next.Some? ==> Names(cfg, d, l, CallFor(next.value)))
  }

  function NextProto(layers: seq<Layer>, i: nat): Option<Proto> {
    if i + 1 < |layers| then Some(layers[i + 1].proto) else None
  }

  /** Layer `i` of these, on its own. */
  predicate StandsAlone(cfg: Config, d: seq<byte>, layers: seq<Layer>, i: nat)
    requires i < |layers|
  {
    Stands(cfg, d, layers[i], NextProto(layers, i))
  }

  lemma ParsedMeans(cfg: Config, d: seq<byte>, layers: seq<Layer>)
    ensures Parsed(cfg, d, layers) <==> forall i :: 0 <= i < |layers| ==> StandsAlone(cfg, d, layers, i)
  {
    if Parsed(cfg, d, layers) {
      forall i | 0 <= i < |layers| ensures StandsAlone(cfg, d, layers, i) {
        ParsedAt(cfg, d, layers, i);
        if i + 1 < |layers| {
          ParsedAt(cfg, d, layers, i + 1);
        }
      }
    }
    if forall i :: 0 <= i < |layers| ==> StandsAlone(cfg, d, layers, i) {
      forall i | 0 <= i < |layers| ensures LayerFits(cfg, d, layers, i) {
        assert StandsAlone(cfg, d, layers, i);
        if i > 0 {
          assert StandsAlone(cfg, d, layers, i - 1);
        }
      }
    }
  }

  /** Does the protocol number of TCP, written at `w`, break this header? The
      type fields matter only when another layer was recorded behind. */
  predicate Broken(cfg: Config, d: seq<byte>, l: Layer, next: Option<Proto>, w: nat)
    requires w < |d|
  {
    var at, n, d' := l.start, l.length, d[w := PROTO_TCP];
    && d[w] != PROTO_TCP
    && at + n <= |d|
    && match l.proto
       case Eth => next.Some? && at + 12 <= w < at + 14
       case Vlan => next.Some? && at + 2 <= w < at + 4
       case Pppoe => false
       case Arp => false
       case PppEncap => (n == 1 && w == at) || (n == 2 && next.Some? && at <= w < at + 2)
       case Ip4 => at + 20 <= |d| && (
         || w == at
         || (w == at + 2 && !(n <= 6 * 256 + d[at + 3] <= |d| - at))
         || (w == at + 3 && !(n <= 256 * d[at + 2] as int + 6 <= |d| - at))
         || (next.Some? && (at + 6 <= w < at + 8 || (w == at + 9 && next != Some(Tcp))))
         || (next.Some? && d[at + 9] == PROTO_ESP && TrailerSpoiled(d, l, next.value, w)))
       case Gre => !IsGre(d'[at..at + n]) || (next.Some? && at + 2 <= w < at + 4)
       case Gtp => !IsGtp(d'[at..at + n]) || (next.Some? && w == at + n)
       case Udp => next.Some? && at + 4 <= |d| && !PortsNameGtp(cfg, Be16(d', at), Be16(d', at + 2))
       case Tcp => w == at + 12
       case Icmp4 => w == at && n != 4
  }

  /** The octet of the ESP trailer is hit, or the total length changes and the
      octet found instead names something else. */
  predicate TrailerSpoiled(d: seq<byte>, l: Layer, next: Proto, w: nat)
    requires w < |d|
  {
    || (w + 13 == l.start + Total(d, l) && !next.Tcp?)
    || ((w == l.start + 2 || w == l.start + 3) && !TrailerNames(d[w := PROTO_TCP], l, CallFor(next)))
  }

  /** A type field with one octet written names none of the decoders it named. */
  lemma TypeSpoiled(hi: byte, lo: byte, call: Call)
    requires EtherNames(hi as int * 256 + lo, call) || GreNames(hi as int * 256 + lo, call)
    requires call.DoIp? || call.DoArp? || call.DoVlan? || call.DoPppoe? || call.DoBridge? || call.DoPpp?
    ensures hi != 6 && !EtherNames(6 * 256 + lo, call) && !GreNames(6 * 256 + lo, call)
    ensures lo != 6 ==> !EtherNames(hi as int * 256 + 6, call) && !GreNames(hi as int * 256 + 6, call)
  {
  }

  lemma LinkKept(cfg: Config, d: seq<byte>, l: Layer, next: Option<Proto>, w: nat, d': seq<byte>)
    requires (l.proto.Eth? || l.proto.Vlan? || l.proto.Pppoe? || l.proto.Arp?) && w < |d| && d' == d[w := PROTO_TCP]
    requires Stands(cfg, d, l, next)
    ensures Stands(cfg, d', l, next) <==> !Broken(cfg, d, l, next, w)
  {
    var t := if l.proto.Eth? then l.start + 12 else l.start + 2;
    if next.Some? && (l.proto.Eth? || l.proto.Vlan?) {
      TypeSpoiled(d[t], d[t + 1], CallFor(next.value));
    }
  }

  lemma PppKept(cfg: Config, d: seq<byte>, l: Layer, next: Option<Proto>, w: nat, d': seq<byte>)
    requires l.proto.PppEncap? && w < |d| && d' == d[w := PROTO_TCP]
    requires Stands(cfg, d, l, next)
    ensures Stands(cfg, d', l, next) <==> !Broken(cfg, d, l, next, w)
  {
  }

  /** Of a datagram that carries ESP. */
  lemma TrailerKept(d: seq<byte>, l: Layer, next: Proto, w: nat, d': seq<byte>)
    requires w < |d| && d' == d[w := PROTO_TCP] && d[w] != PROTO_TCP && l.start + 4 <= |d|
    requires TrailerNames(d, l, CallFor(next))
    ensures TrailerNames(d', l, CallFor(next)) <==> !TrailerSpoiled(d, l, next, w)
  {
  }

  lemma IpSoundKept(d: seq<byte>, l: Layer, w: nat, d': seq<byte>)
    requires l.proto.Ip4? && w < |d| && d' == d[w := PROTO_TCP] && SoundLayer(d, l)
    ensures SoundLayer(d', l) <==>
              d[w] == PROTO_TCP ||
              !(|| w == l.start
                || (w == l.start + 2 && !(l.length <= 6 * 256 + d[l.start + 3] <= |d| - l.start))
                || (w == l.start + 3 && !(l.length <= 256 * d[l.start + 2] as int + 6 <= |d| - l.start)))
  {
  }

  /** The number of ESP still stands, or the number of another protocol, or that
      of TCP was written. */
  lemma IpNamesKept(cfg: Config, d: seq<byte>, l: Layer, next: Proto, w: nat, d': seq<byte>)
    requires l.proto.Ip4? && w < |d| && d' == d[w := PROTO_TCP] && d[w] != PROTO_TCP && l.start + 20 <= |d|
    requires Names(cfg, d, l, CallFor(next))
    ensures Names(cfg, d', l, CallFor(next)) <==>
              !(|| l.start + 6 <= w < l.start + 8
                || (w == l.start + 9 && !next.Tcp?)
                || (d[l.start + 9] == PROTO_ESP && TrailerSpoiled(d, l, next, w)))
  {
    if d[l.start + 9] == PROTO_ESP {
      TrailerKept(d, l, next, w, d');
    }
  }

  lemma IpKept(cfg: Config, d: seq<byte>, l: Layer, next: Option<Proto>, w: nat, d': seq<byte>)
    requires l.proto.Ip4? && w < |d| && d' == d[w := PROTO_TCP]
    requires Stands(cfg, d, l, next)
    ensures Stands(cfg, d', l, next) <==> !Broken(cfg, d, l, next, w)
  {
    if d[w] == PROTO_TCP {
      assert d' == d;
    } else {
      IpSoundKept(d, l, w, d');
      if next.Some? {
        IpNamesKept(cfg, d, l, next.value, w, d');
      }
    }
  }

  lemma GreTypeKept(cfg: Config, d: seq<byte>, l: Layer, call: Call, w: nat, d': seq<byte>)
    requires l.proto.Gre? && w < |d| && d' == d[w := PROTO_TCP] && d[w] != PROTO_TCP && Names(cfg, d, l, call)
    requires call.DoIp? || call.DoArp? || call.DoVlan? || call.DoPppoe? || call.DoBridge? || call.DoPpp?
    ensures Names(cfg, d', l, call) <==> !(l.start + 2 <= w < l.start + 4)
  {
    TypeSpoiled(d[l.start + 2], d[l.start + 3], call);
  }

  lemma GreKept(cfg: Config, d: seq<byte>, l: Layer, next: Option<Proto>, w: nat, d': seq<byte>)
    requires l.proto.Gre? && w < |d| && d' == d[w := PROTO_TCP]
    requires Stands(cfg, d, l, next)
    ensures Stands(cfg, d', l, next) <==> !Broken(cfg, d, l, next, w)
  {
    if d[w] == PROTO_TCP {
      assert d' == d;
    } else if next.Some? {
      GreTypeKept(cfg, d, l, CallFor(next.value), w, d');
    }
  }

  lemma GtpKept(cfg: Config, d: seq<byte>, l: Layer, next: Option<Proto>, w: nat, d': seq<byte>)
    requires l.proto.Gtp? && w < |d| && d' == d[w := PROTO_TCP]
    requires Stands(cfg, d, l, next)
    ensures Stands(cfg, d', l, next) <==> !Broken(cfg, d, l, next, w)
  {
    if d[w] == PROTO_TCP {
      assert d' == d;
    }
  }

  lemma TransportKept(cfg: Config, d: seq<byte>, l: Layer, next: Option<Proto>, w: nat, d': seq<byte>)
    requires (l.proto.Udp? || l.proto.Tcp? || l.proto.Icmp4?) && w < |d| && d' == d[w := PROTO_TCP]
    requires Stands(cfg, d, l, next)
    ensures Stands(cfg, d', l, next) <==> !Broken(cfg, d, l, next, w)
  {
  }

  lemma HeaderKept(cfg: Config, d: seq<byte>, l: Layer, next: Option<Proto>, w: nat, d': seq<byte>)
    requires w < |d| && d' == d[w := PROTO_TCP] && Stands(cfg, d, l, next)
    ensures Stands(cfg, d', l, next) <==> !Broken(cfg, d, l, next, w)
  {
    match l.proto {
      case PppEncap => PppKept(cfg, d, l, next, w, d');
      case Ip4 => IpKept(cfg, d, l, next, w, d');
      case Gre => GreKept(cfg, d, l, next, w, d');
      case Gtp => GtpKept(cfg, d, l, next, w, d');
      case Udp => TransportKept(cfg, d, l, next, w, d');
      case Tcp => TransportKept(cfg, d, l, next, w, d');
      case Icmp4 => TransportKept(cfg, d, l, next, w, d');
      case _ => LinkKept(cfg, d, l, next, w, d');
    }
  }

  /** Does the octet written at `w` break one of the recorded headers? */
  predicate Spoils(cfg: Config, d: seq<byte>, layers: seq<Layer>, w: nat)
    requires w < |d|
  {
    exists i :: 0 <= i < |layers| && Broken(cfg, d, layers[i], NextProto(layers, i), w)
  }

  /** Exactly then the layers are no parse any more. */
  lemma SpoilsIff(cfg: Config, d: seq<byte>, layers: seq<Layer>, w: nat, d': seq<byte>)
    requires w < |d| && d' == d[w := PROTO_TCP] && Parsed(cfg, d, layers)
    ensures Parsed(cfg, d', layers) <==> !Spoils(cfg, d, layers, w)
  {
    ParsedMeans(cfg, d, layers);
    ParsedMeans(cfg, d', layers);
    forall i | 0 <= i < |layers|
      ensures StandsAlone(cfg, d', layers, i) <==> !Broken(cfg, d, layers[i], NextProto(layers, i), w)
    {
      assert StandsAlone(cfg, d, layers, i);
      HeaderKept(cfg, d, layers[i], NextProto(layers, i), w, d');
    }
  }
}
