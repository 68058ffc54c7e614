/** The length of a GRE header, which the header itself does not carry: version
    0 with its optional fields and source route entries (RFC 1701), version 1
    as PPTP uses it (RFC 2637). */
module GreHeader {
  import opened Bytes

  const TYPE_PPP: uint16 := 0x880B

  /** A source route entry; the null entry that closes the list is no `Sre`. */
  datatype Sre = Sre(family: uint16, offset: byte, route: seq<byte>)

  /** A header as its sender means it. `fields` holds the optional four-octet
      fields that the flags announce. */
  datatype Header =
    | V0(checksum: bool, routed: bool, key: bool, sequence: bool, strict: bool,
         proto: uint16, fields: seq<byte>, routes: seq<Sre>, nullOffset: byte)
    | V1(sequence: bool, ack: bool, fields: seq<byte>)

  function Bit(up: bool, weight: byte): byte {
    if up then weight else 0
  }

  predicate WellFormedSre(s: Sre) {
    |s.route| < 256 && !(s.family == 0 && s.route == [])
  }

  predicate RoutesOk(routes: seq<Sre>) {
    routes == [] || (WellFormedSre(routes[0]) && RoutesOk(routes[1..]))
  }

  predicate WellFormed(h: Header) {
    match h
    case V0(c, r, k, s, _, _, fields, routes, _) =>
      && |fields| == (if c || r then 4 else 0) + (if k then 4 else 0) + (if s then 4 else 0)
      && (!r ==> routes == [])
      && RoutesOk(routes)
    case V1(s, a, fields) =>
      |fields| == 4 + (if s then 4 else 0) + (if a then 4 else 0)
  }

  function EncodeSre(s: Sre): (b: seq<byte>)
    ensures |b| == 4 + |s.route|
  {
    Be16Bytes(s.family) + [s.offset, |s.route| % 256] + s.route
  }

  function EncodeRoutes(routes: seq<Sre>, nullOffset: byte): seq<byte> {
    if routes == [] then [0, 0, nullOffset, 0] else EncodeSre(routes[0]) + EncodeRoutes(routes[1..], nullOffset)
  }

  /** Flags, version, protocol, optional fields: all but the route entries. */
  function EncodeFixed(h: Header): (b: seq<byte>)
    ensures |b| == 4 + |h.fields|
  {
    (match h
     case V0(c, r, k, s, ss, proto, _, _, _) =>
       [FlagsV0(c, r, k, s, ss), 0] + Be16Bytes(proto)
     case V1(s, a, _) =>
       [0x20 + Bit(s, 0x10), Bit(a, 0x80) + 1] + Be16Bytes(TYPE_PPP))
    + h.fields
  }

  function Encode(h: Header): seq<byte> {
    EncodeFixed(h) + if h.V0? && h.routed then EncodeRoutes(h.routes, h.nullOffset) else []
  }

  // -------------------------------------------------------- what the walk finds

  /** Where the route entries from `i` on end, if a null entry closes them. */
  function RoutesEnd(w: seq<byte>, i: nat): (r: Option<nat>)
    ensures r.Some? ==> i + 4 <= r.value <= |w|
    decreases |w| - i
  {
    if i + 4 > |w| then None
    else if Be16(w, i) == 0 && w[i + 3] == 0 then Some(i + 4)
    else RoutesEnd(w, i + 4 + w[i + 3])
  }

  /** The length of the version 0 header without its routes. */
  function FixedV0(flags: byte): nat {
    4 + (if HasBit(flags, 0x80) || HasBit(flags, 0x40) then 4 else 0)
      + (if HasBit(flags, 0x20) then 4 else 0)
      + (if HasBit(flags, 0x10) then 4 else 0)
  }

  /** The length of the GRE header at the head of `w`, or nothing when the
      decoder refuses it. */
  function Length(w: seq<byte>): (r: Option<nat>)
    ensures r.Some? ==> 4 <= r.value <= |w|
  {
    if |w| < 4 then None
    else
      var flags, version := w[0], w[1];
      var r :=
        if version % 8 == 0 then
          if flags % 8 != 0 || version / 8 != 0 then None
          else if HasBit(flags, 0x40) then RoutesEnd(w, FixedV0(flags))
          else Some(FixedV0(flags))
        else if version % 8 == 1 then
          if flags / 0x40 != 0 || flags % 0x10 != 0 || version / 8 % 16 != 0 then None
          else if Be16(w, 2) != TYPE_PPP || !HasBit(flags, 0x20) then None
          else Some(8 + (if HasBit(flags, 0x10) then 4 else 0) + (if HasBit(version, 0x80) then 4 else 0))
        else None;
      if r.Some? && r.value <= |w| then r else None
  }

  /** The header walk, pointer and length advancing side by side. */
  method HeaderLength(w: seq<byte>) returns (r: Option<nat>)
    ensures r == Length(w)
  {
    if |w| < 4 {
      return None;
    }
    var flags, version := w[0], w[1];
    var hlen := 4;
    if version % 8 == 0 {
      if flags % 8 != 0 || version / 8 != 0 {
        return None;
      }
      if HasBit(flags, 0x80) || HasBit(flags, 0x40) {
        hlen := hlen + 4;
      }
      if HasBit(flags, 0x20) {
        hlen := hlen + 4;
      }
      if HasBit(flags, 0x10) {
        hlen := hlen + 4;
      }
      if HasBit(flags, 0x40) {
        var srePtr := hlen;
        while true
          invariant srePtr == hlen
          invariant RoutesEnd(w, hlen) == RoutesEnd(w, FixedV0(flags))
          decreases |w| - hlen
        {
          hlen := hlen + 4;
          if hlen > |w| {
            break;
          }
          var family := Be16(w, srePtr);
          srePtr := srePtr + 2;
          srePtr := srePtr + 1;
          var length := w[srePtr];
          srePtr := srePtr + 1;
          if family == 0 && length == 0 {
            break;
          }
          hlen := hlen + length;
          srePtr := srePtr + length;
        }
      }
    } else if version % 8 == 1 {
      if HasBit(flags, 0x80) || HasBit(flags, 0x40) || HasBit(flags, 0x08) || flags % 8 != 0 || version / 8 % 16 != 0 {
        return None;
      }
      if Be16(w, 2) != TYPE_PPP {
        return None;
      }
      if !HasBit(flags, 0x20) {
        return None;
      }
      hlen := hlen + 4;
      if HasBit(flags, 0x10) {
        hlen := hlen + 4;
      }
      if HasBit(version, 0x80) {
        hlen := hlen + 4;
      }
    } else {
      return None;
    }
    if hlen > |w| {
      return None;
    }
    return Some(hlen);
  }

  // ------------------------------------------------------------- what it means

  lemma SreOfEncoded(w: seq<byte>, i: nat, s: Sre)
    requires WellFormedSre(s) && StandsAt(w, i, EncodeSre(s))
    ensures Be16(w, i) == s.family && w[i + 3] == |s.route|
  {
    var b := EncodeSre(s);
    assert b[0] == w[i] && b[1] == w[i + 1] && b[3] == w[i + 3];
    assert b[..2] == Be16Bytes(s.family);
    assert b[0] == b[..2][0] && b[1] == b[..2][1];
  }

  lemma {:induction false} RoutesOfEncoded(w: seq<byte>, i: nat, routes: seq<Sre>, nullOffset: byte)
    requires RoutesOk(routes)
    requires StandsAt(w, i, EncodeRoutes(routes, nullOffset))
    ensures RoutesEnd(w, i) == Some(i + |EncodeRoutes(routes, nullOffset)|)
    decreases |routes|
  {
    if routes == [] {
      var end := [0, 0, nullOffset, 0];
      assert end[0] == w[i] && end[1] == w[i + 1] && end[3] == w[i + 3];
    } else {
      var s, tail := EncodeSre(routes[0]), EncodeRoutes(routes[1..], nullOffset);
      StandsAtConcat(w, i, s, tail);
      SreOfEncoded(w, i, routes[0]);
      RoutesOfEncoded(w, i + |s|, routes[1..], nullOffset);
    }
  }

  function FlagsV0(c: bool, r: bool, k: bool, s: bool, ss: bool): byte {
    Bit(c, 0x80) + Bit(r, 0x40) + Bit(k, 0x20) + Bit(s, 0x10) + Bit(ss, 0x08)
  }

  lemma FlagsReadBack(c: bool, r: bool, k: bool, s: bool, ss: bool)
    ensures var f := FlagsV0(c, r, k, s, ss);
            && HasBit(f, 0x80) == c && HasBit(f, 0x40) == r && HasBit(f, 0x20) == k
            && HasBit(f, 0x10) == s && HasBit(f, 0x08) == ss && f % 8 == 0
  {
  }

  lemma FiveBits(n: nat)
    requires n < 32
    ensures n == 16 * (n / 16 % 2) + 8 * (n / 8 % 2) + 4 * (n / 4 % 2) + 2 * (n / 2 % 2) + n % 2
  {
  }

  lemma FlagsMadeOfBits(f: byte)
    requires f % 8 == 0
    ensures f == FlagsV0(HasBit(f, 0x80), HasBit(f, 0x40), HasBit(f, 0x20), HasBit(f, 0x10), HasBit(f, 0x08))
  {
    var n: nat := f / 8;
    assert f / 0x10 == n / 2 && f / 0x20 == n / 4 && f / 0x40 == n / 8 && f / 0x80 == n / 16;
    FiveBits(n);
  }

  lemma FixedOfEncoded(w: seq<byte>, h: Header)
    requires WellFormed(h) && EncodeFixed(h) <= w
    ensures |w| >= 4 && w[0] == EncodeFixed(h)[0] && w[1] == EncodeFixed(h)[1]
    ensures Be16(w, 2) == if h.V0? then h.proto else TYPE_PPP
  {
    var b := EncodeFixed(h);
    assert forall i :: 0 <= i < |b| ==> b[i] == w[i];
  }

  lemma LengthOfV0(w: seq<byte>, h: Header)
    requires h.V0? && WellFormed(h) && EncodeFixed(h) <= w
    ensures Length(w) == if !h.routed then Some(|EncodeFixed(h)|) else RoutesEnd(w, |EncodeFixed(h)|)
  {
    FixedOfEncoded(w, h);
    FlagsReadBack(h.checksum, h.routed, h.key, h.sequence, h.strict);
    assert w[0] == FlagsV0(h.checksum, h.routed, h.key, h.sequence, h.strict) && w[1] == 0;
    assert FixedV0(w[0]) == |EncodeFixed(h)|;
  }

  lemma LengthOfV1(w: seq<byte>, h: Header)
    requires h.V1? && WellFormed(h) && EncodeFixed(h) <= w
    ensures Length(w) == Some(|EncodeFixed(h)|)
  {
    FixedOfEncoded(w, h);
  }

  lemma LengthOfRouted(w: seq<byte>, h: Header, fixed: seq<byte>, routes: seq<byte>)
    requires h.V0? && h.routed && WellFormed(h)
    requires fixed == EncodeFixed(h) && routes == EncodeRoutes(h.routes, h.nullOffset)
    requires fixed + routes <= w
    ensures RoutesEnd(w, |fixed|) == Some(|fixed| + |routes|)
  {
    StandsAtHead(w, fixed + routes);
    StandsAtConcat(w, 0, fixed, routes);
    RoutesOfEncoded(w, |fixed|, h.routes, h.nullOffset);
  }

  /** On any encoded header with anything behind it, the length is exactly
      that of the encoding. */
  lemma LengthOfEncoded(w: seq<byte>, h: Header)
    requires WellFormed(h) && Encode(h) <= w
    ensures Length(w) == Some(|Encode(h)|)
  {
    var fixed := EncodeFixed(h);
    if h.V1? {
      assert Encode(h) == fixed;
      LengthOfV1(w, h);
    } else if h.routed {
      LengthOfRouted(w, h, fixed, EncodeRoutes(h.routes, h.nullOffset));
      LengthOfV0(w, h);
    } else {
      assert Encode(h) == fixed;
      LengthOfV0(w, h);
    }
  }

  lemma SreStands(w: seq<byte>, i: nat, next: nat, s: Sre)
    requires i + 4 <= next <= |w| && next == i + 4 + w[i + 3]
    requires s == Sre(Be16(w, i), w[i + 2], w[i + 4..next])
    ensures StandsAt(w, i, EncodeSre(s)) && |s.route| < 256
  {
  }

  lemma TypeOfEncoded(w: seq<byte>, h: Header)
    requires WellFormed(h) && Encode(h) <= w
    ensures |Encode(h)| >= 4 && Be16(w, 2) == if h.V0? then h.proto else TYPE_PPP
  {
    FixedOfEncoded(w, h);
  }

  /** Conversely, routes that end were encoded by some list of entries. */
  lemma {:induction false} RoutesDecode(w: seq<byte>, i: nat) returns (routes: seq<Sre>, nullOffset: byte)
    requires RoutesEnd(w, i).Some?
    ensures RoutesOk(routes)
    ensures StandsAt(w, i, EncodeRoutes(routes, nullOffset))
    ensures RoutesEnd(w, i) == Some(i + |EncodeRoutes(routes, nullOffset)|)
    decreases |w| - i
  {
    if Be16(w, i) == 0 && w[i + 3] == 0 {
      routes, nullOffset := [], w[i + 2];
    } else {
      var next := i + 4 + w[i + 3];
      var e := Sre(Be16(w, i), w[i + 2], w[i + 4..next]);
      var tail;
      tail, nullOffset := RoutesDecode(w, next);
      routes := [e] + tail;
      assert routes[1..] == tail;
      SreStands(w, i, next, e);
      StandsAtConcat(w, i, EncodeSre(e), EncodeRoutes(tail, nullOffset));
    }
  }

  lemma DecodeFixedV0(w: seq<byte>) returns (h: Header)
    requires |w| >= 4 && w[0] % 8 == 0 && w[1] == 0 && FixedV0(w[0]) <= |w|
    ensures h.V0? && WellFormed(h) && h.routes == []
    ensures h.routed == HasBit(w[0], 0x40)
    ensures EncodeFixed(h) == w[..FixedV0(w[0])]
  {
    var f, fixed := w[0], FixedV0(w[0]);
    FlagsMadeOfBits(f);
    h := V0(HasBit(f, 0x80), HasBit(f, 0x40), HasBit(f, 0x20), HasBit(f, 0x10), HasBit(f, 0x08),
            Be16(w, 2), w[4..fixed], [], 0);
    assert Be16Bytes(h.proto) == w[2..4];
    assert w[..fixed] == [w[0], w[1]] + w[2..4] + w[4..fixed];
  }

  lemma DecodeV0(w: seq<byte>) returns (h: Header)
    requires Length(w).Some? && w[1] % 8 == 0
    ensures h.V0? && WellFormed(h) && Encode(h) == w[..Length(w).value]
  {
    var fixed := FixedV0(w[0]);
    h := DecodeFixedV0(w);
    if h.routed {
      var routes, nullOffset := RoutesDecode(w, fixed);
      var plain := EncodeFixed(h);
      h := h.(routes := routes, nullOffset := nullOffset);
      assert EncodeFixed(h) == plain;
      StandsAtHead(w, plain);
      StandsAtConcat(w, 0, plain, EncodeRoutes(routes, nullOffset));
      StandsAtHead(w, Encode(h));
    }
  }

  lemma DecodeV1(w: seq<byte>) returns (h: Header)
    requires Length(w).Some? && w[1] % 8 == 1
    ensures h.V1? && WellFormed(h) && Encode(h) == w[..Length(w).value]
  {
    h := V1(HasBit(w[0], 0x10), HasBit(w[1], 0x80), w[4..Length(w).value]);
    assert w[0] == 0x20 + Bit(h.sequence, 0x10);
    assert w[1] == Bit(h.ack, 0x80) + 1;
    assert Be16Bytes(TYPE_PPP) == w[2..4];
    assert EncodeFixed(h) == w[..Length(w).value];
  }

  /** A header that is accepted is the encoding of some well-formed header. */
  lemma LengthDecodes(w: seq<byte>) returns (h: Header)
    requires Length(w).Some?
    ensures WellFormed(h) && Encode(h) == w[..Length(w).value]
  {
    if w[1] % 8 == 0 {
      h := DecodeV0(w);
    } else {
      h := DecodeV1(w);
    }
  }

  /** Octets are a GRE header iff the walk over them ends at their end. */
  lemma EncodedIff(s: seq<byte>)
    ensures (exists h :: WellFormed(h) && Encode(h) == s) <==> Length(s) == Some(|s|)
  {
    if Length(s) == Some(|s|) {
      var h := LengthDecodes(s);
      assert s[..|s|] == s;
    }
    forall h | WellFormed(h) && Encode(h) == s ensures Length(s) == Some(|s|) {
      LengthOfEncoded(s, h);
    }
  }

  /** What is walked over ends its own walk. */
  lemma PrefixIsHeader(w: seq<byte>, end: nat)
    requires Length(w) == Some(end)
    ensures end <= |w| && Length(w[..end]) == Some(end)
  {
    var h := LengthDecodes(w);
    LengthOfEncoded(w[..end], h);
  }
}
