/** The length of a GTP header: version 0, version 1 plain, and version 1 with
    its optional fields and extension header chain (3GPP TS 29.060, section 6). */
module GtpHeader {
  import opened Bytes

  const MIN_LEN := 8
  const V0_LEN := 20
  const V1_LEN := 12
  const PDU: byte := 255

  /** An extension header of a non-zero type; its size is a multiple of four. */
  datatype Extension = Extension(kind: byte, content: seq<byte>)

  /** A header as its sender means it. `flags` are the E, S and PN bits and the
      spare one above them. */
  datatype Header =
    | V0(low: byte, fields: seq<byte>)
    | V1Plain(spare: bool, teid: seq<byte>)
    | V1(flags: byte, teid: seq<byte>, sequence: seq<byte>, exts: seq<Extension>)

  predicate ExtensionOk(e: Extension) {
    e.kind != 0 && |e.content| % 4 == 2 && |e.content| <= 1018
  }

  predicate ExtensionsOk(exts: seq<Extension>) {
    exts == [] || (ExtensionOk(exts[0]) && ExtensionsOk(exts[1..]))
  }

  predicate WellFormed(h: Header) {
    match h
    case V0(low, fields) => low < 16 && |fields| == 16
    case V1Plain(_, teid) => |teid| == 4
    case V1(flags, teid, sequence, exts) =>
      flags < 16 && flags % 8 != 0 && |teid| == 4 && |sequence| == 3 && ExtensionsOk(exts)
  }

  /** The type octet that announces the first of `exts`, zero for none. */
  function FirstKind(exts: seq<Extension>): byte {
    if exts == [] then 0 else exts[0].kind
  }

  /** One extension header: its size in units of four octets, its content, and
      the type of the one after it. */
  function EncodeExt(content: seq<byte>, next: byte): (b: seq<byte>)
    ensures |b| == |content| + 2
  {
    [(|content| + 2) / 4 % 256] + content + [next]
  }

  function EncodeExts(exts: seq<Extension>): seq<byte> {
    if exts == [] then []
    else EncodeExt(exts[0].content, FirstKind(exts[1..])) + EncodeExts(exts[1..])
  }

  /** Version, protocol type and flags. */
  function FirstOctet(h: Header): byte {
    match h
    case V0(low, _) => 0x10 + low % 16
    case V1Plain(spare, _) => 0x30 + if spare then 8 else 0
    case V1(flags, _, _, _) => 0x30 + flags % 16
  }

  /** The header, with the length field `length`. */
  function Encode(h: Header, length: uint16): (b: seq<byte>)
    ensures |b| >= 4
  {
    [FirstOctet(h), PDU] + Be16Bytes(length) +
    match h
    case V0(_, fields) => fields
    case V1Plain(_, teid) => teid
    case V1(_, teid, sequence, exts) => teid + sequence + [FirstKind(exts)] + EncodeExts(exts)
  }

  /** The octets the length field does not count. */
  function Uncounted(h: Header): nat {
    if h.V0? then V0_LEN else MIN_LEN
  }

  // -------------------------------------------------------- what the walk finds

  /** Where the extension chain ends whose next type octet is at `i - 1`. */
  function ChainEnd(w: seq<byte>, i: nat): (r: Option<nat>)
    requires 0 < i <= |w|
    ensures r.Some? ==> i <= r.value <= |w|
    decreases |w| - i
  {
    if w[i - 1] == 0 then Some(i)
    else if i + 4 > |w| || w[i] == 0 || i + 4 * w[i] as int > |w| then None
    else ChainEnd(w, i + 4 * w[i] as int)
  }

  /** The length of the GTP header at the head of `w`, or nothing when the
      decoder refuses it. */
  function Length(w: seq<byte>): (r: Option<nat>)
    ensures r.Some? ==> MIN_LEN <= r.value <= |w|
  {
    if |w| < MIN_LEN || w[1] != PDU || !HasBit(w[0], 0x10) then None
    else if w[0] / 32 == 0 then
      if |w| < V0_LEN || |w| != Be16(w, 2) + V0_LEN then None else Some(V0_LEN)
    else if w[0] / 32 == 1 then
      var end :=
        if w[0] % 8 == 0 then Some(MIN_LEN)
        else if |w| < V1_LEN then None
        else ChainEnd(w, V1_LEN);
      if |w| != Be16(w, 2) + MIN_LEN then None else end
    else None
  }

  method HeaderLength(w: seq<byte>) returns (r: Option<nat>)
    ensures r == Length(w)
  {
    if |w| < MIN_LEN {
      return None;
    }
    if w[1] != PDU {
      return None;
    }
    if !HasBit(w[0], 0x10) {
      return None;
    }
    var headerLen;
    var version := w[0] / 32;
    if version == 0 {
      headerLen := V0_LEN;
      if |w| < headerLen {
        return None;
      }
      if |w| != Be16(w, 2) + headerLen {
        return None;
      }
    } else if version == 1 {
      if w[0] % 8 != 0 {
        headerLen := V1_LEN;
        if |w| < headerLen {
          return None;
        }
        var nextHdrType := w[headerLen - 1];
        while nextHdrType != 0
          invariant V1_LEN <= headerLen <= |w|
          invariant nextHdrType == w[headerLen - 1]
          invariant ChainEnd(w, headerLen) == ChainEnd(w, V1_LEN)
          decreases |w| - headerLen
        {
          if |w| < headerLen + 4 {
            return None;
          }
          var extHdrLen := w[headerLen];
          if extHdrLen == 0 {
            return None;
          }
          headerLen := headerLen + extHdrLen as int * 4;
          if |w| < headerLen {
            return None;
          }
          nextHdrType := w[headerLen - 1];
        }
      } else {
        headerLen := MIN_LEN;
      }
      if |w| != Be16(w, 2) + MIN_LEN {
        return None;
      }
    } else {
      return None;
    }
    return Some(headerLen);
  }

  // ------------------------------------------------------------- what it means

  lemma ExtOfEncoded(w: seq<byte>, i: nat, content: seq<byte>, next: byte)
    requires |content| % 4 == 2 && |content| <= 1018
    requires StandsAt(w, i, EncodeExt(content, next))
    ensures 4 * w[i] as int == |content| + 2 && w[i + |content| + 1] == next
  {
    var b := EncodeExt(content, next);
    assert b[0] == w[i] && b[|b| - 1] == w[i + (|b| - 1)];
  }

  lemma {:induction false} ChainOfEncoded(w: seq<byte>, i: nat, exts: seq<Extension>)
    requires 0 < i <= |w| && ExtensionsOk(exts)
    requires w[i - 1] == FirstKind(exts)
    requires StandsAt(w, i, EncodeExts(exts))
    ensures ChainEnd(w, i) == Some(i + |EncodeExts(exts)|)
    decreases |exts|
  {
    if exts != [] {
      var c, tail := exts[0].content, exts[1..];
      StandsAtConcat(w, i, EncodeExt(c, FirstKind(tail)), EncodeExts(tail));
      ExtOfEncoded(w, i, c, FirstKind(tail));
      ChainOfEncoded(w, i + |c| + 2, tail);
    }
  }

  lemma FirstOctetReads(h: Header)
    requires WellFormed(h)
    ensures HasBit(FirstOctet(h), 0x10)
    ensures FirstOctet(h) / 32 == if h.V0? then 0 else 1
    ensures !h.V0? ==> (FirstOctet(h) % 8 == 0 <==> h.V1Plain?)
  {
  }

  /** Where the extension headers would start, or the header ends without any. */
  function FixedLength(h: Header): nat {
    match h
    case V0(_, _) => V0_LEN
    case V1Plain(_, _) => MIN_LEN
    case V1(_, _, _, _) => V1_LEN
  }

  function EncodedLength(h: Header): nat {
    FixedLength(h) + if h.V1? then |EncodeExts(h.exts)| else 0
  }

  lemma HeadOfEncoded(w: seq<byte>, h: Header, length: uint16)
    requires WellFormed(h) && Encode(h, length) <= w
    ensures |Encode(h, length)| == EncodedLength(h)
    ensures w[0] == FirstOctet(h) && w[1] == PDU && Be16(w, 2) == length
    ensures h.V1? ==> w[V1_LEN - 1] == FirstKind(h.exts) && StandsAt(w, V1_LEN, EncodeExts(h.exts))
  {
    var b := Encode(h, length);
    assert forall i :: 0 <= i < |b| ==> b[i] == w[i];
    assert b[2] == Be16Bytes(length)[0] && b[3] == Be16Bytes(length)[1];
    if h.V1? {
      var fixed := b[..V1_LEN];
      assert b == fixed + EncodeExts(h.exts);
      StandsAtHead(w, b);
      StandsAtConcat(w, 0, fixed, EncodeExts(h.exts));
    }
  }

  lemma LengthOfAnyField(h: Header, length: uint16, length': uint16)
    ensures |Encode(h, length)| == |Encode(h, length')|
  {
  }

  lemma LengthOfHead(w: seq<byte>, h: Header)
    requires WellFormed(h) && |w| >= FixedLength(h) && w[0] == FirstOctet(h) && w[1] == PDU
    requires |w| == Be16(w, 2) + Uncounted(h)
    requires h.V1? ==> w[V1_LEN - 1] == FirstKind(h.exts) && StandsAt(w, V1_LEN, EncodeExts(h.exts))
    ensures Length(w) == Some(EncodedLength(h))
  {
    FirstOctetReads(h);
    if h.V1? {
      ChainOfEncoded(w, V1_LEN, h.exts);
    }
  }

  /** On any encoded header whose length field counts everything behind it,
      the walk finds exactly the length of the header. */
  lemma LengthOfEncoded(w: seq<byte>, h: Header, length: uint16)
    requires WellFormed(h) && Encode(h, length) <= w
    requires |w| == length + Uncounted(h)
    ensures Length(w) == Some(|Encode(h, length)|)
  {
    HeadOfEncoded(w, h, length);
    LengthOfHead(w, h);
  }

  /** Conversely, a chain that ends was encoded by some list of extensions. */
  lemma {:induction false} ChainDecodes(w: seq<byte>, i: nat) returns (exts: seq<Extension>)
    requires 0 < i <= |w| && ChainEnd(w, i).Some?
    ensures ExtensionsOk(exts) && w[i - 1] == FirstKind(exts)
    ensures StandsAt(w, i, EncodeExts(exts)) && ChainEnd(w, i) == Some(i + |EncodeExts(exts)|)
    decreases |w| - i
  {
    exts := [];
    if w[i - 1] != 0 {
      var next := i + 4 * w[i] as int;
      var e := Extension(w[i - 1], w[i + 1..next - 1]);
      var tail := ChainDecodes(w, next);
      exts := [e] + tail;
      assert exts[1..] == tail;
      ExtStands(w, i, next, e.content);
      StandsAtConcat(w, i, EncodeExt(e.content, FirstKind(tail)), EncodeExts(tail));
    }
  }

  lemma ExtStands(w: seq<byte>, i: nat, next: nat, content: seq<byte>)
    requires i + 4 <= next <= |w| && next == i + 4 * w[i] as int && content == w[i + 1..next - 1]
    ensures |content| % 4 == 2 && |content| <= 1018
    ensures StandsAt(w, i, EncodeExt(content, w[next - 1]))
  {
  }

  lemma FirstOctetDecodes(b: byte)
    requires HasBit(b, 0x10)
    ensures b / 32 == 0 ==> b == 0x10 + b % 16
    ensures b / 32 == 1 ==> b == 0x30 + b % 16
    ensures b / 32 == 1 && b % 8 == 0 ==> b == 0x30 + if HasBit(b, 8) then 8 else 0
    ensures b % 16 % 8 == b % 8
  {
  }

  /** Where the header that starts `w` ends, whatever its length field says. */
  function HeaderEnd(w: seq<byte>): (r: Option<nat>)
    ensures r.Some? ==> MIN_LEN <= r.value <= |w|
  {
    if |w| < MIN_LEN || w[1] != PDU || !HasBit(w[0], 0x10) then None
    else if w[0] / 32 == 0 then if |w| < V0_LEN then None else Some(V0_LEN)
    else if w[0] / 32 != 1 then None
    else if w[0] % 8 == 0 then Some(MIN_LEN)
    else if |w| < V1_LEN then None
    else ChainEnd(w, V1_LEN)
  }

  lemma LengthIsEnd(w: seq<byte>)
    requires Length(w).Some?
    ensures HeaderEnd(w) == Length(w) && |w| == Be16(w, 2) + if w[0] / 32 == 0 then V0_LEN else MIN_LEN
  {
  }

  lemma PlainDecodes(w: seq<byte>, end: nat) returns (h: Header)
    requires HeaderEnd(w) == Some(end) && (w[0] / 32 == 0 || w[0] % 8 == 0)
    ensures WellFormed(h) && !h.V1? && (h.V0? <==> w[0] / 32 == 0)
    ensures Encode(h, Be16(w, 2)) == w[..end]
  {
    var length := Be16(w, 2);
    assert [w[0], PDU] + Be16Bytes(length) == w[..4];
    FirstOctetDecodes(w[0]);
    if w[0] / 32 == 0 {
      h := V0(w[0] % 16, w[4..V0_LEN]);
      assert Encode(h, length) == w[..V0_LEN];
    } else {
      h := V1Plain(HasBit(w[0], 8), w[4..MIN_LEN]);
      assert Encode(h, length) == w[..MIN_LEN];
    }
  }

  lemma ChainedDecodes(w: seq<byte>, end: nat) returns (h: Header)
    requires HeaderEnd(w) == Some(end) && w[0] / 32 == 1 && w[0] % 8 != 0
    ensures WellFormed(h) && h.V1? && Encode(h, Be16(w, 2)) == w[..end]
  {
    assert [w[0], PDU] + Be16Bytes(Be16(w, 2)) == w[..4];
    FirstOctetDecodes(w[0]);
    var exts := ChainDecodes(w, V1_LEN);
    h := V1(w[0] % 16, w[4..8], w[8..11], exts);
    StandsAtSlice(w, V1_LEN, EncodeExts(exts));
    var fixed := w[4..8] + w[8..11] + [w[11]];
    assert fixed == w[4..V1_LEN];
    assert w[..end] == w[..4] + (w[4..V1_LEN] + w[V1_LEN..end]);
  }

  lemma EndDecodes(w: seq<byte>, end: nat) returns (h: Header)
    requires HeaderEnd(w) == Some(end)
    ensures WellFormed(h) && (h.V0? <==> w[0] / 32 == 0) && Encode(h, Be16(w, 2)) == w[..end]
  {
    if w[0] / 32 == 0 || w[0] % 8 == 0 {
      h := PlainDecodes(w, end);
    } else {
      h := ChainedDecodes(w, end);
    }
  }

  /** A header that is accepted is the encoding of some well-formed header whose
      length field counts everything behind it. */
  lemma LengthDecodes(w: seq<byte>) returns (h: Header)
    requires Length(w).Some?
    ensures WellFormed(h) && |w| == Be16(w, 2) + Uncounted(h)
    ensures Encode(h, Be16(w, 2)) == w[..Length(w).value]
  {
    LengthIsEnd(w);
    h := EndDecodes(w, Length(w).value);
  }

  lemma EndOfHead(w: seq<byte>, h: Header)
    requires WellFormed(h) && |w| >= FixedLength(h) && w[0] == FirstOctet(h) && w[1] == PDU
    requires h.V1? ==> w[V1_LEN - 1] == FirstKind(h.exts) && StandsAt(w, V1_LEN, EncodeExts(h.exts))
    ensures HeaderEnd(w) == Some(EncodedLength(h))
  {
    FirstOctetReads(h);
    if h.V1? {
      ChainOfEncoded(w, V1_LEN, h.exts);
    }
  }

  lemma EndOfEncoded(s: seq<byte>, h: Header, length: uint16)
    requires WellFormed(h) && Encode(h, length) == s
    ensures HeaderEnd(s) == Some(|s|)
  {
    HeadOfEncoded(s, h, length);
    EndOfHead(s, h);
  }

  /** Octets are a GTP header, of any length field, iff the walk over them ends
      at their end. */
  lemma EncodedIff(s: seq<byte>)
    ensures (exists h, length :: WellFormed(h) && Encode(h, length) == s) <==> HeaderEnd(s) == Some(|s|)
  {
    if HeaderEnd(s) == Some(|s|) {
      var h := EndDecodes(s, |s|);
      assert s[..|s|] == s;
    }
    forall h, length | WellFormed(h) && Encode(h, length) == s ensures HeaderEnd(s) == Some(|s|) {
      EndOfEncoded(s, h, length);
    }
  }

  /** What is walked over ends its own walk. */
  lemma PrefixIsHeader(w: seq<byte>, end: nat)
    requires HeaderEnd(w) == Some(end)
    ensures end <= |w| && HeaderEnd(w[..end]) == Some(end)
  {
    var h := EndDecodes(w, end);
    EndOfEncoded(w[..end], h, Be16(w, 2));
  }
}
