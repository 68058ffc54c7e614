/** What an alert of the fragment detector says about the packets before it,
    over every history and every eviction; and what the header walk finds. */
module FragLaws {
  import opened Bytes
  import opened FragDetector

  /** One packet: when it came, what it amounts to, which keys the table had
      dropped just before, and whether it could not have taken a new one. */
  datatype Event = Event(time: int, probe: Probe, evicted: set<Key>, noMem: bool)

  function TableAfter(timeout: int, h: seq<Event>): map<Key, int> {
    if h == [] then map[]
    else
      var e := h[|h| - 1];
      Judge(TableAfter(timeout, h[..|h| - 1]) - e.evicted, timeout, e.time, e.noMem, e.probe).0
  }

  function VerdictAt(timeout: int, h: seq<Event>, i: nat): Verdict
    requires i < |h|
  {
    var e := h[i];
    Judge(TableAfter(timeout, h[..i]) - e.evicted, timeout, e.time, e.noMem, e.probe).1
  }

  predicate HasKey(e: Event, k: Key) {
    e.probe.Fragment? && e.probe.key == k
  }

  /** A first fragment: offset zero, more to come. */
  predicate Opens(e: Event, k: Key) {
    HasKey(e, k) && !e.probe.displaced && e.probe.more
  }

  /** A last fragment at offset zero, with more than 100 octets left, that comes
      no later than the timeout after `since`. */
  predicate Closes(timeout: int, e: Event, since: int) {
    e.probe.Fragment? && !e.probe.displaced && !e.probe.more && e.probe.left > 100 && e.time - since <= timeout
  }

  /** Since packet `j` the key was not evicted, and every packet of it was such
      a last fragment. */
  ghost predicate QuietSince(timeout: int, h: seq<Event>, k: Key, j: nat)
    requires j < |h|
  {
    forall i :: j < i < |h| ==> k !in h[i].evicted && (HasKey(h[i], k) ==> Closes(timeout, h[i], h[j].time))
  }

  /** Packet `j` opened the key, was taken into the table, and still counts. */
  ghost predicate Live(timeout: int, h: seq<Event>, k: Key, j: nat) {
    && j < |h|
    && Opens(h[j], k)
    && VerdictAt(timeout, h, j) != NoMem
    && QuietSince(timeout, h, k, j)
  }

  lemma LivePrefix(timeout: int, h: seq<Event>, k: Key, j: nat)
    requires h != [] && j < |h| - 1
    ensures var last := |h| - 1;
            Live(timeout, h, k, j) <==>
              && Live(timeout, h[..last], k, j)
              && k !in h[last].evicted
              && (HasKey(h[last], k) ==> Closes(timeout, h[last], h[j].time))
  {
    assert h[..|h| - 1][..j] == h[..j];
  }

  /** A live entry is in the table, with the time of the packet that opened it. */
  lemma {:induction false} LiveIsStored(timeout: int, h: seq<Event>, k: Key, j: nat)
    requires Live(timeout, h, k, j)
    ensures k in TableAfter(timeout, h) && TableAfter(timeout, h)[k] == h[j].time
    decreases |h|
  {
    var last := |h| - 1;
    if j < last {
      LivePrefix(timeout, h, k, j);
      LiveIsStored(timeout, h[..last], k, j);
    }
  }

  /** And every entry of the table is live. */
  lemma {:induction false} StoredIsLive(timeout: int, h: seq<Event>, k: Key) returns (j: nat)
    requires k in TableAfter(timeout, h)
    ensures Live(timeout, h, k, j) && TableAfter(timeout, h)[k] == h[j].time
    decreases |h|
  {
    var last := |h| - 1;
    if Opens(h[last], k) {
      j := last;
    } else {
      j := StoredIsLive(timeout, h[..last], k);
      LivePrefix(timeout, h, k, j);
    }
  }

  /** A packet that opens a key is not taken in iff the table has no memory for
      it and the key is not live any more. */
  lemma RefusedIff(timeout: int, h: seq<Event>, k: Key, n: nat)
    requires n < |h| && Opens(h[n], k)
    ensures VerdictAt(timeout, h, n) == NoMem <==>
              h[n].noMem && (k in h[n].evicted || !exists j :: 0 <= j < n && Live(timeout, h[..n], k, j))
  {
    var before := h[..n];
    if k in TableAfter(timeout, before) {
      var j := StoredIsLive(timeout, before, k);
      assert 0 <= j < n;
    }
    forall j | 0 <= j < n && Live(timeout, before, k, j) ensures k in TableAfter(timeout, before) {
      LiveIsStored(timeout, before, k, j);
    }
  }

  /** A packet draws an alert iff some earlier packet opened its key and was
      taken into the table, this one is a last fragment at offset zero with more
      than 100 octets left and within the timeout of that one, and so was every
      packet of the key between them; and the key was never evicted meanwhile. */
  lemma AlertIff(timeout: int, h: seq<Event>, n: nat)
    requires n < |h|
    ensures VerdictAt(timeout, h, n) == Alert <==>
              && h[n].probe.Fragment?
              && h[n].probe.key !in h[n].evicted
              && exists j :: 0 <= j < n && Live(timeout, h[..n], h[n].probe.key, j) && Closes(timeout, h[n], h[j].time)
  {
    var before, p := h[..n], h[n].probe;
    if p.Fragment? {
      if p.key in TableAfter(timeout, before) {
        var j := StoredIsLive(timeout, before, p.key);
        assert before[j] == h[j];
      }
      forall j | 0 <= j < n && Live(timeout, before, p.key, j)
        ensures p.key in TableAfter(timeout, before) && TableAfter(timeout, before)[p.key] == h[j].time
      {
        LiveIsStored(timeout, before, p.key, j);
      }
    }
  }

  // ----------------------------------------------------- the detector at work

  /** A captured packet, and what the table did before it came. */
  datatype Capture = Capture(data: seq<byte>, time: int, evicted: set<Key>, noMem: bool)

  function Events(captures: seq<Capture>): (h: seq<Event>)
    ensures |h| == |captures|
  {
    seq(|captures|, i requires 0 <= i < |captures| =>
      var c := captures[i]; Event(c.time, Classify(c.data, 0), c.evicted, c.noMem))
  }

  /** One detector over all captured packets: the verdicts are those of the history. */
  method Watch(timeout: int, captures: seq<Capture>) returns (verdicts: seq<Verdict>)
    ensures |verdicts| == |captures|
    ensures forall i :: 0 <= i < |captures| ==> verdicts[i] == VerdictAt(timeout, Events(captures), i)
  {
    var detector := new Detector(timeout);
    ghost var h := Events(captures);
    verdicts := [];
    while |verdicts| < |captures|
      invariant |verdicts| <= |captures|
      invariant detector.timeout == timeout && detector.table == TableAfter(timeout, h[..|verdicts|])
      invariant forall i :: 0 <= i < |verdicts| ==> verdicts[i] == VerdictAt(timeout, h, i)
    {
      var c := captures[|verdicts|];
      assert h[..|verdicts| + 1][..|verdicts|] == h[..|verdicts|];
      detector.Evict(c.evicted);
      var v := detector.CheckIPV6Frag(c.data, 0, c.time, c.noMem);
      verdicts := verdicts + [v];
    }
  }

  // ------------------------------------------------------------- the header walk

  /** An extension header the walk skips. */
  datatype Extension = Extension(kind: byte, content: seq<byte>)

  /** A packet as its sender means it: addresses, extension headers, and either
      a fragment header or another IPv6 packet inside. */
  datatype Packet =
    | Fragmented(addresses: seq<byte>, exts: seq<Extension>, ident: seq<byte>, offlg: uint16, rest: seq<byte>)
    | Tunnel(addresses: seq<byte>, exts: seq<Extension>, inner: Packet)

  predicate ExtensionsOk(exts: seq<Extension>) {
    exts == [] ||
    var n := |exts[0].content|;
    Skippable(exts[0].kind) && n % 8 == 6 && n <= 2046 && ExtensionsOk(exts[1..])
  }

  predicate WellFormed(p: Packet) {
    && |p.addresses| == 32
    && ExtensionsOk(p.exts)
    && |EncodeBody(p)| < 0x1_0000
    && (if p.Tunnel? then WellFormed(p.inner) else |p.ident| == 4)
  }

  function FirstKind(exts: seq<Extension>, last: byte): byte {
    if exts == [] then last else exts[0].kind
  }

  /** Next type, length in units of eight octets beyond the first, content. */
  function EncodeExt(content: seq<byte>, next: byte): (b: seq<byte>)
    ensures |b| == |content| + 2
  {
    [next, |content| / 8 % 256] + content
  }

  function EncodeExts(exts: seq<Extension>, last: byte): seq<byte> {
    if exts == [] then []
    else EncodeExt(exts[0].content, FirstKind(exts[1..], last)) + EncodeExts(exts[1..], last)
  }

  function Last(p: Packet): byte {
    if p.Tunnel? then IPV6 else FRAGMENT
  }

  /** The fragment header and what follows, or the packet inside. */
  function EncodeEnd(p: Packet): seq<byte>
    decreases p, 0
  {
    match p
    case Fragmented(_, _, ident, offlg, rest) => [0, 0] + Be16Bytes(offlg) + ident + rest
    case Tunnel(_, _, inner) => EncodePacket(inner)
  }

  function EncodeBody(p: Packet): seq<byte>
    decreases p, 1
  {
    EncodeExts(p.exts, Last(p)) + EncodeEnd(p)
  }

  function EncodeHeader(p: Packet): (b: seq<byte>)
    requires |p.addresses| == 32
    ensures |b| == HDR_LEN
    decreases p, 2
  {
    [0x60, 0, 0, 0] + Be16Bytes(|EncodeBody(p)| % 0x1_0000) + [FirstKind(p.exts, Last(p)), 64] + p.addresses
  }

  function EncodePacket(p: Packet): seq<byte>
    decreases p, 3
  {
    if |p.addresses| == 32 then EncodeHeader(p) + EncodeBody(p) else []
  }

  /** The innermost fragment header is the one that counts, with the addresses
      of its own packet. All octets up to the end of the data count as left, the
      `padding` behind the packet too. */
  function Meant(p: Packet, padding: nat): Probe {
    match p
    case Fragmented(addresses, _, ident, offlg, rest) =>
      Fragment(addresses + ident, offlg / 8 != 0, offlg % 2 == 1, 8 + |rest| + padding)
    case Tunnel(_, _, inner) => Meant(inner, padding)
  }

  lemma SkipOne(d: seq<byte>, at: nat, e: Extension, next: byte)
    requires Skippable(e.kind) && |e.content| % 8 == 6 && |e.content| <= 2046
    requires StandsAt(d, at, EncodeExt(e.content, next))
    ensures Skip(d, at, e.kind) == Skip(d, at + |e.content| + 2, next)
  {
    assert d[at] == EncodeExt(e.content, next)[0] && d[at + 1] == EncodeExt(e.content, next)[1];
    assert 8 + 8 * d[at + 1] as int == |e.content| + 2;
  }

  lemma {:induction false} SkipExts(d: seq<byte>, at: nat, exts: seq<Extension>, last: byte)
    requires ExtensionsOk(exts) && StandsAt(d, at, EncodeExts(exts, last))
    ensures Skip(d, at, FirstKind(exts, last)) == Skip(d, at + |EncodeExts(exts, last)|, last)
    decreases |exts|
  {
    if exts != [] {
      var e, tail := exts[0], exts[1..];
      StandsAtConcat(d, at, EncodeExt(e.content, FirstKind(tail, last)), EncodeExts(tail, last));
      SkipOne(d, at, e, FirstKind(tail, last));
      SkipExts(d, at + |e.content| + 2, tail, last);
    }
  }

  /** The outer part of an encoded packet leads to its end. */
  lemma OuterReads(d: seq<byte>, base: nat, p: Packet, body: seq<byte>, end: seq<byte>, padding: nat)
    returns (at: nat)
    requires |p.addresses| == 32 && ExtensionsOk(p.exts)
    requires body == EncodeBody(p) && |body| < 0x1_0000 && end == EncodeEnd(p)
    requires StandsAt(d, base, EncodeHeader(p)) && StandsAt(d, base + HDR_LEN, body)
    requires base + HDR_LEN + |body| + padding == |d|
    ensures base + HDR_LEN <= at && StandsAt(d, at, end) && at + |end| + padding == |d|
    ensures d[base + 8..base + 40] == p.addresses
    ensures |d| - base >= HDR_LEN + Be16(d, base + 4) && d[base] / 16 == 6
    ensures Skip(d, base + HDR_LEN, d[base + 6]) == Skip(d, at, Last(p))
  {
    var exts := EncodeExts(p.exts, Last(p));
    HeaderReads(d, base, p);
    StandsAtConcat(d, base + HDR_LEN, exts, end);
    SkipExts(d, base + HDR_LEN, p.exts, Last(p));
    at := base + HDR_LEN + |exts|;
  }

  /** On every encoded packet, however deep the tunnels, however long the chains
      and whatever stands behind it, the walk finds the fragment header the
      sender put there. */
  lemma {:induction false} ClassifyEncoded(d: seq<byte>, base: nat, p: Packet, padding: nat)
    requires WellFormed(p)
    requires StandsAt(d, base, EncodePacket(p)) && base + |EncodePacket(p)| + padding == |d|
    ensures Classify(d, base) == Meant(p, padding)
    decreases p
  {
    StandsAtConcat(d, base, EncodeHeader(p), EncodeBody(p));
    var at := OuterReads(d, base, p, EncodeBody(p), EncodeEnd(p), padding);
    EndNotEmpty(p);
    if p.Tunnel? {
      ClassifyEncoded(d, at, p.inner, padding);
    } else {
      FragmentReads(d, base, at, p, padding);
    }
  }

  lemma EndNotEmpty(p: Packet)
    requires WellFormed(p)
    ensures |EncodeEnd(p)| > 0
  {
  }

  lemma HeaderReads(d: seq<byte>, base: nat, p: Packet)
    requires |p.addresses| == 32 && |EncodeBody(p)| < 0x1_0000
    requires StandsAt(d, base, EncodeHeader(p))
    ensures d[base] == 0x60 && Be16(d, base + 4) == |EncodeBody(p)| && d[base + 6] == FirstKind(p.exts, Last(p))
    ensures d[base + 8..base + 40] == p.addresses
  {
    var h := EncodeHeader(p);
    assert h[0] == d[base] && h[6] == d[base + 6];
    assert h[4..6] == Be16Bytes(|EncodeBody(p)|) && h[8..] == p.addresses;
    assert h[4] == h[4..6][0] && h[5] == h[4..6][1];
    assert d[base + 8..base + 40] == d[base..base + HDR_LEN][8..];
  }

  lemma FragmentReads(d: seq<byte>, base: nat, at: nat, p: Packet, padding: nat)
    requires p.Fragmented? && |p.ident| == 4 && base + HDR_LEN <= at
    requires StandsAt(d, at, EncodeEnd(p)) && at + |EncodeEnd(p)| + padding == |d|
    requires d[base + 8..base + 40] == p.addresses
    ensures FragmentAt(d, base, at) == Meant(p, padding)
  {
    var f := EncodeEnd(p);
    assert f[2..4] == Be16Bytes(p.offlg) && f[4..8] == p.ident;
    assert f[2] == f[2..4][0] && f[3] == f[2..4][1];
    StandsAtSlice(d, at, f);
    assert d[at + 4..at + 8] == d[at..at + |f|][4..8];
  }
}
