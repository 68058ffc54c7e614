/** Transport headers right inside ESP. Their checksum is summed with the
    protocol number of the IPv4 header, which there is that of ESP. */
module EspChecksums {
  import opened Bytes
  import opened Checksum
  import opened ChecksumLaws
  import opened DecoderModel
  import opened DecoderLaws
  import opened DecoderOrder

  /** A pseudo-header with the protocol number `proto`, and the segment. */
  function Summed(addresses: seq<byte>, proto: byte, length: uint16, segment: seq<byte>): seq<byte> {
    addresses + [0, proto] + Be16Bytes(length) + segment
  }

  lemma ProtocolWord(e: Endian, addresses: seq<byte>, proto: byte, length: uint16, segment: seq<byte>)
    requires |addresses| == 8
    ensures |Words(e, Summed(addresses, proto, length, segment))| > 4
    ensures Words(e, Summed(addresses, proto, length, segment))[4] == Word(e, 0, proto)
  {
    var d := Summed(addresses, proto, length, segment);
    WordAt(e, d, 4);
    assert d[8] == 0 && d[9] == proto;
  }

  lemma {:induction false} WordAt(e: Endian, d: seq<byte>, k: nat)
    requires 2 * k + 1 < |d|
    ensures Words(e, d)[k] == Word(e, d[2 * k], d[2 * k + 1])
  {
    if k > 0 {
      WordAt(e, d[2..], k - 1);
    }
  }

  /** Two protocol numbers never give the same checksum. */
  lemma ProtocolCounts(e: Endian, addresses: seq<byte>, p: byte, q: byte, length: uint16,
                       segment: seq<byte>)
    requires |addresses| == 8 && p != q
    ensures Rfc1071(e, Summed(addresses, p, length, segment)) != Rfc1071(e, Summed(addresses, q, length, segment))
  {
    var d, d' := Summed(addresses, p, length, segment), Summed(addresses, q, length, segment);
    var v := Word(e, 0, q);
    ProtocolWord(e, addresses, p, length, segment);
    ProtocolWord(e, addresses, q, length, segment);
    StoredWords(e, d, 4, v);
    assert StoreWord(e, d, 4, v) == d';
    OneWordChange(e, d, d', 4);
  }

  /** The segment inside the ESP slice, and its length. */
  function InnerLength(d: seq<byte>, off: nat, len: nat): nat
    requires off + len <= |d| && EspSound(d, off, len)
  {
    len - 22 - d[off + len - 14]
  }

  /** The last IPv4 header carries ESP, and what stands in it here is `next`. */
  predicate RightInside(cfg: Config, st: State, off: nat, len: nat, next: byte)
    requires Ready(st, DoEsp, off, len)
  {
    && st.data[st.iph.value + 9] == PROTO_ESP
    && EspSound(st.data, off, len)
    && st.data[off + len - 13] == next
    && |st.layers| < cfg.layerMax
  }

  /** The segment has the right checksum, the one its sender computes: with the
      protocol number of its own transport. */
  predicate RightChecksum(cfg: Config, st: State, off: nat, n: nat, proto: byte, length: uint16)
    requires st.iph.Some? && st.iph.value + 20 <= |st.data| && off + n <= |st.data|
  {
    var ip := st.iph.value;
    Rfc1071(cfg.host, Summed(st.data[ip + 12..ip + 20], proto, length, st.data[off..off + n])) == 0
  }

  /** Summed with the protocol number of ESP, a right checksum is wrong. */
  lemma RightIsWrong(cfg: Config, st: State, st1: State, off: nat, n: nat, proto: byte,
                     length: uint16)
    requires st.iph.Some? && st.iph.value + 20 <= |st.data| && off + n <= |st.data|
    requires st.data[st.iph.value + 9] == PROTO_ESP && proto != PROTO_ESP
    requires RightChecksum(cfg, st, off, n, proto, length) && st1 == st.(unsure := true)
    ensures Rfc1071(cfg.host, PseudoHeader(st1, length) + st1.data[off..off + n]) != 0
  {
    var ip := st.iph.value;
    var segment := st.data[off..off + n];
    ProtocolCounts(cfg.host, st.data[ip + 12..ip + 20], proto, PROTO_ESP, length, segment);
  }

  lemma EspGoesOn(cfg: Config, st: State, st1: State, off: nat, len: nat, n: nat, call: Call)
    requires Ready(st, DoEsp, off, len) && EspSound(st.data, off, len)
    requires st1 == st.(unsure := true) && n == InnerLength(st.data, off, len)
    requires OfEspNext(st.data[off + len - 13]) == Some(call)
    ensures StepEsp(st, off, len) == Next(st1, call, off + 8, n)
  {
  }

  lemma EspHandsOn(cfg: Config, st: State, st1: State, off: nat, len: nat, n: nat, call: Call)
    requires Ready(st, DoEsp, off, len) && EspSound(st.data, off, len)
    requires st1 == st.(unsure := true) && n == InnerLength(st.data, off, len)
    requires OfEspNext(st.data[off + len - 13]) == Some(call)
    ensures Ready(st1, call, off + 8, n)
    ensures Run(cfg, st, DoEsp, off, len).layers == Run(cfg, st1, call, off + 8, n).layers
  {
    EspGoesOn(cfg, st, st1, off, len, n, call);
    RunFollows(cfg, st, DoEsp, off, len, Next(st1, call, off + 8, n), Run(cfg, st1, call, off + 8, n).layers);
  }

  /** A sound segment that is not sure to be one. */
  lemma UnsureTcp(cfg: Config, st: State, off: nat, len: nat)
    requires Ready(st, DoTcp, off, len) && len >= 20 && st.unsure && |st.layers| < cfg.layerMax
    requires 20 <= st.data[off + 12] / 16 * 4 <= len
    ensures Run(cfg, st, DoTcp, off, len).layers ==
            if TcpChecksumBad(cfg, st, off, len) then st.layers
            else st.layers + [Layer(Tcp, off, st.data[off + 12] / 16 * 4)]
  {
  }

  lemma TcpVerdict(cfg: Config, st: State, st1: State, off: nat, len: nat, n: nat, hlen: nat, bad: bool)
    requires Ready(st, DoEsp, off, len) && EspSound(st.data, off, len) && st.data[off + len - 13] == PROTO_TCP
    requires n == InnerLength(st.data, off, len) && n >= 20 && |st.layers| < cfg.layerMax && st1 == st.(unsure := true)
    requires hlen == st.data[off + 20] / 16 * 4 && 20 <= hlen <= n
    requires Ready(st1, DoTcp, off + 8, n) && bad == TcpChecksumBad(cfg, st1, off + 8, n)
    ensures Run(cfg, st, DoEsp, off, len).layers == if bad then st.layers else st.layers + [Layer(Tcp, off + 8, hlen)]
  {
    EspHandsOn(cfg, st, st1, off, len, n, DoTcp);
    UnsureTcp(cfg, st1, off + 8, n);
  }

  /** A sound TCP segment with the right checksum, right inside ESP, is recorded
      exactly when TCP checksums are not verified. */
  lemma {:induction false} TcpInsideEsp(cfg: Config, st: State, off: nat, len: nat, n: nat)
    requires Ready(st, DoEsp, off, len) && RightInside(cfg, st, off, len, PROTO_TCP)
    requires n == InnerLength(st.data, off, len) && n >= 20
    requires 20 <= st.data[off + 20] / 16 * 4 <= n
    requires RightChecksum(cfg, st, off + 8, n, PROTO_TCP, n)
    ensures Run(cfg, st, DoEsp, off, len).layers ==
            if cfg.tcpChecksums then st.layers else st.layers + [Layer(Tcp, off + 8, st.data[off + 20] / 16 * 4)]
  {
    var st1 := st.(unsure := true);
    TcpIsBad(cfg, st, st1, off + 8, n);
    TcpVerdict(cfg, st, st1, off, len, n, st.data[off + 20] / 16 * 4, cfg.tcpChecksums);
  }

  lemma TcpIsBad(cfg: Config, st: State, st1: State, off: nat, n: nat)
    requires st1 == st.(unsure := true) && Ready(st1, DoTcp, off, n) && st.data[st.iph.value + 9] == PROTO_ESP
    requires RightChecksum(cfg, st, off, n, PROTO_TCP, n)
    ensures TcpChecksumBad(cfg, st1, off, n) == cfg.tcpChecksums
  {
    RightIsWrong(cfg, st, st1, off, n, PROTO_TCP, n);
  }

  /** A datagram of the right length that is not sure to be one. */
  lemma UnsureUdp(cfg: Config, st: State, off: nat, len: nat, o: Outcome)
    requires Ready(st, DoUdp, off, len) && len >= 8 && st.unsure && |st.layers| < cfg.layerMax
    requires UdpLength(st, off) == len && o == StepUdp(cfg, st, off, len)
    ensures if UdpChecksumBad(cfg, st, off, len) then o == Stop(st)
            else o.st.layers == st.layers + [Layer(Udp, off, 8)]
  {
  }

  lemma UnsureUdpRuns(cfg: Config, st: State, off: nat, len: nat, bad: bool)
    requires Ready(st, DoUdp, off, len) && len >= 8 && st.unsure && |st.layers| < cfg.layerMax
    requires UdpLength(st, off) == len && bad == UdpChecksumBad(cfg, st, off, len)
    ensures var layers := Run(cfg, st, DoUdp, off, len).layers;
            if bad then layers == st.layers else st.layers + [Layer(Udp, off, 8)] <= layers
  {
    var o := StepUdp(cfg, st, off, len);
    UnsureUdp(cfg, st, off, len, o);
    if o.Next? {
      RunAppends(cfg, o.st, o.call, o.off, o.len);
      RunFollows(cfg, st, DoUdp, off, len, o, Run(cfg, o.st, o.call, o.off, o.len).layers);
    } else {
      RunFollows(cfg, st, DoUdp, off, len, o, o.st.layers);
    }
  }

  lemma {:induction false} UdpVerdict(cfg: Config, st: State, st1: State, off: nat, len: nat, n: nat, bad: bool)
    requires Ready(st, DoEsp, off, len) && EspSound(st.data, off, len) && st.data[off + len - 13] == PROTO_UDP
    requires n == InnerLength(st.data, off, len) && n >= 8 && |st.layers| < cfg.layerMax && st1 == st.(unsure := true)
    requires Ready(st1, DoUdp, off + 8, n) && UdpLength(st1, off + 8) == n
    requires bad == UdpChecksumBad(cfg, st1, off + 8, n)
    ensures var layers := Run(cfg, st, DoEsp, off, len).layers;
            if bad then layers == st.layers else st.layers + [Layer(Udp, off + 8, 8)] <= layers
  {
    EspHandsOn(cfg, st, st1, off, len, n, DoUdp);
    UnsureUdpRuns(cfg, st1, off + 8, n, bad);
  }

  /** Is the checksum of the datagram at `at` looked at? */
  predicate UdpLookedAt(cfg: Config, st: State, at: nat)
    requires at + 8 <= |st.data|
  {
    cfg.udpChecksums && !st.fragmented && Be16(st.data, at + 6) != 0
  }

  lemma UdpIsBad(cfg: Config, st: State, st1: State, at: nat, n: nat)
    requires st1 == st.(unsure := true) && Ready(st1, DoUdp, at, n) && n >= 8
    requires st.data[st.iph.value + 9] == PROTO_ESP
    requires RightChecksum(cfg, st, at, n, PROTO_UDP, Be16(st.data, at + 4))
    ensures UdpChecksumBad(cfg, st1, at, n) == UdpLookedAt(cfg, st, at)
    ensures UdpLength(st1, at) == UdpLength(st, at)
  {
    RightIsWrong(cfg, st, st1, at, n, PROTO_UDP, Be16(st.data, at + 4));
  }

  /** A UDP datagram with the right length and the right checksum, right inside
      ESP, is recorded exactly when UDP checksums are not verified, or it has no
      checksum, or it is a fragment; else nothing is. */
  lemma UdpInsideEsp(cfg: Config, st: State, off: nat, len: nat, n: nat, at: nat)
    requires Ready(st, DoEsp, off, len) && RightInside(cfg, st, off, len, PROTO_UDP)
    requires n == InnerLength(st.data, off, len) && n >= 8 && at == off + 8
    requires UdpLength(st, at) == n
    requires RightChecksum(cfg, st, at, n, PROTO_UDP, Be16(st.data, at + 4))
    ensures var layers := Run(cfg, st, DoEsp, off, len).layers;
            if UdpLookedAt(cfg, st, at) then layers == st.layers else st.layers + [Layer(Udp, at, 8)] <= layers
  {
    var st1 := st.(unsure := true);
    UdpIsBad(cfg, st, st1, at, n);
    UdpVerdict(cfg, st, st1, off, len, n, UdpLookedAt(cfg, st, at));
  }
}
