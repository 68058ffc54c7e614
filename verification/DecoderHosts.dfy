/** Decoding does not depend on the byte order of the host: the only thing that
    is asked of a checksum is whether it is zero. */
module DecoderHosts {
  import opened Bytes
  import opened DecoderModel
  import opened Checksum
  import opened ChecksumLaws

  function OtherHost(cfg: Config): Config {
    cfg.(host := Flip(cfg.host))
  }

  lemma UdpBlind(cfg: Config, st: State, off: nat, len: nat)
    requires Ready(st, DoUdp, off, len) && len >= 8
    ensures UdpChecksumBad(cfg, st, off, len) == UdpChecksumBad(OtherHost(cfg), st, off, len)
  {
    ByteOrderIndependent(cfg.host, PseudoHeader(st, Be16(st.data, off + 4)) + st.data[off..off + len]);
  }

  lemma TcpBlind(cfg: Config, st: State, off: nat, len: nat)
    requires Ready(st, DoTcp, off, len)
    ensures TcpChecksumBad(cfg, st, off, len) == TcpChecksumBad(OtherHost(cfg), st, off, len)
  {
    ByteOrderIndependent(cfg.host, PseudoHeader(st, len) + st.data[off..off + len]);
  }

  lemma StepBlind(cfg: Config, st: State, call: Call, off: nat, len: nat)
    requires Ready(st, call, off, len)
    ensures Step(cfg, st, call, off, len) == Step(OtherHost(cfg), st, call, off, len)
  {
    if call.DoUdp? && len >= 8 {
      UdpBlind(cfg, st, off, len);
    } else if call.DoTcp? {
      TcpBlind(cfg, st, off, len);
    }
  }

  lemma {:induction false} RunBlind(cfg: Config, st: State, call: Call, off: nat, len: nat)
    requires Ready(st, call, off, len)
    ensures Run(cfg, st, call, off, len) == Run(OtherHost(cfg), st, call, off, len)
    decreases len
  {
    StepBlind(cfg, st, call, off, len);
    var o := Step(cfg, st, call, off, len);
    if o.Next? {
      RunBlind(cfg, o.st, o.call, o.off, o.len);
    }
  }

  /** Hosts of both byte orders make the same of every capture. */
  lemma DecodeOnAnyHost(cfg: Config, host: Endian, data: seq<byte>)
    ensures Decode(cfg.(host := host), data) == Decode(cfg, data)
  {
    if host == cfg.host {
      assert cfg.(host := host) == cfg;
    } else {
      assert cfg.(host := host) == OtherHost(cfg);
      RunBlind(cfg, Initial(data), DoEth, 0, |data|);
    }
  }
}
