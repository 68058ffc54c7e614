/** What decoding writes into the capture: only the PPP decoder does, and only
    the protocol number of TCP. So it never makes the two octets that mark an
    LLC header behind a VLAN tag. */
module DecoderWrites {
  import opened Bytes
  import opened DecoderModel
  import opened DecoderLaws

  /** Every octet is as it was, or was made the protocol number of TCP. */
  predicate OnlyTcpWritten(d: seq<byte>, d': seq<byte>) {
    |d| == |d'| && forall i :: 0 <= i < |d| ==> d'[i] == d[i] || d'[i] == PROTO_TCP
  }

  predicate IsLinkCall(call: Call) {
    call.DoEth? || call.DoBridge? || call.DoVlan? || call.DoPppoe? || call.DoPpp? || call.DoArp?
  }

  lemma PppWrites(cfg: Config, st: State, off: nat, len: nat, o: Outcome)
    requires Ready(st, DoPpp, off, len) && o == StepPpp(cfg, st, off, len)
    ensures OnlyTcpWritten(st.data, o.st.data)
  {
  }

  lemma LinkWrites(cfg: Config, st: State, call: Call, off: nat, len: nat, o: Outcome)
    requires Ready(st, call, off, len) && o == Step(cfg, st, call, off, len) && IsLinkCall(call)
    ensures OnlyTcpWritten(st.data, o.st.data) && (!call.DoPpp? ==> o.st.data == st.data)
  {
    match call {
      case DoEth => assert o == StepEth(cfg, st, off, len);
      case DoBridge => assert o == StepBridge(cfg, st, off, len);
      case DoVlan => assert o == StepVlan(cfg, st, off, len);
      case DoPppoe => assert o == StepPppoe(cfg, st, off, len);
      case DoPpp => PppWrites(cfg, st, off, len, o);
      case DoArp => assert o == StepArp(cfg, st, off, len);
    }
  }

  lemma TunnelWrites(cfg: Config, st: State, call: Call, off: nat, len: nat, o: Outcome)
    requires Ready(st, call, off, len) && o == Step(cfg, st, call, off, len)
    requires call.DoIp? || call.DoGre? || call.DoEsp? || call.DoGtp?
    ensures o.st.data == st.data
  {
    match call {
      case DoIp => assert o == StepIp(cfg, st, off, len);
      case DoGre => assert o == StepGre(cfg, st, off, len);
      case DoEsp => assert o == StepEsp(st, off, len);
      case DoGtp => assert o == StepGtp(cfg, st, off, len);
    }
  }

  lemma InnerWrites(cfg: Config, st: State, call: Call, off: nat, len: nat, o: Outcome)
    requires Ready(st, call, off, len) && o == Step(cfg, st, call, off, len) && !IsLinkCall(call)
    ensures o.st.data == st.data
  {
    match call {
      case DoIpv6 => assert o == StepIpv6(st, len);
      case DoUdp => assert o == StepUdp(cfg, st, off, len);
      case DoTcp => assert o == StepTcp(cfg, st, off, len);
      case DoIcmp => assert o == StepIcmp(cfg, st, off, len);
      case DoIp | DoGre | DoEsp | DoGtp => TunnelWrites(cfg, st, call, off, len, o);
    }
  }

  lemma StepWrites(cfg: Config, st: State, call: Call, off: nat, len: nat, o: Outcome)
    requires Ready(st, call, off, len) && o == Step(cfg, st, call, off, len)
    ensures OnlyTcpWritten(st.data, o.st.data) && (!call.DoPpp? ==> o.st.data == st.data)
  {
    if IsLinkCall(call) {
      LinkWrites(cfg, st, call, off, len, o);
    } else {
      InnerWrites(cfg, st, call, off, len, o);
    }
  }

  lemma {:induction false} RunWrites(cfg: Config, st: State, call: Call, off: nat, len: nat)
    requires Ready(st, call, off, len)
    ensures OnlyTcpWritten(st.data, Run(cfg, st, call, off, len).data)
    decreases len
  {
    var o := Step(cfg, st, call, off, len);
    StepWrites(cfg, st, call, off, len, o);
    if o.Next? {
      RunWrites(cfg, o.st, o.call, o.off, o.len);
    }
  }

  /** No two octets 0xaa stand side by side. */
  predicate NoLlcMark(d: seq<byte>) {
    forall i :: 0 <= i < |d| - 1 ==> !(d[i] == 0xaa && d[i + 1] == 0xaa)
  }

  lemma MarkNotMade(d: seq<byte>, d': seq<byte>)
    requires NoLlcMark(d) && OnlyTcpWritten(d, d')
    ensures NoLlcMark(d')
  {
  }

  /** A capture without that mark never takes the LLC branch. */
  lemma {:induction false} NoMarkNoRebase(cfg: Config, st: State, call: Call, off: nat, len: nat)
    requires Ready(st, call, off, len) && NoLlcMark(st.data)
    ensures !RunRebases(cfg, st, call, off, len)
    decreases len
  {
    var o := Step(cfg, st, call, off, len);
    StepWrites(cfg, st, call, off, len, o);
    MarkNotMade(st.data, o.st.data);
    if o.Next? {
      NoMarkNoRebase(cfg, o.st, o.call, o.off, o.len);
    }
  }

  /** So its layers are in order, disjoint, inside the capture and contiguous,
      whatever the rest of its octets. */
  lemma PlainCaptureLaid(cfg: Config, data: seq<byte>)
    requires NoLlcMark(data)
    ensures var r := Decode(cfg, data);
            && |r.layers| <= cfg.layerMax
            && Stacked(r.data, r.layers)
            && forall i, j :: 0 <= i < j < |r.layers| ==> End(r.layers[i]) <= r.layers[j].start
  {
    NoMarkNoRebase(cfg, Initial(data), DoEth, 0, |data|);
    DecodeLaysLayers(cfg, data);
  }
}
