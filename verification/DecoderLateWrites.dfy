/** How often the PPP decoder can write behind the LLC branch: once at most,
    since the IPv4 header behind it is then the second one. */
module DecoderLateWrites {
  import opened Bytes
  import opened DecoderModel
  import opened DecoderLaws
  import opened DecoderWrites

  /** Does the PPP decoder write here? And where? */
  predicate VjWrites(st: State, off: nat, len: nat)
    requires Ready(st, DoPpp, off, len)
  {
    len >= 2 && PppProtocol(st.data, off).1 == PPP_VJ_UCOMP && len >= PppProtocol(st.data, off).0 + 20
  }

  function VjAt(st: State, off: nat, len: nat): (w: nat)
    requires Ready(st, DoPpp, off, len) && VjWrites(st, off, len)
    ensures w < |st.data|
  {
    off + PppProtocol(st.data, off).0 + 9
  }

  /** Where the run first writes, if it does. */
  function WriteOf(cfg: Config, st: State, call: Call, off: nat, len: nat): (w: Option<nat>)
    requires Ready(st, call, off, len)
    ensures w.Some? ==> w.value < |st.data|
    decreases len
  {
    if call.DoPpp? && VjWrites(st, off, len) then Some(VjAt(st, off, len))
    else
      var o := Step(cfg, st, call, off, len);
      if o.Next? then WriteOf(cfg, o.st, o.call, o.off, o.len) else None
  }

  /** At a second IPv4 header, or behind it. */
  predicate Late(st: State, call: Call) {
    && st.iph.Some?
    && (|| call.DoIp?
        || (st.encapsulated && (call.DoTcp? || call.DoUdp? || call.DoIcmp? || call.DoGre? || call.DoEsp? || call.DoGtp?
                                || call.DoIpv6?)))
  }

  lemma LateStep(cfg: Config, st: State, call: Call, off: nat, len: nat, o: Outcome)
    requires Ready(st, call, off, len) && Late(st, call) && o == Step(cfg, st, call, off, len)
    ensures o.Next? ==> Late(o.st, o.call)
  {
    match call {
      case DoIp => assert o == StepIp(cfg, st, off, len);
      case DoIpv6 => assert o == StepIpv6(st, len);
      case DoGre => assert o == StepGre(cfg, st, off, len);
      case DoEsp => assert o == StepEsp(st, off, len);
      case DoUdp => assert o == StepUdp(cfg, st, off, len);
      case DoGtp => assert o == StepGtp(cfg, st, off, len);
      case DoTcp => assert o == StepTcp(cfg, st, off, len);
      case DoIcmp => assert o == StepIcmp(cfg, st, off, len);
    }
  }

  lemma {:induction false} LateWritesNothing(cfg: Config, st: State, call: Call, off: nat, len: nat)
    requires Ready(st, call, off, len) && Late(st, call)
    ensures Run(cfg, st, call, off, len).data == st.data
    decreases len
  {
    var o := Step(cfg, st, call, off, len);
    StepWrites(cfg, st, call, off, len, o);
    LateStep(cfg, st, call, off, len, o);
    if o.Next? {
      LateWritesNothing(cfg, o.st, o.call, o.off, o.len);
    }
  }

  predicate LastIsSession(st: State)
    requires st.eh.Some? ==> st.eh.value + 14 <= |st.data|
  {
    st.eh.Some? && Be16(st.data, st.eh.value + 12) == TYPE_PPPOE_SESS
  }

  /** Whatever leads to PPP comes behind an IPv4 header: of a tag, and of PPPoE,
      that is so when the Ethernet header last laid has the session type. */
  predicate BehindIp(st: State, call: Call)
    requires st.eh.Some? ==> st.eh.value + 14 <= |st.data|
  {
    && !call.DoEth?
    && (call.DoPpp? ==> st.iph.Some?)
    && (call.DoPppoe? && LastIsSession(st) ==> st.iph.Some?)
    && (call.DoVlan? && LastIsSession(st) ==> st.iph.Some?)
  }

  lemma LinkBehindIp(cfg: Config, st: State, call: Call, off: nat, len: nat, o: Outcome)
    requires Ready(st, call, off, len) && BehindIp(st, call) && o == Step(cfg, st, call, off, len)
    requires call.DoBridge? || call.DoVlan? || call.DoPppoe? || call.DoArp?
    ensures o.Next? ==> BehindIp(o.st, o.call)
  {
    match call {
      case DoBridge => assert o == StepBridge(cfg, st, off, len);
      case DoVlan => assert o == StepVlan(cfg, st, off, len);
      case DoPppoe => assert o == StepPppoe(cfg, st, off, len);
      case DoArp => assert o == StepArp(cfg, st, off, len);
    }
  }

  lemma InnerBehindIp(cfg: Config, st: State, call: Call, off: nat, len: nat, o: Outcome)
    requires Ready(st, call, off, len) && BehindIp(st, call) && o == Step(cfg, st, call, off, len)
    requires !(call.DoBridge? || call.DoVlan? || call.DoPppoe? || call.DoArp?)
    ensures o.Next? ==> BehindIp(o.st, o.call)
  {
    match call {
      case DoPpp => assert o == StepPpp(cfg, st, off, len);
      case DoIp => assert o == StepIp(cfg, st, off, len);
      case DoIpv6 => assert o == StepIpv6(st, len);
      case DoGre => assert o == StepGre(cfg, st, off, len);
      case DoEsp => assert o == StepEsp(st, off, len);
      case DoUdp => assert o == StepUdp(cfg, st, off, len);
      case DoGtp => assert o == StepGtp(cfg, st, off, len);
      case DoTcp => assert o == StepTcp(cfg, st, off, len);
      case DoIcmp => assert o == StepIcmp(cfg, st, off, len);
    }
  }

  /** Behind an IPv4 header the whole rest of the run writes one octet at most. */
  lemma {:induction false} OneWrite(cfg: Config, st: State, call: Call, off: nat, len: nat, w: Option<nat>, r: State)
    requires Ready(st, call, off, len) && BehindIp(st, call)
    requires w == WriteOf(cfg, st, call, off, len) && r == Run(cfg, st, call, off, len)
    ensures r.data == if w.Some? then st.data[w.value := PROTO_TCP] else st.data
    decreases len
  {
    var o := Step(cfg, st, call, off, len);
    if call.DoPpp? && VjWrites(st, off, len) {
      assert o.st.data == st.data[w.value := PROTO_TCP] && Late(o.st, o.call);
      LateWritesNothing(cfg, o.st, o.call, o.off, o.len);
    } else {
      StepWrites(cfg, st, call, off, len, o);
      if call.DoPpp? {
        assert o == StepPpp(cfg, st, off, len);
      }
      if o.Next? {
        if call.DoBridge? || call.DoVlan? || call.DoPppoe? || call.DoArp? {
          LinkBehindIp(cfg, st, call, off, len, o);
        } else {
          InnerBehindIp(cfg, st, call, off, len, o);
        }
        OneWrite(cfg, o.st, o.call, o.off, o.len, w, Run(cfg, o.st, o.call, o.off, o.len));
      }
    }
  }
}
