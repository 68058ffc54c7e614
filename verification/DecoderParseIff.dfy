/** Exactly when the recorded layers are a parse of the capture. The branch that
    spoils their order spoils this too: a tag followed by an LLC header has no
    type field that could name what is recorded next. And when the table is full
    at that tag, the decoding that goes on may write into recorded headers. */
module DecoderParseIff {
  import opened Bytes
  import opened DecoderModel
  import opened DecoderLaws
  import opened DecoderOrder
  import opened DecoderParse
  import opened DecoderSpoils
  import opened DecoderTrailers
  import opened DecoderWrites
  import opened DecoderLateWrites

  /** A length field names no decoder, not even after such writes. */
  lemma LengthNamesNothing(cfg: Config, d: seq<byte>, d': seq<byte>, off: nat, call: Call)
    requires OnlyTcpWritten(d, d') && off + 4 <= |d| && Be16(d, off + 2) <= 1518
    ensures !Names(cfg, d', Layer(Vlan, off, 4), call)
  {
    var hi, lo := d[off + 2], d[off + 3];
    var hi', lo' := d'[off + 2], d'[off + 3];
    assert hi <= 5;
    assert Be16(d', off + 2) == hi' as int * 256 + lo';
  }

  /** The LLC branch is taken on a full table, and the octet then written breaks
      a recorded header. */
  predicate RunSpoils(cfg: Config, st: State, call: Call, off: nat, len: nat)
    requires Ready(st, call, off, len)
    decreases len
  {
    var o := Step(cfg, st, call, off, len);
    && o.Next?
    && if call.DoVlan? && Rebases(st, off, len) then
         && |o.st.layers| >= cfg.layerMax
         && var w := WriteOf(cfg, o.st, o.call, o.off, o.len);
            w.Some? && Spoils(cfg, o.st.data, o.st.layers, w.value)
       else RunSpoils(cfg, o.st, o.call, o.off, o.len)
  }

  /** The tag is a sound layer, and nothing behind it is named. */
  lemma RebaseParsed(cfg: Config, st: State, off: nat, len: nat, o: Outcome)
    requires Ready(st, DoVlan, off, len) && Sofar(cfg, st, DoVlan) && Rebases(st, off, len)
    requires o == StepVlan(cfg, st, off, len)
    ensures o.st.data == st.data && Parsed(cfg, st.data, o.st.layers)
  {
    DecoderParse.Records(cfg, st, DoVlan, Stop(o.st), Layer(Vlan, off, 4));
  }

  /** Where the next call records a layer, the tag does not name it. */
  lemma OverlapIsNoParse(cfg: Config, st: State, off: nat, len: nat, o: Outcome, r: State)
    requires Ready(st, DoVlan, off, len) && Before(cfg, st, DoVlan, off) && Rebases(st, off, len)
    requires o == StepVlan(cfg, st, off, len) && o.Next? && WillRecord(cfg, o.st, o.call, o.off, o.len)
    requires r == Run(cfg, o.st, o.call, o.off, o.len)
    ensures !Parsed(cfg, r.data, r.layers)
  {
    var n, o2 := |st.layers|, Step(cfg, o.st, o.call, o.off, o.len);
    TagThenTwelve(cfg, st, off, len, o, o2, n);
    FirstStepStays(cfg, o.st, o.call, o.off, o.len, o2, r);
    RunWrites(cfg, o.st, o.call, o.off, o.len);
    if Parsed(cfg, r.data, r.layers) {
      ParsedAt(cfg, r.data, r.layers, n + 1);
      LengthNamesNothing(cfg, st.data, r.data, off, CallFor(r.layers[n + 1].proto));
    }
  }

  /** Of a tag, when the Ethernet header last laid has the session type: an IPv4
      header lies between. */
  predicate TagBehindIp(st: State, call: Call)
    requires st.eh.Some? ==> st.eh.value + 14 <= |st.data|
  {
    call.DoVlan? && LastIsSession(st) ==> st.iph.Some?
  }

  predicate HandsToVlan(call: Call) {
    call.DoEth? || call.DoBridge? || call.DoVlan? || call.DoGre?
  }

  lemma OthersDoNot(cfg: Config, st: State, call: Call, off: nat, len: nat, o: Outcome)
    requires Ready(st, call, off, len) && o == Step(cfg, st, call, off, len) && !HandsToVlan(call)
    ensures o.Next? ==> !o.call.DoVlan?
  {
    match call {
      case DoPppoe => assert o == StepPppoe(cfg, st, off, len);
      case DoPpp => assert o == StepPpp(cfg, st, off, len);
      case DoIp => assert o == StepIp(cfg, st, off, len);
      case DoEsp => assert o == StepEsp(st, off, len);
      case DoUdp => assert o == StepUdp(cfg, st, off, len);
      case DoGtp => assert o == StepGtp(cfg, st, off, len);
      case _ =>
    }
  }

  lemma TagStep(cfg: Config, st: State, call: Call, off: nat, len: nat, o: Outcome)
    requires Ready(st, call, off, len) && TagBehindIp(st, call) && o == Step(cfg, st, call, off, len)
    ensures o.Next? ==> TagBehindIp(o.st, o.call)
  {
    if !HandsToVlan(call) {
      OthersDoNot(cfg, st, call, off, len, o);
    } else if call.DoEth? {
      assert o == StepEth(cfg, st, off, len);
    } else if call.DoBridge? {
      assert o == StepBridge(cfg, st, off, len);
    } else if call.DoVlan? {
      assert o == StepVlan(cfg, st, off, len);
    } else {
      assert o == StepGre(cfg, st, off, len);
    }
  }

  /** Behind an LLC branch that no layer follows, nothing but one octet changes. */
  lemma {:induction false} QuietEnd(cfg: Config, st: State, off: nat, len: nat, o: Outcome, r: State, w: Option<nat>)
    requires Ready(st, DoVlan, off, len) && Before(cfg, st, DoVlan, off) && TagBehindIp(st, DoVlan)
    requires Rebases(st, off, len) && o == StepVlan(cfg, st, off, len) && o.Next?
    requires !WillRecord(cfg, o.st, o.call, o.off, o.len) && r == Run(cfg, o.st, o.call, o.off, o.len)
    requires w == WriteOf(cfg, o.st, o.call, o.off, o.len)
    ensures r.layers == o.st.layers
    ensures r.data == if w.Some? then o.st.data[w.value := PROTO_TCP] else o.st.data
  {
    RebaseRecords(cfg, st, off, len, o);
    QuietCall(cfg, o.st, o.call, o.off, o.len);
    OneWrite(cfg, o.st, o.call, o.off, o.len, w, r);
  }

  /** So what is written decides. */
  lemma QuietParsesIff(cfg: Config, st: State, off: nat, len: nat, o: Outcome, r: State, w: Option<nat>)
    requires Ready(st, DoVlan, off, len) && Before(cfg, st, DoVlan, off) && Sofar(cfg, st, DoVlan)
    requires Rebases(st, off, len) && TagBehindIp(st, DoVlan) && o == StepVlan(cfg, st, off, len) && o.Next?
    requires !WillRecord(cfg, o.st, o.call, o.off, o.len) && r == Run(cfg, o.st, o.call, o.off, o.len)
    requires w == WriteOf(cfg, o.st, o.call, o.off, o.len)
    ensures Parsed(cfg, r.data, r.layers) <==> !(w.Some? && Spoils(cfg, o.st.data, o.st.layers, w.value))
  {
    RebaseParsed(cfg, st, off, len, o);
    QuietEnd(cfg, st, off, len, o, r, w);
    if w.Some? {
      SpoilsIff(cfg, o.st.data, o.st.layers, w.value, r.data);
    }
  }

  /** With room in the table such a call is the last one. */
  lemma QuietWritesNothing(cfg: Config, st: State, call: Call, off: nat, len: nat)
    requires Ready(st, call, off, len) && BelowLink(call) && !WillRecord(cfg, st, call, off, len)
    requires |st.layers| < cfg.layerMax
    ensures WriteOf(cfg, st, call, off, len).None?
  {
    RecordsIff(cfg, st, call, off, len, Step(cfg, st, call, off, len));
  }

  lemma RebaseIff(cfg: Config, st: State, off: nat, len: nat, o: Outcome, r: State)
    requires Ready(st, DoVlan, off, len) && Before(cfg, st, DoVlan, off) && Sofar(cfg, st, DoVlan)
    requires Rebases(st, off, len) && TagBehindIp(st, DoVlan) && o == StepVlan(cfg, st, off, len)
    requires r == if o.Stop? then o.st else Run(cfg, o.st, o.call, o.off, o.len)
    ensures Parsed(cfg, r.data, r.layers) <==>
              !RunOverlaps(cfg, st, DoVlan, off, len) && !RunSpoils(cfg, st, DoVlan, off, len)
  {
    if o.Stop? {
      RebaseParsed(cfg, st, off, len, o);
    } else if WillRecord(cfg, o.st, o.call, o.off, o.len) {
      OverlapIsNoParse(cfg, st, off, len, o, r);
    } else {
      RebaseRecords(cfg, st, off, len, o);
      QuietCall(cfg, o.st, o.call, o.off, o.len);
      QuietParsesIff(cfg, st, off, len, o, r, WriteOf(cfg, o.st, o.call, o.off, o.len));
      if |o.st.layers| < cfg.layerMax {
        QuietWritesNothing(cfg, o.st, o.call, o.off, o.len);
      }
    }
  }

  /** A run that never takes the branch has nothing behind it. */
  lemma {:induction false} NothingBehind(cfg: Config, st: State, call: Call, off: nat, len: nat)
    requires Ready(st, call, off, len) && !RunRebases(cfg, st, call, off, len)
    ensures !RunOverlaps(cfg, st, call, off, len) && !RunSpoils(cfg, st, call, off, len)
    decreases len
  {
    var o := Step(cfg, st, call, off, len);
    if o.Next? {
      NothingBehind(cfg, o.st, o.call, o.off, o.len);
    }
  }

  /** Any other run comes to a tag where it is taken, with what was kept so far. */
  lemma {:induction false} FirstRebase(cfg: Config, inv: (State, Call, nat, nat) -> bool,
                                       out: (seq<byte>, seq<Layer>) -> bool, st: State, call: Call, off: nat, len: nat)
    returns (s: State, i: nat, n: nat)
    requires forall s: State, c: Call, i: nat, n: nat ::
               Ready(s, c, i, n) && inv(s, c, i, n) && Counts(false, s, c, i, n) ==> Keeps(cfg, inv, out, s, c, i, n)
    requires Ready(st, call, off, len) && inv(st, call, off, len) && RunRebases(cfg, st, call, off, len)
    ensures Ready(s, DoVlan, i, n) && inv(s, DoVlan, i, n) && Rebases(s, i, n)
    ensures var r, r' := Run(cfg, st, call, off, len), Run(cfg, s, DoVlan, i, n);
            r.data == r'.data && r.layers == r'.layers
    ensures RunOverlaps(cfg, st, call, off, len) == RunOverlaps(cfg, s, DoVlan, i, n)
    ensures RunSpoils(cfg, st, call, off, len) == RunSpoils(cfg, s, DoVlan, i, n)
    decreases len
  {
    if call.DoVlan? && Rebases(st, off, len) {
      s, i, n := st, off, len;
    } else {
      assert Counts(false, st, call, off, len);
      assert Keeps(cfg, inv, out, st, call, off, len);
      var o := Step(cfg, st, call, off, len);
      s, i, n := FirstRebase(cfg, inv, out, o.st, o.call, o.off, o.len);
    }
  }

  function TaggedInv(cfg: Config): (State, Call, nat, nat) -> bool {
    (st: State, call: Call, off: nat, len: nat) =>
      Ready(st, call, off, len) && TagBehindIp(st, call) && Steady(cfg, st, call, off, off + len)
  }

  lemma TaggedIsInv(cfg: Config, st: State, call: Call, off: nat, len: nat)
    requires Ready(st, call, off, len)
    ensures TaggedInv(cfg)(st, call, off, len) <==> TagBehindIp(st, call) && Steady(cfg, st, call, off, off + len)
  {
  }

  lemma TaggedOutcome(cfg: Config, st: State, call: Call, off: nat, len: nat, o: Outcome)
    requires Ready(st, call, off, len) && TaggedInv(cfg)(st, call, off, len) && Counts(false, st, call, off, len)
    requires o == Step(cfg, st, call, off, len)
    ensures ParsedOut(cfg)(o.st.data, o.st.layers) && (o.Next? ==> TaggedInv(cfg)(o.st, o.call, o.off, o.len))
  {
    TaggedIsInv(cfg, st, call, off, len);
    StepSteady(cfg, st, call, off, len, o);
    TagStep(cfg, st, call, off, len, o);
    ParsedIsOut(cfg, o.st.data, o.st.layers);
    if o.Next? {
      TaggedIsInv(cfg, o.st, o.call, o.off, o.len);
    }
  }

  lemma ReachesTag(cfg: Config, st: State, call: Call, off: nat, len: nat)
    returns (s: State, i: nat, n: nat)
    requires Ready(st, call, off, len) && TaggedInv(cfg)(st, call, off, len) && RunRebases(cfg, st, call, off, len)
    ensures Ready(s, DoVlan, i, n) && TaggedInv(cfg)(s, DoVlan, i, n) && Rebases(s, i, n)
    ensures var r, r' := Run(cfg, st, call, off, len), Run(cfg, s, DoVlan, i, n);
            r.data == r'.data && r.layers == r'.layers
    ensures RunOverlaps(cfg, st, call, off, len) == RunOverlaps(cfg, s, DoVlan, i, n)
    ensures RunSpoils(cfg, st, call, off, len) == RunSpoils(cfg, s, DoVlan, i, n)
  {
    forall s: State, c: Call, i: nat, n: nat |
      Ready(s, c, i, n) && TaggedInv(cfg)(s, c, i, n) && Counts(false, s, c, i, n)
      ensures Keeps(cfg, TaggedInv(cfg), ParsedOut(cfg), s, c, i, n)
    {
      var o := Step(cfg, s, c, i, n);
      TaggedOutcome(cfg, s, c, i, n, o);
      KeepsBy(cfg, TaggedInv(cfg), ParsedOut(cfg), s, c, i, n, o);
    }
    s, i, n := FirstRebase(cfg, TaggedInv(cfg), ParsedOut(cfg), st, call, off, len);
  }

  lemma TagParsesIff(cfg: Config, st: State, off: nat, len: nat, r: State)
    requires Ready(st, DoVlan, off, len) && TaggedInv(cfg)(st, DoVlan, off, len) && Rebases(st, off, len)
    requires r == Run(cfg, st, DoVlan, off, len)
    ensures Parsed(cfg, r.data, r.layers) <==>
              !RunOverlaps(cfg, st, DoVlan, off, len) && !RunSpoils(cfg, st, DoVlan, off, len)
  {
    var o := StepVlan(cfg, st, off, len);
    RebaseIff(cfg, st, off, len, o, if o.Stop? then o.st else Run(cfg, o.st, o.call, o.off, o.len));
  }

  /** The layers recorded for a capture are a parse of it iff no call behind the
      LLC branch recorded a layer, nor wrote, with the table full, an octet that
      a recorded header depends on. */
  lemma DecodeParsesIff(cfg: Config, data: seq<byte>)
    ensures var r := Decode(cfg, data);
            Parsed(cfg, r.data, r.layers) <==>
              && !RunOverlaps(cfg, Initial(data), DoEth, 0, |data|)
              && !RunSpoils(cfg, Initial(data), DoEth, 0, |data|)
  {
    var st, len := Initial(data), |data|;
    if RunRebases(cfg, st, DoEth, 0, len) {
      var s, i, n := ReachesTag(cfg, st, DoEth, 0, len);
      TagParsesIff(cfg, s, i, n, Run(cfg, s, DoVlan, i, n));
    } else {
      NothingBehind(cfg, st, DoEth, 0, len);
      RunParsed(cfg, st, DoEth, 0, len, Decode(cfg, data));
    }
  }

  /** Without two octets 0xaa side by side they always are. */
  lemma PlainCaptureParsed(cfg: Config, data: seq<byte>)
    requires NoLlcMark(data)
    ensures var r := Decode(cfg, data); Parsed(cfg, r.data, r.layers)
  {
    NoMarkNoRebase(cfg, Initial(data), DoEth, 0, |data|);
    RunParsed(cfg, Initial(data), DoEth, 0, |data|, Decode(cfg, data));
  }
}
