/** What the chain of header tests and the bidirectional test mean. */
module RuleLaws {
  import opened Bytes
  import opened RuleHeader

  // -------------------------------------------------------------- order of tests

  /** Tests of one side each, closed by the end test. */
  predicate Plain(chain: seq<Test>) {
    && chain != []
    && chain[|chain| - 1] == ListEnd
    && forall i :: 0 <= i < |chain| - 1 ==> chain[i] != ListEnd && chain[i] != Bidirectional
  }

  lemma {:induction false} PlainIsEffective(chain: seq<Test>)
    requires Plain(chain)
    ensures Runnable(chain) && Effective(chain) == chain
    decreases |chain|
  {
    if |chain| > 1 {
      PlainIsEffective(chain[1..]);
    }
  }

  /** The verdict of a plain chain does not depend on the order of its tests,
      nor on how often one is repeated. */
  lemma OrderDoesNotMatter(targetBased: bool, c: seq<Test>, c': seq<Test>,
                           r: Rule, p: Packet, checkPorts: bool)
    requires Plain(c) && Plain(c')
    requires forall t :: t in c <==> t in c'
    ensures Runnable(c) && Runnable(c')
    ensures AllPass(targetBased, Effective(c), r, p, checkPorts) <==>
            AllPass(targetBased, Effective(c'), r, p, checkPorts)
  {
    PlainIsEffective(c);
    PlainIsEffective(c');
  }

  // ------------------------------------------------------- the rule as a whole

  /** Is the port acceptable: any port, ports not checked, or in the set unless
      the set is negated? */
  predicate PortOk(targetBased: bool, checkPorts: bool, any: bool, except: bool, ports: set<uint16>, port: uint16) {
    any || (targetBased && !checkPorts) || (port in ports) != except
  }

  /** A rule header read in one direction. */
  predicate MatchesOneWay(targetBased: bool, r: Rule, p: Packet, checkPorts: bool) {
    && (r.flags.anySrcIp || Accepts(r.sip, p.src))
    && (r.flags.anyDstIp || Accepts(r.dip, p.dst))
    && PortOk(targetBased, checkPorts, r.flags.anySrcPort, r.flags.exceptSrcPort, r.srcPorts, p.sp)
    && PortOk(targetBased, checkPorts, r.flags.anyDstPort, r.flags.exceptDstPort, r.dstPorts, p.dp)
  }

  predicate ChainVerdict(targetBased: bool, r: Rule, p: Packet, checkPorts: bool)
    requires Runnable(ChainFor(r.flags))
  {
    AllPass(targetBased, Effective(ChainFor(r.flags)), r, p, checkPorts)
  }

  lemma ChainIsRunnable(f: Flags)
    ensures Runnable(ChainFor(f))
    ensures !f.bidirectional ==> Plain(ChainFor(f)) && Effective(ChainFor(f)) == ChainFor(f)
    ensures f.bidirectional ==> Effective(ChainFor(f)) == [Bidirectional]
  {
    if !f.bidirectional {
      PlainIsEffective(ChainFor(f));
    }
  }

  lemma TestsOfChain(f: Flags, t: Test)
    requires !f.bidirectional
    ensures t in ChainFor(f) <==>
              match t
              case SrcIp => !f.anySrcIp
              case DstIp => !f.anyDstIp
              case SrcPortEq => !f.anySrcPort && !f.exceptSrcPort
              case SrcPortNotEq => !f.anySrcPort && f.exceptSrcPort
              case DstPortEq => !f.anyDstPort && !f.exceptDstPort
              case DstPortNotEq => !f.anyDstPort && f.exceptDstPort
              case Bidirectional => false
              case ListEnd => true
  {
  }

  /** The chain set up for a one-way rule matches exactly the packets that the
      header describes. */
  lemma OneWayChain(targetBased: bool, r: Rule, p: Packet, checkPorts: bool)
    requires !r.flags.bidirectional
    ensures Runnable(ChainFor(r.flags))
    ensures ChainVerdict(targetBased, r, p, checkPorts) <==> MatchesOneWay(targetBased, r, p, checkPorts)
  {
    ChainIsRunnable(r.flags);
    var chain := ChainFor(r.flags);
    if MatchesOneWay(targetBased, r, p, checkPorts) {
      forall t | t in chain ensures Passes(targetBased, t, r, p, checkPorts) {
        TestsOfChain(r.flags, t);
      }
    }
    if ChainVerdict(targetBased, r, p, checkPorts) {
      TestsOfChain(r.flags, SrcIp);
      TestsOfChain(r.flags, DstIp);
      TestsOfChain(r.flags, if r.flags.exceptSrcPort then SrcPortNotEq else SrcPortEq);
      TestsOfChain(r.flags, if r.flags.exceptDstPort then DstPortNotEq else DstPortEq);
    }
  }

  /** The parser links the tests for a rule. Run over a packet, the chain of a
      one-way rule decides whether the header describes it, in whatever order the
      tests come; that of a bidirectional rule is the bidirectional test. */
  method SetupRTNFuncList(f: Flags) returns (chain: seq<Test>)
    ensures Runnable(chain)
    ensures !f.bidirectional ==>
              forall tb, r: Rule, p, ports :: r.flags == f ==>
                (AllPass(tb, Effective(chain), r, p, ports) <==> MatchesOneWay(tb, r, p, ports))
    ensures f.bidirectional ==>
              forall tb, r: Rule, p, ports ::
                AllPass(tb, Effective(chain), r, p, ports) <==> BidirectionalVerdict(tb, r, p, ports)
  {
    chain := [];
    if f.bidirectional {
      chain := chain + [Bidirectional];
    } else {
      if !f.anyDstPort {
        chain := chain + [if f.exceptDstPort then DstPortNotEq else DstPortEq];
      }
      if !f.anySrcPort {
        chain := chain + [if f.exceptSrcPort then SrcPortNotEq else SrcPortEq];
      }
      if !f.anySrcIp {
        chain := chain + [SrcIp];
      }
      if !f.anyDstIp {
        chain := chain + [DstIp];
      }
    }
    chain := chain + [ListEnd];
    assert chain == ChainFor(f);
    ChainMeans(f);
  }

  lemma ChainMeans(f: Flags)
    ensures Runnable(ChainFor(f))
    ensures !f.bidirectional ==>
              forall tb, r: Rule, p, ports :: r.flags == f ==>
                (AllPass(tb, Effective(ChainFor(f)), r, p, ports) <==> MatchesOneWay(tb, r, p, ports))
    ensures f.bidirectional ==>
              forall tb, r: Rule, p, ports ::
                AllPass(tb, Effective(ChainFor(f)), r, p, ports) <==> BidirectionalVerdict(tb, r, p, ports)
  {
    ChainIsRunnable(f);
    if !f.bidirectional {
      forall tb, r: Rule, p, ports | r.flags == f
        ensures AllPass(tb, Effective(ChainFor(f)), r, p, ports) <==> MatchesOneWay(tb, r, p, ports)
      {
        OneWayChain(tb, r, p, ports);
      }
    }
  }

  /** The packet going the other way. */
  function Reverse(p: Packet): Packet {
    Packet(p.dst, p.src, p.dp, p.sp)
  }

  /** Applying a rule the other way round is applying it to the reverse packet. */
  lemma InverseIsReverse(targetBased: bool, r: Rule, p: Packet, ports: bool)
    ensures BothMatch(targetBased, r, p, true, ports) <==> BothMatch(targetBased, r, Reverse(p), false, ports)
  {
  }

  predicate BidirectionalVerdict(targetBased: bool, r: Rule, p: Packet, ports: bool) {
    Passes(targetBased, Bidirectional, r, p, ports)
  }

  /** The verdict of the bidirectional test is blind to direction, for every
      rule, flag set and port mode. */
  lemma DirectionBlind(targetBased: bool, r: Rule, p: Packet, ports: bool)
    ensures BidirectionalVerdict(targetBased, r, p, ports) <==>
            BidirectionalVerdict(targetBased, r, Reverse(p), ports)
  {
    InverseIsReverse(targetBased, r, p, ports);
    InverseIsReverse(targetBased, r, Reverse(p), ports);
    assert Reverse(Reverse(p)) == p;
  }

  /** Sides that are "any" in the header still have a list; does it accept the
      address of the packet? */
  predicate AnyListsAccept(r: Rule, p: Packet) {
    (r.flags.anySrcIp ==> Accepts(r.sip, p.src)) && (r.flags.anyDstIp ==> Accepts(r.dip, p.dst))
  }

  /** The bidirectional test asks those lists too, which the chain skips. */
  lemma ForwardAsksLists(targetBased: bool, r: Rule, p: Packet, ports: bool)
    ensures BothMatch(targetBased, r, p, false, ports) <==>
              MatchesOneWay(targetBased, r, p, ports) && AnyListsAccept(r, p)
  {
  }

  /** A bidirectional rule matches a packet iff the same rule, read one way,
      matches the packet or its reverse, and there the lists of "any" sides
      accept it. So the two readings agree on every packet that such lists do
      not refuse. */
  lemma BidirectionalIsEitherWay(targetBased: bool, r: Rule, p: Packet, ports: bool)
    ensures BidirectionalVerdict(targetBased, r, p, ports) <==>
              || (MatchesOneWay(targetBased, r, p, ports) && AnyListsAccept(r, p))
              || (MatchesOneWay(targetBased, r, Reverse(p), ports) && AnyListsAccept(r, Reverse(p)))
    ensures AnyListsAccept(r, p) && AnyListsAccept(r, Reverse(p)) ==>
              (BidirectionalVerdict(targetBased, r, p, ports) <==>
                 MatchesOneWay(targetBased, r, p, ports) || MatchesOneWay(targetBased, r, Reverse(p), ports))
  {
    InverseIsReverse(targetBased, r, p, ports);
    ForwardAsksLists(targetBased, r, p, ports);
    ForwardAsksLists(targetBased, r, Reverse(p), ports);
  }
}
