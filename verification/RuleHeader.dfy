/** Matching a packet against a rule header, in the build without IPv6 support:
    address lists, port sets, and the chain of tests the parser sets up. */
module RuleHeader {
  import opened Bytes

  type Ip = bv32

  datatype AddrNode = AddrNode(addr: Ip, mask: Ip)

  /** Entries to match and entries to exclude. */
  datatype AddrSet = AddrSet(ips: seq<AddrNode>, negIps: seq<AddrNode>)

  datatype Flags = Flags(
    exceptSrcIp: bool, exceptDstIp: bool,
    anySrcPort: bool, anyDstPort: bool,
    exceptSrcPort: bool, exceptDstPort: bool,
    bidirectional: bool,
    anySrcIp: bool, anyDstIp: bool)

  datatype Rule = Rule(sip: Option<AddrSet>, dip: Option<AddrSet>,
                       srcPorts: set<uint16>, dstPorts: set<uint16>, flags: Flags)

  datatype Packet = Packet(src: Ip, dst: Ip, sp: uint16, dp: uint16)

  /** Which side of the packet to look at, whether the rule is applied the other
      way round, and whether ports are to be checked. */
  datatype Mode = Mode(source: bool, inverse: bool, ports: bool)

  // ------------------------------------------------------------------ addresses

  predicate Hits(n: AddrNode, a: Ip) {
    n.addr == a & n.mask
  }

  predicate AnyHits(nodes: seq<AddrNode>, a: Ip) {
    exists i :: 0 <= i < |nodes| && Hits(nodes[i], a)
  }

  /** An address list accepts an address when no excluded entry matches it and,
      if there are entries to match, one of them does. */
  predicate Accepts(addrs: Option<AddrSet>, a: Ip) {
    && addrs.Some?
    && (addrs.value.ips == [] || AnyHits(addrs.value.ips, a))
    && !AnyHits(addrs.value.negIps, a)
  }

  /** The walk of the source and the destination test: both lists in one pass,
      the excluded entries one step ahead. */
  method CheckIP(addrs: Option<AddrSet>, a: Ip) returns (pass: bool)
    ensures pass <==> Accepts(addrs, a)
  {
    if addrs.None? {
      return false;
    }
    var ips, negIps := addrs.value.ips, addrs.value.negIps;
    var posIdx, negIdx, found := 0, 0, false;
    if ips == [] {
      while negIdx < |negIps|
        invariant 0 <= negIdx <= |negIps|
        invariant forall i :: 0 <= i < negIdx ==> !Hits(negIps[i], a)
      {
        if Hits(negIps[negIdx], a) {
          return false;
        }
        negIdx := negIdx + 1;
      }
      return true;
    }
    while posIdx < |ips|
      invariant 0 <= posIdx <= |ips| && 0 <= negIdx <= |negIps|
      invariant forall i :: 0 <= i < negIdx ==> !Hits(negIps[i], a)
      invariant forall i :: 0 <= i < posIdx ==> !Hits(ips[i], a)
      invariant found ==> posIdx < |ips| && Hits(ips[posIdx], a)
      decreases |ips| - posIdx + |negIps| - negIdx, !found
    {
      if negIdx < |negIps| {
        if Hits(negIps[negIdx], a) {
          return false;
        }
        negIdx := negIdx + 1;
      } else if found {
        return true;
      }
      if !found {
        if Hits(ips[posIdx], a) {
          found := true;
        } else {
          posIdx := posIdx + 1;
        }
      }
    }
    return false;
  }

  // ---------------------------------------------------- address and port at once

  /** The packet's side, and the rule's flags for it, that a mode selects. */
  function Side(p: Packet, m: Mode): (Ip, uint16) {
    if m.source then (p.src, p.sp) else (p.dst, p.dp)
  }

  predicate UsesSourceFlags(m: Mode) {
    m.source != m.inverse
  }

  predicate AddrPortMatches(targetBased: bool, addrs: Option<AddrSet>, ports: set<uint16>,
                            p: Packet, f: Flags, m: Mode) {
    var (a, port) := Side(p, m);
    var anyPort := if UsesSourceFlags(m) then f.anySrcPort else f.anyDstPort;
    var exceptPort := if UsesSourceFlags(m) then f.exceptSrcPort else f.exceptDstPort;
    Accepts(addrs, a) && (anyPort || (targetBased && !m.ports) || (port in ports) != exceptPort)
  }

  method ScanList(nodes: seq<AddrNode>, a: Ip) returns (hit: bool)
    ensures hit <==> AnyHits(nodes, a)
  {
    hit := false;
    var idx := 0;
    while idx < |nodes|
      invariant 0 <= idx <= |nodes|
      invariant !hit && forall i :: 0 <= i < idx ==> !Hits(nodes[i], a)
    {
      if Hits(nodes[idx], a) {
        hit := true;
        break;
      }
      idx := idx + 1;
    }
  }

  /** The two-pass form. Whether the exception flag of the address is up makes
      no difference to what is accepted. */
  method CheckAddrPort(targetBased: bool, addrs: Option<AddrSet>, ports: set<uint16>,
                       p: Packet, f: Flags, m: Mode) returns (pass: bool)
    ensures pass <==> AddrPortMatches(targetBased, addrs, ports, p, f, m)
  {
    var addr, port, exceptAddr, anyPort, exceptPort;
    if m.source {
      addr, port := p.src, p.sp;
      if m.inverse {
        exceptAddr, anyPort, exceptPort := f.exceptDstIp, f.anyDstPort, f.exceptDstPort;
      } else {
        exceptAddr, anyPort, exceptPort := f.exceptSrcIp, f.anySrcPort, f.exceptSrcPort;
      }
    } else {
      addr, port := p.dst, p.dp;
      if m.inverse {
        exceptAddr, anyPort, exceptPort := f.exceptSrcIp, f.anySrcPort, f.exceptSrcPort;
      } else {
        exceptAddr, anyPort, exceptPort := f.exceptDstIp, f.anyDstPort, f.exceptDstPort;
      }
    }
    var ipMatch := false;
    if addrs.Some? {
      if !exceptAddr {
        if addrs.value.ips != [] {
          ipMatch := ScanList(addrs.value.ips, addr);
        } else {
          ipMatch := true;
        }
        if ipMatch {
          var excluded := ScanList(addrs.value.negIps, addr);
          if excluded {
            ipMatch := false;
          }
        }
      } else {
        if addrs.value.ips != [] {
          ipMatch := ScanList(addrs.value.ips, addr);
        } else {
          ipMatch := true;
        }
        if ipMatch {
          var excluded := ScanList(addrs.value.negIps, addr);
          if excluded {
            ipMatch := false;
          }
        }
        if !ipMatch {
          return false;
        }
      }
    }
    if !ipMatch {
      return false;
    }
    if anyPort {
      return true;
    }
    if targetBased && !m.ports {
      return true;
    }
    if port !in ports {
      if !exceptPort {
        return false;
      }
    } else {
      if exceptPort {
        return false;
      }
    }
    return true;
  }

  // -------------------------------------------------------------- bidirectional

  /** Both sides of the rule, applied forward or the other way round. */
  predicate BothMatch(targetBased: bool, r: Rule, p: Packet, inverse: bool, ports: bool) {
    && AddrPortMatches(targetBased, r.sip, r.srcPorts, p, r.flags, Mode(!inverse, inverse, ports))
    && AddrPortMatches(targetBased, r.dip, r.dstPorts, p, r.flags, Mode(inverse, inverse, ports))
  }

  method CheckBidirectional(targetBased: bool, r: Rule, p: Packet, checkPorts: bool) returns (pass: bool)
    ensures pass <==> BothMatch(targetBased, r, p, false, checkPorts) || BothMatch(targetBased, r, p, true, checkPorts)
  {
    var ok := CheckAddrPort(targetBased, r.sip, r.srcPorts, p, r.flags, Mode(true, false, checkPorts));
    if ok {
      ok := CheckAddrPort(targetBased, r.dip, r.dstPorts, p, r.flags, Mode(false, false, checkPorts));
      if !ok {
        ok := CheckAddrPort(targetBased, r.dip, r.dstPorts, p, r.flags, Mode(true, true, checkPorts));
        if ok {
          ok := CheckAddrPort(targetBased, r.sip, r.srcPorts, p, r.flags, Mode(false, true, checkPorts));
          if !ok {
            return false;
          }
        } else {
          return false;
        }
      }
    } else {
      ok := CheckAddrPort(targetBased, r.dip, r.dstPorts, p, r.flags, Mode(true, true, checkPorts));
      if ok {
        ok := CheckAddrPort(targetBased, r.sip, r.srcPorts, p, r.flags, Mode(false, true, checkPorts));
        if !ok {
          return false;
        }
      } else {
        return false;
      }
    }
    return true;
  }

  // ---------------------------------------------------------- the chain of tests

  datatype Test = SrcIp | DstIp | SrcPortEq | SrcPortNotEq | DstPortEq | DstPortNotEq | Bidirectional | ListEnd

  /** What one test asks of the packet. */
  predicate Passes(targetBased: bool, t: Test, r: Rule, p: Packet, checkPorts: bool) {
    var skip := targetBased && !checkPorts;
    match t
    case SrcIp => Accepts(r.sip, p.src)
    case DstIp => Accepts(r.dip, p.dst)
    case SrcPortEq => skip || p.sp in r.srcPorts
    case SrcPortNotEq => skip || p.sp !in r.srcPorts
    case DstPortEq => skip || p.dp in r.dstPorts
    case DstPortNotEq => skip || p.dp !in r.dstPorts
    case Bidirectional =>
      BothMatch(targetBased, r, p, false, checkPorts) || BothMatch(targetBased, r, p, true, checkPorts)
    case ListEnd => true
  }

  /** A chain that can be run: it ends in the end test, or in the bidirectional
      one, which asks no further test. */
  predicate Runnable(chain: seq<Test>) {
    chain != [] && (chain[0] == ListEnd || chain[0] == Bidirectional || Runnable(chain[1..]))
  }

  /** The tests up to and including the one that ends the chain. */
  function Effective(chain: seq<Test>): (e: seq<Test>)
    requires Runnable(chain)
    ensures e <= chain
  {
    if chain[0] == ListEnd || chain[0] == Bidirectional then [chain[0]] else [chain[0]] + Effective(chain[1..])
  }

  predicate AllPass(targetBased: bool, tests: seq<Test>, r: Rule, p: Packet, checkPorts: bool) {
    forall t :: t in tests ==> Passes(targetBased, t, r, p, checkPorts)
  }

  lemma FirstAndOthers(targetBased: bool, chain: seq<Test>, r: Rule, p: Packet, checkPorts: bool)
    requires Runnable(chain)
    ensures AllPass(targetBased, Effective(chain), r, p, checkPorts) <==>
              && Passes(targetBased, chain[0], r, p, checkPorts)
              && (chain[0] == ListEnd || chain[0] == Bidirectional ||
                  AllPass(targetBased, Effective(chain[1..]), r, p, checkPorts))
  {
    var e := Effective(chain);
    assert e[0] == chain[0];
    if chain[0] != ListEnd && chain[0] != Bidirectional {
      assert e[1..] == Effective(chain[1..]);
      assert forall t :: t in e <==> t == e[0] || t in e[1..];
    }
  }

  /** Each test that passes calls the next one in the chain. */
  method RuleHeadFunc(targetBased: bool, chain: seq<Test>, r: Rule, p: Packet, checkPorts: bool) returns (pass: bool)
    requires Runnable(chain)
    ensures pass <==> AllPass(targetBased, Effective(chain), r, p, checkPorts)
    decreases |chain|
  {
    FirstAndOthers(targetBased, chain, r, p, checkPorts);
    match chain[0] {
      case ListEnd => return true;
      case Bidirectional =>
        pass := CheckBidirectional(targetBased, r, p, checkPorts);
        return;
      case SrcIp => pass := CheckIP(r.sip, p.src);
      case DstIp => pass := CheckIP(r.dip, p.dst);
      case SrcPortEq => pass := (targetBased && !checkPorts) || p.sp in r.srcPorts;
      case SrcPortNotEq => pass := (targetBased && !checkPorts) || p.sp !in r.srcPorts;
      case DstPortEq => pass := (targetBased && !checkPorts) || p.dp in r.dstPorts;
      case DstPortNotEq => pass := (targetBased && !checkPorts) || p.dp !in r.dstPorts;
    }
    if pass {
      pass := RuleHeadFunc(targetBased, chain[1..], r, p, checkPorts);
    }
  }

  /** The chain the parser sets up for the flags of a rule. */
  function ChainFor(f: Flags): seq<Test> {
    if f.bidirectional then [Bidirectional, ListEnd]
    else
      (if f.anyDstPort then [] else [if f.exceptDstPort then DstPortNotEq else DstPortEq]) +
      (if f.anySrcPort then [] else [if f.exceptSrcPort then SrcPortNotEq else SrcPortEq]) +
      (if f.anySrcIp then [] else [SrcIp]) +
      (if f.anyDstIp then [] else [DstIp]) +
      [ListEnd]
  }
}
