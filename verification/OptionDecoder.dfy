/** The option decoders and the packet fields they fill. */
module OptionDecoder {
  import opened Bytes
  import opened Options

  /** One entry of the decode table: the data pointer is an offset. */
  datatype Slot = Slot(code: byte, len: byte, data: Option<nat>)

  const OPT_TRUNC := -1
  const OPT_BADLEN := -2
  const WSCALE: byte := 3

  datatype Alert = WscaleInvalid | BadLength | Truncated | Experimental | Obsolete | Ttcp

  /** The length octet after the kind is present, within the bytes, and the
      expected one when there is an expectation. */
  predicate Accepts(d: seq<byte>, at: nat, expected: int) {
    && at + 1 < |d|
    && d[at + 1] >= 2
    && at + d[at + 1] <= |d|
    && (expected >= 0 ==> expected > 1 && d[at + 1] == expected)
  }

  /** The length octet is present and wrong whatever follows it. */
  predicate WrongLength(d: seq<byte>, at: nat, expected: int) {
    && at + 1 < |d|
    && (|| d[at + 1] == 0
        || expected == 0 || expected == 1
        || (1 < expected && at + expected <= |d| && d[at + 1] != expected)
        || (expected < 0 && d[at + 1] < 2))
  }

  // ------------------------------------------------- what the TCP walk reports

  predicate IsExperimental(kind: byte) {
    match kind
    case 0 | 1 | 2 | 3 | 4 | 5 | 6 | 7 | 8 | 11 | 12 | 13 | 16 | 17 | 25 => false
    case _ => true
  }

  predicate IsObsolete(kind: byte) {
    kind == 6 || kind == 7 || kind == 16 || kind == 17 || kind == 25
  }

  predicate IsTtcp(kind: byte) {
    kind == 13
  }

  datatype Seen = Seen(experimental: bool, obsolete: bool, ttcp: bool)

  function Noted(s: Seen, kind: byte): Seen {
    Seen(s.experimental || IsExperimental(kind), s.obsolete || IsObsolete(kind), s.ttcp || IsTtcp(kind))
  }

  /** Which classes of kind occur. */
  function SeenIn(found: seq<Found>): Seen {
    if found == [] then Seen(false, false, false)
    else Noted(SeenIn(found[..|found| - 1]), found[|found| - 1].opt.kind)
  }

  function WscaleAlert(o: Opt): seq<Alert> {
    if o.Sized? && o.kind == WSCALE && o.body != [] && o.body[0] > 14 then [WscaleInvalid] else []
  }

  /** One alert for each window scale above 14. */
  function WscaleAlerts(found: seq<Found>): seq<Alert> {
    if found == [] then []
    else WscaleAlerts(found[..|found| - 1]) + WscaleAlert(found[|found| - 1].opt)
  }

  /** At most one closing alert, for the gravest class of kind present. */
  function ClosingAlert(seen: Seen): seq<Alert> {
    if seen.experimental then [Experimental]
    else if seen.obsolete then [Obsolete]
    else if seen.ttcp then [Ttcp]
    else []
  }

  /** One more option: what it adds to the classes seen and to the alerts. */
  lemma SeenOneMore(got: seq<Found>, f: Found)
    ensures SeenIn(got + [f]) == Noted(SeenIn(got), f.opt.kind)
    ensures WscaleAlerts(got + [f]) == WscaleAlerts(got) + WscaleAlert(f.opt)
  {
    assert (got + [f])[..|got|] == got;
  }

  lemma {:induction false} SeenMeans(found: seq<Found>)
    ensures SeenIn(found).experimental <==> exists f :: f in found && IsExperimental(f.opt.kind)
    ensures SeenIn(found).obsolete <==> exists f :: f in found && IsObsolete(f.opt.kind)
    ensures SeenIn(found).ttcp <==> exists f :: f in found && IsTtcp(f.opt.kind)
  {
    if found != [] {
      var init, last := found[..|found| - 1], found[|found| - 1];
      SeenMeans(init);
      assert last in found;
      assert forall f :: f in found <==> f in init || f == last;
    }
  }

  /** Why the option at `at` was refused. A refused SACK is also called bad
      when the slot still holds a null pointer, which may be a left-over from
      an earlier packet. */
  function Refusal(d: seq<byte>, at: nat, slotWasNull: bool): Alert
    requires at < |d|
  {
    if WrongLength(d, at, TcpLength(d[at])) then BadLength
    else if d[at] == SACK && (slotWasNull || Accepts(d, at, -1)) then BadLength
    else Truncated
  }

  /** The pointer left over in the slot makes a difference iff the option is a
      SACK one that is not accepted, for another reason than a wrong length. */
  lemma RefusalDiffersIff(d: seq<byte>, at: nat)
    requires at < |d|
    ensures Refusal(d, at, true) != Refusal(d, at, false) <==>
              d[at] == SACK && !WrongLength(d, at, TcpLength(SACK)) && !Accepts(d, at, -1)
  {
  }

  /** A kind octet for SACK and nothing else: bad or truncated, as the slot was. */
  lemma LoneSack()
    ensures Refusal([SACK], 0, true) == BadLength && Refusal([SACK], 0, false) == Truncated
    ensures ScanTcp([SACK], 0) == Scan([], 0, false)
  {
    RefusalDiffersIff([SACK], 0);
  }

  lemma AcceptedIsHead(d: seq<byte>, at: nat)
    requires at < |d| && d[at] != EOL && d[at] != NOP
    ensures HeadOk(Ip, d, at) <==> Accepts(d, at, -1)
    ensures HeadOk(Tcp, d, at) <==> Accepts(d, at, TcpLength(d[at])) && (d[at] == SACK ==> d[at + 1] != 2)
  {
  }

  // ------------------------------------------------------- the decode table

  /** The table entry for an option. */
  function SlotOf(f: Found): Slot {
    match f.opt
    case Single(kind) => Slot(kind, 0, None)
    case Sized(kind, body) => Slot(kind, |body| % 256, if body == [] then None else Some(f.at + 2))
  }

  /** The head of the table records what was found. */
  ghost predicate Records(slots: seq<Slot>, found: seq<Found>) {
    && |found| <= |slots|
    && forall i :: 0 <= i < |found| ==> slots[i] == SlotOf(found[i])
  }

  ghost predicate TcpProgress(d: seq<byte>, pos: nat, got: seq<Found>, done: bool) {
    && |got| <= pos <= |d|
    && ScanTcp(d, 0) == Prefixed(got, if done then Scan([], pos, true) else ScanTcp(d, pos))
  }

  /** The classes seen and the alerts raised so far. */
  ghost predicate Noting(got: seq<Found>, wscaleAlerts: bool, seen: Seen, alerts: seq<Alert>) {
    seen == SeenIn(got) && alerts == if wscaleAlerts then WscaleAlerts(got) else []
  }

  lemma {:induction false} TcpStep(d: seq<byte>, pos: nat, got: seq<Found>)
    requires TcpProgress(d, pos, got, false) && pos < |d|
    ensures HeadOk(Tcp, d, pos) ==>
              TcpProgress(d, pos + Size(Tcp, d, pos), got + [Found(Head(Tcp, d, pos), pos)], d[pos] == EOL)
    ensures !HeadOk(Tcp, d, pos) ==> ScanTcp(d, 0) == Scan(got, pos, false)
  {
    if HeadOk(Tcp, d, pos) {
      var f, next := Found(Head(Tcp, d, pos), pos), pos + Size(Tcp, d, pos);
      var tail := if d[pos] == EOL then Scan([], next, true) else ScanTcp(d, next);
      assert got + ([f] + tail.found) == (got + [f]) + tail.found;
    } else {
      assert got + [] == got;
    }
  }

  /** In at most 40 octets the table is never what ends the walk. */
  lemma TcpEnd(d: seq<byte>, pos: nat, got: seq<Found>, done: bool)
    requires TcpProgress(d, pos, got, done) && |d| <= OPTMAX
    requires pos >= |d| || |got| >= OPTMAX || done
    ensures ScanTcp(d, 0) == Scan(got, pos, true)
  {
    assert got + [] == got;
  }

  ghost predicate IpProgress(d: seq<byte>, pos: nat, got: seq<Found>, done: bool) {
    && pos <= |d| && |got| <= OPTMAX
    && (done ==> |got| < OPTMAX)
    && ScanIp(d, 0, OPTMAX, false) == Prefixed(got, ScanIp(d, pos, OPTMAX - |got|, done))
  }

  lemma {:induction false} IpStep(d: seq<byte>, pos: nat, got: seq<Found>, done: bool)
    requires IpProgress(d, pos, got, done) && pos < |d| && |got| < OPTMAX
    ensures HeadOk(Ip, d, pos) ==>
              var done' := done || d[pos] == EOL;
              IpProgress(d, pos + Size(Ip, d, pos), if done' then got else got + [Found(Head(Ip, d, pos), pos)], done')
    ensures !HeadOk(Ip, d, pos) ==> ScanIp(d, 0, OPTMAX, false) == Scan(got, pos, false)
  {
    if HeadOk(Ip, d, pos) {
      if !done && d[pos] != EOL {
        var f, next := Found(Head(Ip, d, pos), pos), pos + Size(Ip, d, pos);
        var tail := ScanIp(d, next, OPTMAX - |got| - 1, false);
        assert got + ([f] + tail.found) == (got + [f]) + tail.found;
      }
    } else {
      assert got + [] == got;
    }
  }

  class Packet {
    const tcpOptions: array<Slot>
    const ipOptions: array<Slot>
    var tcpOptionCount: nat
    var ipOptionCount: nat
    /** Is `tcph` still set? */
    var hasTcp: bool

    constructor ()
      ensures fresh(tcpOptions) && fresh(ipOptions) && Valid() && ipOptionCount == 0
    {
      tcpOptions := new Slot[OPTMAX](_ => Slot(0, 0, None));
      ipOptions := new Slot[OPTMAX](_ => Slot(0, 0, None));
      tcpOptionCount, ipOptionCount, hasTcp := 0, 0, true;
    }

    ghost predicate Valid()
      reads this
    {
      tcpOptions.Length == OPTMAX && ipOptions.Length == OPTMAX && tcpOptions != ipOptions
    }

    /** Validates the length of the option at `at` and fills the rest of its
        slot; on failure neither the slot nor the position moves. */
    method OptLenValidate(d: seq<byte>, at: nat, lenPtr: Option<nat>, expected: int, slots: array<Slot>, i: nat)
      returns (code: int, byteSkip: byte)
      requires at < |d| && i < slots.Length
      requires lenPtr == if at + 1 < |d| then Some(at + 1) else None
      modifies slots
      ensures code == 0 || code == OPT_TRUNC || code == OPT_BADLEN
      ensures code == 0 <==> Accepts(d, at, expected)
      ensures code == OPT_BADLEN <==> WrongLength(d, at, expected)
      ensures code == 0 ==> byteSkip == d[at + 1]
      ensures code == 0 ==>
                slots[i] == Slot(old(slots[i].code), d[at + 1] - 2, if d[at + 1] == 2 then None else Some(at + 2))
      ensures code != 0 ==> byteSkip == 0 && slots[i] == old(slots[i])
      ensures forall j :: 0 <= j < slots.Length && j != i ==> slots[j] == old(slots[j])
    {
      byteSkip := 0;
      if lenPtr.None? {
        return OPT_TRUNC, byteSkip;
      }
      var len := d[lenPtr.value];
      if len == 0 || expected == 0 || expected == 1 {
        return OPT_BADLEN, byteSkip;
      } else if expected > 1 {
        if at + expected > |d| {
          return OPT_TRUNC, byteSkip;
        }
        if len != expected {
          return OPT_BADLEN, byteSkip;
        }
      } else {
        if len < 2 {
          return OPT_BADLEN, byteSkip;
        }
        if at + len > |d| {
          return OPT_TRUNC, byteSkip;
        }
      }
      slots[i] := slots[i].(len := len - 2);
      if len == 2 {
        slots[i] := slots[i].(data := None);
      } else {
        slots[i] := slots[i].(data := Some(at + 2));
      }
      byteSkip := len;
      code := 0;
    }

    /** The switch of the TCP walk: reads the option at `at` into slot `i`. */
    method ReadTcpOption(d: seq<byte>, at: nat, i: nat) returns (code: int, byteSkip: byte)
      requires Valid() && at < |d| && i < OPTMAX
      modifies tcpOptions
      ensures code == 0 || code == OPT_TRUNC || code == OPT_BADLEN
      ensures code == 0 <==> HeadOk(Tcp, d, at)
      ensures code == 0 ==>
                byteSkip == Size(Tcp, d, at) && tcpOptions[i] == SlotOf(Found(Head(Tcp, d, at), at))
      ensures code != 0 ==>
                (code == OPT_BADLEN <==> Refusal(d, at, old(tcpOptions[i].data.None?)) == BadLength)
      ensures forall j :: 0 <= j < OPTMAX && j != i ==> tcpOptions[j] == old(tcpOptions[j])
    {
      var kind := d[at];
      var lenPtr := if at + 1 < |d| then Some(at + 1) else None;
      tcpOptions[i] := tcpOptions[i].(code := kind);
      if kind == EOL || kind == NOP {
        tcpOptions[i] := tcpOptions[i].(len := 0, data := None);
        code, byteSkip := 0, 1;
      } else {
        code, byteSkip := OptLenValidate(d, at, lenPtr, TcpLength(kind), tcpOptions, i);
        if kind == SACK && tcpOptions[i].data.None? {
          code := OPT_BADLEN;
        }
        AcceptedIsHead(d, at);
      }
    }

    /** The switch of the IPv4 walk. */
    method ReadIpOption(d: seq<byte>, at: nat, i: nat) returns (code: int, byteSkip: byte)
      requires Valid() && at < |d| && i < OPTMAX
      modifies ipOptions
      ensures code == 0 || code == OPT_TRUNC || code == OPT_BADLEN
      ensures code == 0 <==> HeadOk(Ip, d, at)
      ensures code == 0 ==>
                byteSkip == Size(Ip, d, at) && ipOptions[i] == SlotOf(Found(Head(Ip, d, at), at))
      ensures code == OPT_BADLEN ==> WrongLength(d, at, -1)
      ensures code == OPT_TRUNC ==> !WrongLength(d, at, -1)
      ensures forall j :: 0 <= j < OPTMAX && j != i ==> ipOptions[j] == old(ipOptions[j])
    {
      var kind := d[at];
      var lenPtr := if at + 1 < |d| then Some(at + 1) else None;
      ipOptions[i] := ipOptions[i].(code := kind);
      if kind == EOL || kind == NOP {
        ipOptions[i] := ipOptions[i].(len := 0, data := None);
        code, byteSkip := 0, 1;
      } else {
        code, byteSkip := OptLenValidate(d, at, lenPtr, -1, ipOptions, i);
        AcceptedIsHead(d, at);
      }
    }

    /** Notes the class of the option at `at`, and a window scale too large. */
    method NoteTcpOption(d: seq<byte>, at: nat, code: int, wscaleAlerts: bool, seen: Seen, alerts: seq<Alert>,
                         ghost got: seq<Found>)
      returns (seen': Seen, alerts': seq<Alert>)
      requires at < |d| && (code == 0 <==> HeadOk(Tcp, d, at))
      requires Noting(got, wscaleAlerts, seen, alerts)
      ensures code == 0 ==> Noting(got + [Found(Head(Tcp, d, at), at)], wscaleAlerts, seen', alerts')
      ensures code != 0 ==> alerts' == alerts
    {
      var kind := d[at];
      seen' := Seen(seen.experimental || IsExperimental(kind), seen.obsolete || IsObsolete(kind),
                    seen.ttcp || IsTtcp(kind));
      alerts' := alerts;
      if kind == WSCALE && code == 0 {
        if d[at + 2] > 14 && wscaleAlerts {
          alerts' := alerts' + [WscaleInvalid];
        }
      }
      if code == 0 {
        SeenOneMore(got, Found(Head(Tcp, d, at), at));
      }
    }

    /** One turn of the TCP loop: reads the option at `at` into slot `i`. */
    method TurnTCPOption(d: seq<byte>, at: nat, i: nat, wscaleAlerts: bool, seen: Seen, alerts: seq<Alert>,
                         ghost got: seq<Found>)
      returns (code: int, byteSkip: byte, seen': Seen, alerts': seq<Alert>)
      requires Valid() && at < |d| && i == |got| < OPTMAX
      requires TcpProgress(d, at, got, false) && Noting(got, wscaleAlerts, seen, alerts)
      modifies tcpOptions
      ensures code >= 0 ==>
                && HeadOk(Tcp, d, at) && byteSkip == Size(Tcp, d, at)
                && tcpOptions[i] == SlotOf(Found(Head(Tcp, d, at), at))
                && TcpProgress(d, at + byteSkip, got + [Found(Head(Tcp, d, at), at)], d[at] == EOL)
                && Noting(got + [Found(Head(Tcp, d, at), at)], wscaleAlerts, seen', alerts')
      ensures code < 0 ==>
                && ScanTcp(d, 0) == Scan(got, at, false) && alerts' == alerts
                && (code == OPT_BADLEN <==> Refusal(d, at, old(tcpOptions[i].data.None?)) == BadLength)
      ensures forall j :: 0 <= j < OPTMAX && j != i ==> tcpOptions[j] == old(tcpOptions[j])
    {
      code, byteSkip := ReadTcpOption(d, at, i);
      seen', alerts' := NoteTcpOption(d, at, code, wscaleAlerts, seen, alerts, got);
      TcpStep(d, at, got);
    }

    /** The loop of the TCP decoder: fills the table with the options found up to
        the end, an end-of-list, or a bad option at `pos`. */
    method WalkTCPOptions(d: seq<byte>, wscaleAlerts: bool)
      returns (alerts: seq<Alert>, seen: Seen, optCount: nat, code: int, ghost got: seq<Found>, ghost pos: nat)
      requires Valid() && |d| <= OPTMAX
      modifies tcpOptions
      ensures ScanTcp(d, 0) == Scan(got, pos, code >= 0) && optCount == |got| <= OPTMAX
      ensures alerts == (if wscaleAlerts then WscaleAlerts(got) else []) && (code >= 0 ==> seen == SeenIn(got))
      ensures forall i :: 0 <= i < optCount ==> tcpOptions[i] == SlotOf(got[i])
      ensures forall i :: optCount <= i < OPTMAX && (code >= 0 || i > optCount) ==> tcpOptions[i] == old(tcpOptions[i])
      ensures code < 0 ==>
                && pos < |d| && optCount < OPTMAX
                && (code == OPT_BADLEN <==> Refusal(d, pos, old(tcpOptions[optCount].data.None?)) == BadLength)
    {
      alerts, seen, optCount, code := [], Seen(false, false, false), 0, 2;
      var optionPtr, done := 0, false;
      got, pos := [], 0;
      while optionPtr < |d| && optCount < OPTMAX && code >= 0 && !done
        invariant code >= 0 && pos == optionPtr && optCount == |got| <= OPTMAX
        invariant TcpProgress(d, optionPtr, got, done)
        invariant Noting(got, wscaleAlerts, seen, alerts)
        invariant forall i :: 0 <= i < optCount ==> tcpOptions[i] == SlotOf(got[i])
        invariant forall i :: optCount <= i < OPTMAX ==> tcpOptions[i] == old(tcpOptions[i])
        decreases |d| - optionPtr
      {
        var byteSkip;
        code, byteSkip, seen, alerts := TurnTCPOption(d, optionPtr, optCount, wscaleAlerts, seen, alerts, got);
        if code < 0 {
          return;
        }
        done := d[optionPtr] == EOL;
        got := got + [Found(Head(Tcp, d, optionPtr), optionPtr)];
        optCount := optCount + 1;
        optionPtr := optionPtr + byteSkip;
        pos := optionPtr;
      }
      TcpEnd(d, optionPtr, got, done);
    }

    /** Decodes TCP options. The count is that of the well-formed options, the
        table records them back to back, and the alerts follow. */
    method DecodeTCPOptions(d: seq<byte>, wscaleAlerts: bool) returns (alerts: seq<Alert>)
      requires Valid()
      modifies this`tcpOptionCount, this`hasTcp, tcpOptions
      ensures Valid()
      ensures hasTcp == (old(hasTcp) && |d| <= OPTMAX)
      ensures |d| > OPTMAX ==>
                alerts == [] && tcpOptionCount == old(tcpOptionCount) && tcpOptions[..] == old(tcpOptions[..])
      ensures |d| <= OPTMAX ==>
                var s := ScanTcp(d, 0);
                && tcpOptionCount == |s.found|
                && Records(tcpOptions[..], s.found)
                && forall i :: |s.found| <= i < OPTMAX && (s.ok || i > |s.found|) ==>
                                 tcpOptions[i] == old(tcpOptions[i])
      ensures |d| <= OPTMAX ==>
                var s := ScanTcp(d, 0);
                if s.ok then
                  alerts == (if wscaleAlerts then WscaleAlerts(s.found) else []) + ClosingAlert(SeenIn(s.found))
                else
                  && s.end < |d| && |s.found| < OPTMAX
                  && alerts == (if wscaleAlerts then WscaleAlerts(s.found) else [])
                               + [Refusal(d, s.end, old(tcpOptions[|ScanTcp(d, 0).found|]).data.None?)]
    {
      alerts := [];
      if |d| > OPTMAX {
        hasTcp := false;
        return;
      }
      var seen, optCount, code;
      ghost var got, pos;
      alerts, seen, optCount, code, got, pos := WalkTCPOptions(d, wscaleAlerts);
      tcpOptionCount := optCount;
      if code < 0 {
        alerts := alerts + [if code == OPT_BADLEN then BadLength else Truncated];
        return;
      }
      alerts := alerts + ClosingAlert(seen);
    }

    /** Decodes IPv4 options. On success the table records the options before
        the first end-of-list and the count is theirs; on a malformed option
        the previous count stays. */
    method DecodeIPOptions(d: seq<byte>) returns (alerts: seq<Alert>)
      requires Valid()
      modifies this`ipOptionCount, ipOptions
      ensures Valid()
      ensures var s := ScanIp(d, 0, OPTMAX, false);
              && |s.found| <= OPTMAX
              && ipOptionCount == (if s.ok then |s.found| else old(ipOptionCount))
              && Records(ipOptions[..], s.found)
              && forall i :: |s.found| < i < OPTMAX ==> ipOptions[i] == old(ipOptions[i])
      ensures var s := ScanIp(d, 0, OPTMAX, false);
              if s.ok then alerts == []
              else s.end < |d| && alerts == [if WrongLength(d, s.end, -1) then BadLength else Truncated]
    {
      alerts := [];
      var optionPtr, optCount, done, code := 0, 0, false, 0;
      ghost var got: seq<Found> := [];
      while optionPtr < |d| && optCount < OPTMAX && code >= 0
        invariant code >= 0 && optCount == |got| <= OPTMAX
        invariant IpProgress(d, optionPtr, got, done)
        invariant Records(ipOptions[..], got)
        invariant forall i :: optCount < i < OPTMAX ==> ipOptions[i] == old(ipOptions[i])
        invariant alerts == [] && ipOptionCount == old(ipOptionCount)
        decreases |d| - optionPtr
      {
        var byteSkip;
        code, byteSkip := ReadIpOption(d, optionPtr, optCount);
        IpStep(d, optionPtr, got, done);
        if d[optionPtr] == EOL {
          done := true;
        }
        if code < 0 {
          alerts := [if code == OPT_BADLEN then BadLength else Truncated];
          return;
        }
        if !done {
          ghost var f := Found(Head(Ip, d, optionPtr), optionPtr);
          got := got + [f];
          optCount := optCount + 1;
        }
        optionPtr := optionPtr + byteSkip;
      }
      assert got + [] == got;
      ipOptionCount := optCount;
    }

    /** The options of one IPv4 header; without any the count is cleared. */
    method DecodeHeaderOptions(d: seq<byte>)
      requires Valid()
      modifies this`ipOptionCount, ipOptions
      ensures Valid()
      ensures ipOptionCount == if IpOk(d) then IpCount(d) else old(ipOptionCount)
    {
      if |d| > 0 {
        var alerts := DecodeIPOptions(d);
      } else {
        ipOptionCount := 0;
      }
    }
  }

  // ------------------------------------------------- the count that is left over

  predicate IpOk(d: seq<byte>) {
    ScanIp(d, 0, OPTMAX, false).ok
  }

  function IpCount(d: seq<byte>): nat {
    |ScanIp(d, 0, OPTMAX, false).found|
  }

  /** A packet with two IPv4 headers: the count is that of the options of the
      inner one, unless these are malformed. Then it is that of the outer one. */
  method DecodeTunnelOptions(outer: seq<byte>, inner: seq<byte>) returns (count: nat)
    ensures count == if IpOk(inner) then IpCount(inner) else if IpOk(outer) then IpCount(outer) else 0
  {
    var p := new Packet();
    p.DecodeHeaderOptions(outer);
    p.DecodeHeaderOptions(inner);
    count := p.ipOptionCount;
  }

  /** Four one-octet options outside, and inside one whose length octet is zero:
      four options are counted where the inner header has none that is sound. */
  lemma LeftOverCount()
    ensures IpOk([NOP, NOP, NOP, NOP]) && IpCount([NOP, NOP, NOP, NOP]) == 4
    ensures !IpOk([0x44, 0, 0, 0]) && IpCount([0x44, 0, 0, 0]) == 0
  {
    var d := [NOP, NOP, NOP, NOP];
    assert ScanIp(d, 4, 36, false) == Scan([], 4, true);
    ScanIpStep(d, 3, 37, Single(NOP), 4, Scan([], 4, true));
    ScanIpStep(d, 2, 38, Single(NOP), 3, ScanIp(d, 3, 37, false));
    ScanIpStep(d, 1, 39, Single(NOP), 2, ScanIp(d, 2, 38, false));
    ScanIpStep(d, 0, 40, Single(NOP), 1, ScanIp(d, 1, 39, false));
  }
}
