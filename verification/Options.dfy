/** TCP and IPv4 options: their encoding, and what a decoder should find in a
    run of option bytes. Both dialects share the layout kind, length, body,
    with two one-byte kinds. */
module Options {
  import opened Bytes

  const EOL: byte := 0
  const NOP: byte := 1
  const SACK: byte := 5
  const OPTMAX := 40

  datatype Dialect = Tcp | Ip

  /** One option as its sender means it. */
  datatype Opt = Single(kind: byte) | Sized(kind: byte, body: seq<byte>)

  /** The length octet a TCP kind must carry, or -1 when it may vary. */
  function TcpLength(kind: byte): int {
    match kind
    case 2 => 4
    case 3 => 3
    case 4 => 2
    case 6 => 6
    case 7 => 6
    case 8 => 10
    case 11 => 6
    case 12 => 6
    case 13 => 6
    case 18 => 3
    case 19 => 18
    case _ => -1
  }

  /** May an option of this kind carry the length octet `n`? */
  predicate Fits(dialect: Dialect, kind: byte, n: int) {
    && 2 <= n < 256
    && (dialect.Tcp? ==> (TcpLength(kind) > 0 ==> n == TcpLength(kind)) && (kind == SACK ==> n > 2))
  }

  predicate WellFormed(dialect: Dialect, o: Opt) {
    match o
    case Single(kind) => kind == EOL || kind == NOP
    case Sized(kind, body) => kind != EOL && kind != NOP && Fits(dialect, kind, |body| + 2)
  }

  predicate AllWellFormed(dialect: Dialect, opts: seq<Opt>) {
    opts == [] || (WellFormed(dialect, opts[0]) && AllWellFormed(dialect, opts[1..]))
  }

  /** The bytes of an option; a well-formed one is short enough for its length
      octet. */
  function Encode(o: Opt): (s: seq<byte>)
    ensures |s| == if o.Single? then 1 else |o.body| + 2
  {
    match o
    case Single(kind) => [kind]
    case Sized(kind, body) => [kind, (|body| + 2) % 256] + body
  }

  function EncodeAll(opts: seq<Opt>): seq<byte> {
    if opts == [] then [] else Encode(opts[0]) + EncodeAll(opts[1..])
  }

  // ------------------------------------------------------- one option at a time

  /** Does a well-formed option stand at offset `at`? */
  predicate HeadOk(dialect: Dialect, d: seq<byte>, at: nat)
    requires at < |d|
  {
    || d[at] == EOL
    || d[at] == NOP
    || (at + 1 < |d| && Fits(dialect, d[at], d[at + 1]) && at + d[at + 1] <= |d|)
  }

  function Size(dialect: Dialect, d: seq<byte>, at: nat): (n: nat)
    requires at < |d| && HeadOk(dialect, d, at)
    ensures 0 < n && at + n <= |d|
  {
    if d[at] == EOL || d[at] == NOP then 1 else d[at + 1]
  }

  function Head(dialect: Dialect, d: seq<byte>, at: nat): Opt
    requires at < |d| && HeadOk(dialect, d, at)
  {
    if d[at] == EOL || d[at] == NOP then Single(d[at]) else Sized(d[at], d[at + 2..at + d[at + 1]])
  }

  lemma SizedStands(d: seq<byte>, at: nat, body: seq<byte>)
    requires at + 2 + |body| <= |d| && d[at + 1] as int == |body| + 2 && body == d[at + 2..at + 2 + |body|]
    ensures StandsAt(d, at, Encode(Sized(d[at], body)))
  {
  }

  lemma HeadIsThere(dialect: Dialect, d: seq<byte>, at: nat)
    requires at < |d| && HeadOk(dialect, d, at)
    ensures WellFormed(dialect, Head(dialect, d, at))
    ensures StandsAt(d, at, Encode(Head(dialect, d, at)))
    ensures |Encode(Head(dialect, d, at))| == Size(dialect, d, at)
  {
    if d[at] != EOL && d[at] != NOP {
      SizedStands(d, at, Head(dialect, d, at).body);
    }
  }

  /** The head is decided by the bytes alone: an encoded option reads back. */
  lemma HeadOfEncoded(dialect: Dialect, d: seq<byte>, at: nat, o: Opt)
    requires WellFormed(dialect, o) && StandsAt(d, at, Encode(o))
    ensures at < |d| && HeadOk(dialect, d, at) && Head(dialect, d, at) == o
    ensures Size(dialect, d, at) == |Encode(o)|
  {
    var s := Encode(o);
    assert s[0] == d[at];
    if o.Sized? {
      assert s[1] == d[at + 1];
      assert s[2..] == o.body;
      StandsAtSlice(d, at, s);
      assert d[at + 2..at + |s|] == s[2..];
    }
  }

  function Pieces(opts: seq<Opt>): seq<seq<byte>> {
    if opts == [] then [] else [Encode(opts[0])] + Pieces(opts[1..])
  }

  lemma {:induction false} EncodedIsConcat(opts: seq<Opt>)
    ensures EncodeAll(opts) == Concat(Pieces(opts))
  {
    if opts != [] {
      EncodedIsConcat(opts[1..]);
    }
  }

  /** The options `opts` read back, one behind the other, from `at` up to `end`. */
  predicate ReadsAs(dialect: Dialect, d: seq<byte>, at: nat, opts: seq<Opt>, end: nat)
    decreases |opts|
  {
    || (opts == [] && at == end <= |d|)
    || (&& opts != [] && at < |d|
        && HeadOk(dialect, d, at)
        && Head(dialect, d, at) == opts[0]
        && ReadsAs(dialect, d, at + Size(dialect, d, at), opts[1..], end))
  }

  lemma ReadsOn(dialect: Dialect, d: seq<byte>, at: nat, o: Opt, opts: seq<Opt>, end: nat)
    requires opts != [] && opts[0] == o && at < |d| && HeadOk(dialect, d, at) && Head(dialect, d, at) == o
    requires ReadsAs(dialect, d, at + Size(dialect, d, at), opts[1..], end)
    ensures ReadsAs(dialect, d, at, opts, end)
  {
  }

  lemma {:induction false} StandingReads(dialect: Dialect, d: seq<byte>, at: nat, opts: seq<Opt>,
                                         pieces: seq<seq<byte>>, end: nat)
    requires AllWellFormed(dialect, opts) && pieces == Pieces(opts) && InTurn(d, at, pieces, end)
    ensures ReadsAs(dialect, d, at, opts, end)
    decreases |opts|
  {
    if opts != [] {
      var o := opts[0];
      assert pieces[0] == Encode(o) && pieces[1..] == Pieces(opts[1..]);
      StandingReads(dialect, d, at + |Encode(o)|, opts[1..], pieces[1..], end);
      HeadOfEncoded(dialect, d, at, o);
      ReadsOn(dialect, d, at, o, opts, end);
    }
  }

  /** Encoded options read back, all of them. */
  lemma {:induction false} EncodedReads(dialect: Dialect, d: seq<byte>, at: nat, opts: seq<Opt>, all: seq<byte>)
    requires AllWellFormed(dialect, opts) && all == EncodeAll(opts) && StandsAt(d, at, all)
    ensures ReadsAs(dialect, d, at, opts, at + |all|)
  {
    EncodedIsConcat(opts);
    ConcatInTurn(d, at, Pieces(opts), all);
    StandingReads(dialect, d, at, opts, Pieces(opts), at + |all|);
  }

  // -------------------------------------------------------- what a walk finds

  datatype Found = Found(opt: Opt, at: nat)

  /** The options found and where, where the walk stopped, and whether well. */
  datatype Scan = Scan(found: seq<Found>, end: nat, ok: bool)

  /** What was found before, put in front. */
  function Prefixed(got: seq<Found>, s: Scan): Scan {
    Scan(got + s.found, s.end, s.ok)
  }

  function ScanTcp(d: seq<byte>, at: nat): Scan
    requires at <= |d|
    decreases |d| - at
  {
    if at == |d| then Scan([], at, true)
    else if !HeadOk(Tcp, d, at) then Scan([], at, false)
    else
      var next := at + Size(Tcp, d, at);
      Prefixed([Found(Head(Tcp, d, at), at)],
               if d[at] == EOL then Scan([], next, true) else ScanTcp(d, next))
  }

  /** The IPv4 walk with `room` slots left. After an end-of-list it goes on
      validating but records nothing. */
  function ScanIp(d: seq<byte>, at: nat, room: nat, done: bool): Scan
    requires at <= |d|
    decreases |d| - at
  {
    if at == |d| || room == 0 then Scan([], at, true)
    else if !HeadOk(Ip, d, at) then Scan([], at, false)
    else
      var done' := done || d[at] == EOL;
      var rest := ScanIp(d, at + Size(Ip, d, at), if done' then room else room - 1, done');
      if done' then rest else Prefixed([Found(Head(Ip, d, at), at)], rest)
  }

  function OptsOf(found: seq<Found>): (opts: seq<Opt>)
    ensures |opts| == |found|
  {
    if found == [] then [] else [found[0].opt] + OptsOf(found[1..])
  }

  /** The options lie back to back from `at` to `end`, each one well-formed
      and encoded at its place. */
  predicate Tile(dialect: Dialect, d: seq<byte>, at: nat, found: seq<Found>, end: nat)
    decreases |found|
  {
    if found == [] then end == at
    else
      && found[0].at == at
      && WellFormed(dialect, found[0].opt)
      && StandsAt(d, at, Encode(found[0].opt))
      && Tile(dialect, d, at + |Encode(found[0].opt)|, found[1..], end)
  }

  /** Tiling means that the stretch is the encoding of the list. */
  lemma {:induction false} TileIsEncoding(dialect: Dialect, d: seq<byte>, at: nat, found: seq<Found>, end: nat)
    requires Tile(dialect, d, at, found, end)
    ensures at <= end && (found != [] ==> end <= |d|)
    ensures AllWellFormed(dialect, OptsOf(found))
    ensures at <= |d| ==> StandsAt(d, at, EncodeAll(OptsOf(found))) && end == at + |EncodeAll(OptsOf(found))|
    decreases |found|
  {
    if found != [] {
      var head, tail := Encode(found[0].opt), OptsOf(found[1..]);
      TileIsEncoding(dialect, d, at + |head|, found[1..], end);
      assert OptsOf(found)[1..] == tail;
      StandsAtConcat(d, at, head, EncodeAll(tail));
    }
  }

  /** End-of-list may only come last. */
  predicate EolOnlyLast(opts: seq<Opt>) {
    |opts| <= 1 || (opts[0] != Single(EOL) && EolOnlyLast(opts[1..]))
  }

  predicate EndsWithEol(opts: seq<Opt>) {
    opts != [] && if |opts| == 1 then opts[0] == Single(EOL) else EndsWithEol(opts[1..])
  }

  // ----------------------------------------------------------- the TCP dialect

  /** What the TCP walk finds tiles a prefix of the bytes, and it stops well
      only at the end or on end-of-list. */
  lemma {:induction false} ScanTcpTiles(d: seq<byte>, at: nat)
    requires at <= |d|
    ensures var s := ScanTcp(d, at);
            && Tile(Tcp, d, at, s.found, s.end)
            && s.end <= |d|
            && EolOnlyLast(OptsOf(s.found))
            && (s.ok <==> s.end == |d| || EndsWithEol(OptsOf(s.found)))
    decreases |d| - at
  {
    if at < |d| && HeadOk(Tcp, d, at) {
      HeadIsThere(Tcp, d, at);
      var o, next := Head(Tcp, d, at), at + Size(Tcp, d, at);
      var tail := if d[at] == EOL then Scan([], next, true) else ScanTcp(d, next);
      if d[at] != EOL {
        ScanTcpTiles(d, next);
        TailOfList(Found(o, at), tail.found);
      }
      TileCons(Tcp, d, at, o, next, tail.found, tail.end);
    }
  }

  lemma TailOfList(f: Found, tail: seq<Found>)
    requires f.opt != Single(EOL)
    ensures EolOnlyLast(OptsOf([f] + tail)) <==> EolOnlyLast(OptsOf(tail))
    ensures EndsWithEol(OptsOf([f] + tail)) <==> EndsWithEol(OptsOf(tail))
  {
    assert ([f] + tail)[1..] == tail;
    assert ([f.opt] + OptsOf(tail))[1..] == OptsOf(tail);
  }

  /** Where the walk stops badly, no well-formed option whatsoever starts. */
  lemma {:induction false} ScanTcpStopsAtBad(d: seq<byte>, at: nat, o: Opt)
    requires at <= |d| && !ScanTcp(d, at).ok && WellFormed(Tcp, o)
    ensures ScanTcp(d, at).end < |d| && !StandsAt(d, ScanTcp(d, at).end, Encode(o))
    decreases |d| - at
  {
    if HeadOk(Tcp, d, at) {
      ScanTcpStopsAtBad(d, at + Size(Tcp, d, at), o);
    } else if StandsAt(d, at, Encode(o)) {
      HeadOfEncoded(Tcp, d, at, o);
    }
  }

  /** Where each option of a list goes when encoding starts at `at`. */
  function Place(opts: seq<Opt>, at: nat): seq<Found> {
    if opts == [] then [] else [Found(opts[0], at)] + Place(opts[1..], at + |Encode(opts[0])|)
  }

  /** One option read, the others still to be found. */
  lemma ScanTcpStep(d: seq<byte>, at: nat, o: Opt, next: nat, tail: Scan)
    requires at < |d| && HeadOk(Tcp, d, at) && Head(Tcp, d, at) == o && next == at + Size(Tcp, d, at)
    requires tail == if o == Single(EOL) then Scan([], next, true) else ScanTcp(d, next)
    ensures ScanTcp(d, at) == Prefixed([Found(o, at)], tail)
  {
  }

  lemma EolTail(opts: seq<Opt>)
    requires EolOnlyLast(opts) && opts != []
    ensures EolOnlyLast(opts[1..])
    ensures opts[0] == Single(EOL) ==> opts[1..] == []
    ensures EndsWithEol(opts) && opts[0] != Single(EOL) ==> EndsWithEol(opts[1..])
  {
  }

  lemma SizeIsEncoded(dialect: Dialect, d: seq<byte>, at: nat)
    requires at < |d| && HeadOk(dialect, d, at)
    ensures Size(dialect, d, at) == |Encode(Head(dialect, d, at))|
  {
  }

  lemma ReadsTail(dialect: Dialect, d: seq<byte>, at: nat, opts: seq<Opt>, end: nat, next: nat)
    requires ReadsAs(dialect, d, at, opts, end) && opts != []
    requires at < |d| && HeadOk(dialect, d, at) && next == at + Size(dialect, d, at)
    ensures Head(dialect, d, at) == opts[0] && next == at + |Encode(opts[0])|
    ensures ReadsAs(dialect, d, next, opts[1..], end)
  {
    SizeIsEncoded(dialect, d, at);
  }

  lemma {:induction false} ScanTcpReads(d: seq<byte>, at: nat, opts: seq<Opt>, end: nat)
    requires ReadsAs(Tcp, d, at, opts, end) && EolOnlyLast(opts) && (end == |d| || EndsWithEol(opts))
    ensures ScanTcp(d, at) == Scan(Place(opts, at), end, true)
    decreases |opts|
  {
    if opts != [] {
      var o, tail, next := opts[0], opts[1..], at + Size(Tcp, d, at);
      ReadsTail(Tcp, d, at, opts, end, next);
      EolTail(opts);
      if o == Single(EOL) {
        ScanTcpStep(d, at, o, next, Scan([], next, true));
      } else {
        ScanTcpReads(d, next, tail, end);
        ScanTcpStep(d, at, o, next, Scan(Place(tail, next), end, true));
      }
    }
  }

  /** Decoding an encoded option list returns that list; whatever follows an
      end-of-list is left alone. */
  lemma {:induction false} ScanTcpEncoded(d: seq<byte>, at: nat, opts: seq<Opt>)
    requires AllWellFormed(Tcp, opts) && EolOnlyLast(opts)
    requires StandsAt(d, at, EncodeAll(opts))
    requires at + |EncodeAll(opts)| == |d| || EndsWithEol(opts)
    ensures ScanTcp(d, at) == Scan(Place(opts, at), at + |EncodeAll(opts)|, true)
  {
    var end := at + |EncodeAll(opts)|;
    EncodedReads(Tcp, d, at, opts, EncodeAll(opts));
    ScanTcpReads(d, at, opts, end);
  }

  // ---------------------------------------------------------- the IPv4 dialect

  /** The options before the first end-of-list. */
  function BeforeEol(opts: seq<Opt>): (r: seq<Opt>)
    ensures |r| <= |opts|
  {
    if opts == [] || opts[0] == Single(EOL) then [] else [opts[0]] + BeforeEol(opts[1..])
  }

  /** It is the longest prefix without an end-of-list. */
  lemma {:induction false} BeforeEolIsPrefix(opts: seq<Opt>)
    ensures BeforeEol(opts) <= opts && Single(EOL) !in BeforeEol(opts)
    ensures BeforeEol(opts) == opts || opts[|BeforeEol(opts)|] == Single(EOL)
  {
    if opts != [] && opts[0] != Single(EOL) {
      BeforeEolIsPrefix(opts[1..]);
    }
  }

  /** Where the options before the first end-of-list go. */
  function PlaceToEol(opts: seq<Opt>, at: nat): seq<Found> {
    if opts == [] || opts[0] == Single(EOL) then []
    else [Found(opts[0], at)] + PlaceToEol(opts[1..], at + |Encode(opts[0])|)
  }

  lemma {:induction false} PlaceToEolIsPlace(opts: seq<Opt>, at: nat)
    ensures PlaceToEol(opts, at) == Place(BeforeEol(opts), at)
  {
    if opts != [] && opts[0] != Single(EOL) {
      PlaceToEolIsPlace(opts[1..], at + |Encode(opts[0])|);
      assert BeforeEol(opts)[1..] == BeforeEol(opts[1..]);
    }
  }

  lemma ScanDoneStep(d: seq<byte>, at: nat, room: nat, next: nat)
    requires at < |d| && HeadOk(Ip, d, at) && next == at + Size(Ip, d, at) && room > 0
    ensures ScanIp(d, at, room, true) == ScanIp(d, next, room, true)
  {
  }

  lemma {:induction false} DoneReads(d: seq<byte>, at: nat, opts: seq<Opt>, room: nat)
    requires ReadsAs(Ip, d, at, opts, |d|) && room > 0
    ensures ScanIp(d, at, room, true) == Scan([], |d|, true)
    decreases |opts|
  {
    if opts != [] {
      var next := at + Size(Ip, d, at);
      DoneReads(d, next, opts[1..], room);
      ScanDoneStep(d, at, room, next);
    }
  }

  /** One option read, the others still to be found. */
  lemma ScanIpStep(d: seq<byte>, at: nat, room: nat, o: Opt, next: nat, rest: Scan)
    requires at < |d| && HeadOk(Ip, d, at) && Head(Ip, d, at) == o && next == at + Size(Ip, d, at) && room > 0
    requires rest == ScanIp(d, next, if o == Single(EOL) then room else room - 1, o == Single(EOL))
    ensures ScanIp(d, at, room, false) == if o == Single(EOL) then rest else Prefixed([Found(o, at)], rest)
  {
  }

  lemma {:induction false} ScanIpReads(d: seq<byte>, at: nat, opts: seq<Opt>, room: nat)
    requires ReadsAs(Ip, d, at, opts, |d|) && |d| <= at + room
    ensures ScanIp(d, at, room, false) == Scan(PlaceToEol(opts, at), |d|, true)
    decreases |opts|
  {
    if opts != [] {
      var o, tail, next := opts[0], opts[1..], at + Size(Ip, d, at);
      ReadsTail(Ip, d, at, opts, |d|, next);
      if o == Single(EOL) {
        DoneReads(d, next, tail, room);
        ScanIpStep(d, at, room, o, next, Scan([], |d|, true));
      } else {
        ScanIpReads(d, next, tail, room - 1);
        ScanIpStep(d, at, room, o, next, Scan(PlaceToEol(tail, next), |d|, true));
      }
    }
  }

  /** In at most `room` bytes the walk succeeds on every encoded option list,
      and records exactly the options before the first end-of-list. */
  lemma ScanIpEncoded(d: seq<byte>, at: nat, opts: seq<Opt>, room: nat)
    requires AllWellFormed(Ip, opts)
    requires StandsAt(d, at, EncodeAll(opts)) && at + |EncodeAll(opts)| == |d|
    requires |EncodeAll(opts)| <= room
    ensures ScanIp(d, at, room, false) == Scan(PlaceToEol(opts, at), |d|, true)
  {
    EncodedReads(Ip, d, at, opts, EncodeAll(opts));
    ScanIpReads(d, at, opts, room);
  }

  /** Conversely, when the walk succeeds the bytes are such an encoding. */
  lemma {:induction false} ScanIpSucceeds(d: seq<byte>, at: nat, room: nat, done: bool) returns (opts: seq<Opt>)
    requires at <= |d| <= at + room && (done ==> room > 0)
    requires ScanIp(d, at, room, done).ok
    ensures AllWellFormed(Ip, opts) && d[at..] == EncodeAll(opts)
    decreases |d| - at
  {
    opts := [];
    if at < |d| {
      HeadIsThere(Ip, d, at);
      var o, next := Head(Ip, d, at), at + Size(Ip, d, at);
      var done' := done || d[at] == EOL;
      var tail := ScanIpSucceeds(d, next, if done' then room else room - 1, done');
      opts := [o] + tail;
      assert opts[1..] == tail;
      assert d[at..] == d[at..next] + d[next..];
    }
  }

  /** The walk over at most 40 bytes succeeds iff they encode some list of
      well-formed options, and then it records the longest prefix of that list
      without an end-of-list. */
  lemma {:induction false} ScanIpIff(d: seq<byte>)
    requires |d| <= OPTMAX
    ensures ScanIp(d, 0, OPTMAX, false).ok <==> exists opts :: AllWellFormed(Ip, opts) && d == EncodeAll(opts)
    ensures forall opts :: AllWellFormed(Ip, opts) && d == EncodeAll(opts) ==>
              var kept := BeforeEol(opts);
              && ScanIp(d, 0, OPTMAX, false) == Scan(Place(kept, 0), |d|, true)
              && kept <= opts && Single(EOL) !in kept && (kept == opts || opts[|kept|] == Single(EOL))
  {
    assert d[0..] == d;
    if ScanIp(d, 0, OPTMAX, false).ok {
      var opts := ScanIpSucceeds(d, 0, OPTMAX, false);
    }
    forall opts | AllWellFormed(Ip, opts) && d == EncodeAll(opts)
      ensures var kept := BeforeEol(opts);
              && ScanIp(d, 0, OPTMAX, false) == Scan(Place(kept, 0), |d|, true)
              && kept <= opts && Single(EOL) !in kept && (kept == opts || opts[|kept|] == Single(EOL))
    {
      ScanIpEncoded(d, 0, opts, OPTMAX);
      PlaceToEolIsPlace(opts, 0);
      BeforeEolIsPrefix(opts);
    }
  }

  /** Well or badly, what the walk records tiles the bytes it covers. */
  lemma {:induction false} ScanIpTiles(d: seq<byte>, at: nat, room: nat, found: seq<Found>) returns (end: nat)
    requires at <= |d| && found == ScanIp(d, at, room, false).found
    ensures Tile(Ip, d, at, found, end)
    decreases |d| - at
  {
    end := at;
    if at < |d| && room > 0 && HeadOk(Ip, d, at) {
      var o, next := Head(Ip, d, at), at + Size(Ip, d, at);
      if d[at] == EOL {
        DoneRecordsNothing(d, next, room);
      } else {
        var tail := ScanIp(d, next, room - 1, false).found;
        end := ScanIpTiles(d, next, room - 1, tail);
        HeadIsThere(Ip, d, at);
        TileCons(Ip, d, at, o, next, tail, end);
      }
    }
  }

  /** It never records an end-of-list, nor more than there is room for. */
  lemma {:induction false} ScanIpBounds(d: seq<byte>, at: nat, room: nat)
    requires at <= |d|
    ensures |ScanIp(d, at, room, false).found| <= room
    ensures forall f :: f in ScanIp(d, at, room, false).found ==> f.opt != Single(EOL)
    decreases |d| - at
  {
    if at < |d| && room > 0 && HeadOk(Ip, d, at) {
      var next := at + Size(Ip, d, at);
      if d[at] == EOL {
        DoneRecordsNothing(d, next, room);
      } else {
        ScanIpBounds(d, next, room - 1);
      }
    }
  }

  lemma {:induction false} TileCons(dialect: Dialect, d: seq<byte>, at: nat, o: Opt, next: nat, tail: seq<Found>,
      end: nat)
    requires WellFormed(dialect, o) && StandsAt(d, at, Encode(o)) && next == at + |Encode(o)|
    requires Tile(dialect, d, next, tail, end)
    ensures Tile(dialect, d, at, [Found(o, at)] + tail, end)
  {
    assert ([Found(o, at)] + tail)[1..] == tail;
  }

  lemma {:induction false} DoneRecordsNothing(d: seq<byte>, at: nat, room: nat)
    requires at <= |d|
    ensures ScanIp(d, at, room, true).found == []
    decreases |d| - at
  {
    if at < |d| && room > 0 && HeadOk(Ip, d, at) {
      DoneRecordsNothing(d, at + Size(Ip, d, at), room);
    }
  }
}
