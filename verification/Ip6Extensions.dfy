/** The IPv6 extension headers, in the build with IPv6 support: two decoders that
    call each other along the chain, the table they fill, and the check of the
    order in which the headers came. */
module Ip6Extensions {
  import opened Bytes

  const HOPOPTS: byte := 0
  const IPIP: byte := 4
  const TCP: byte := 6
  const UDP: byte := 17
  const IPV6: byte := 41
  const ROUTING: byte := 43
  const FRAGMENT: byte := 44
  const GRE: byte := 47
  const ESP: byte := 50
  const AH: byte := 51
  const ICMPV6: byte := 58
  const NONE: byte := 59
  const DSTOPTS: byte := 60

  /** An entry of the table: the type of a header and where it starts. */
  datatype Ext = Ext(kind: byte, at: nat)

  /** Why the walk ended: at an upper layer, on too few octets, on a full
      table, or on a fragment that is not decoded further. */
  datatype Ending = Upper(next: byte) | Truncated | Excess | FragmentStop

  datatype Walk = Walk(exts: seq<Ext>, at: nat, ending: Ending)

  predicate Recordable(kind: byte) {
    kind == HOPOPTS || kind == DSTOPTS || kind == ROUTING || kind == FRAGMENT || kind == AH
  }

  /** The length of the header at `at`: units of eight octets beyond the first
      eight, of four for an authentication header, eight for a fragment. */
  function HeaderLength(d: seq<byte>, kind: byte, at: nat): (n: nat)
    requires at + 8 <= |d|
    ensures n >= 8
  {
    if kind == FRAGMENT then 8
    else if kind == AH then 8 + 4 * d[at + 1] as int
    else 8 + 8 * d[at + 1] as int
  }

  /** A fragment is decoded further only at offset zero, and only as UDP. */
  predicate StopsAtFragment(d: seq<byte>, kind: byte, at: nat)
    requires at + 8 <= |d|
  {
    kind == FRAGMENT && (Be16(d, at + 2) / 8 > 0 || d[at] != UDP)
  }

  /** The walk from a header of type `next` at `at`, with `table` filled so far
      and room for `max` entries. */
  function WalkFrom(d: seq<byte>, next: byte, at: nat, table: seq<Ext>, max: nat): Walk
    requires at <= |d|
    decreases |d| - at
  {
    if !Recordable(next) then Walk(table, at, Upper(next))
    else if at + 8 > |d| then Walk(table, at, Truncated)
    else if |table| >= max then Walk(table, at, Excess)
    else
      var table' := table + [Ext(next, at)];
      if StopsAtFragment(d, next, at) then Walk(table', at, FragmentStop)
      else if at + HeaderLength(d, next, at) > |d| then Walk(table', at, Truncated)
      else WalkFrom(d, d[at], at + HeaderLength(d, next, at), table', max)
  }

  // --------------------------------------------------------------- the ordering

  function Rank(kind: byte): int {
    if kind == HOPOPTS then 1
    else if kind == DSTOPTS then 2
    else if kind == ROUTING then 3
    else if kind == FRAGMENT then 4
    else if kind == AH then 5
    else if kind == ESP then 6
    else 7
  }

  /** Is header `i` out of order: ranked no higher than the one before it, and
      not the tolerated second Destination Options header? */
  predicate OutOfOrder(kinds: seq<byte>, i: nat)
    requires 0 < i < |kinds|
  {
    && Rank(kinds[i]) <= Rank(kinds[i - 1])
    && !(kinds[i] == DSTOPTS && i == |kinds| - 1 && ROUTING in kinds[1..i])
  }

  /** How many of the headers `1..n` are out of order. */
  function Unordered(kinds: seq<byte>, n: nat): nat
    requires n <= |kinds|
  {
    if n <= 1 then 0 else Unordered(kinds, n - 1) + if OutOfOrder(kinds, n - 1) then 1 else 0
  }

  /** The upper layers before which the order is checked. */
  predicate Checked(next: byte) {
    || next == TCP || next == UDP || next == ICMPV6 || next == NONE
    || next == GRE || next == IPIP || next == IPV6 || next == ESP
  }

  // ------------------------------------------------------------------ the table

  class Packet {
    const extMax: nat
    const orderAlerts: bool
    const extensions: array<Ext>
    var extensionCount: nat
    /** Events raised for headers out of order. */
    var unordered: nat
    /** The next-header field kept with the IPv6 header. */
    var next: byte

    constructor (extMax: nat, orderAlerts: bool)
      ensures Valid() && fresh(extensions) && this.extMax == extMax && this.orderAlerts == orderAlerts
      ensures Kinds() == [] && unordered == 0
    {
      this.extMax, this.orderAlerts := extMax, orderAlerts;
      extensions := new Ext[extMax](_ => Ext(0, 0));
      extensionCount, unordered, next := 0, 0, NONE;
    }

    ghost predicate Valid()
      reads this
    {
      extensions.Length == extMax && extensionCount <= extMax
    }

    ghost function Kinds(): (k: seq<byte>)
      requires Valid()
      reads this, extensions
      ensures |k| == extensionCount
      ensures forall i :: 0 <= i < extensionCount ==> k[i] == extensions[i].kind
    {
      KindsOf(extensions[..extensionCount])
    }

    method CheckIPv6ExtensionOrder()
      requires Valid()
      modifies this`unordered
      ensures unordered == old(unordered) + if orderAlerts then Unordered(Kinds(), extensionCount) else 0
    {
      if orderAlerts && extensionCount > 0 {
        ghost var kinds := Kinds();
        var routingSeen := false;
        var current := Rank(extensions[0].kind);
        var i := 1;
        while i < extensionCount
          invariant 1 <= i <= extensionCount
          invariant current == Rank(kinds[i - 1])
          invariant routingSeen <==> ROUTING in kinds[1..i]
          invariant unordered == old(unordered) + Unordered(kinds, i)
        {
          assert kinds[1..i + 1] == kinds[1..i] + [kinds[i]];
          var rank := Rank(extensions[i].kind);
          if extensions[i].kind == ROUTING {
            routingSeen := true;
          }
          if rank <= current {
            if !routingSeen || extensions[i].kind != DSTOPTS || i + 1 != extensionCount {
              unordered := unordered + 1;
            }
          }
          current := rank;
          i := i + 1;
        }
      }
    }

    /** What decoding from `at` on does to the table and the events. */
    ghost predicate Follows(w: Walk, oldUnordered: nat)
      requires Valid()
      reads this, extensions
    {
      && extensions[..extensionCount] == w.exts
      && unordered == oldUnordered +
                      if w.ending.Upper? && Checked(w.ending.next) && orderAlerts
                      then Unordered(Kinds(), extensionCount) else 0
    }

    method DecodeIPV6Extensions(d: seq<byte>, nextHeader: byte, at: nat)
      requires Valid() && at <= |d|
      modifies this, extensions
      ensures Valid()
      ensures Follows(WalkFrom(d, nextHeader, at, old(extensions[..extensionCount]), extMax), old(unordered))
      decreases |d| - at, 1
    {
      next := nextHeader;
      if Checked(nextHeader) {
        CheckIPv6ExtensionOrder();
      } else if Recordable(nextHeader) {
        DecodeIPV6Options(d, nextHeader, at);
      }
    }

    method DecodeIPV6Options(d: seq<byte>, kind: byte, at: nat)
      requires Valid() && at <= |d| && Recordable(kind)
      modifies this, extensions
      ensures Valid()
      ensures Follows(WalkFrom(d, kind, at, old(extensions[..extensionCount]), extMax), old(unordered))
      decreases |d| - at, 0
    {
      var len := |d| - at;
      if len < 8 {
        return;
      }
      if extensionCount >= extMax {
        return;
      }
      ghost var table := extensions[..extensionCount];
      extensions[extensionCount] := Ext(kind, at);
      assert extensions[..extensionCount + 1] == table + [Ext(kind, at)];
      var hdrlen := 8;
      if kind == FRAGMENT {
        var fragOffset := Be16(d, at + 2) / 8;
        if fragOffset > 0 || d[at] != UDP {
          extensionCount := extensionCount + 1;
          return;
        }
      } else if kind == AH {
        hdrlen := 8 + 4 * d[at + 1] as int;
      } else {
        hdrlen := 8 + 8 * d[at + 1] as int;
      }
      extensionCount := extensionCount + 1;
      if hdrlen > len {
        return;
      }
      DecodeIPV6Extensions(d, d[at], at + hdrlen);
    }
  }

  function KindsOf(exts: seq<Ext>): (k: seq<byte>)
    ensures |k| == |exts|
    ensures forall i :: 0 <= i < |exts| ==> k[i] == exts[i].kind
  {
    seq(|exts|, i requires 0 <= i < |exts| => exts[i].kind)
  }

  // ----------------------------------------------------- laws of the recursion

  /** Consecutive entries lie exactly one decoded header apart, each has its
      first eight octets inside, and each names the type of the next. */
  predicate Linked(d: seq<byte>, exts: seq<Ext>) {
    && (forall i :: 0 <= i < |exts| ==> Recordable(exts[i].kind) && exts[i].at + 8 <= |d|)
    && (forall i :: 0 < i < |exts| ==>
          && exts[i].at == exts[i - 1].at + HeaderLength(d, exts[i - 1].kind, exts[i - 1].at)
          && exts[i].kind == d[exts[i - 1].at])
  }

  /** A header of type `kind` at `at` continues the table. */
  predicate Continues(d: seq<byte>, exts: seq<Ext>, kind: byte, at: nat) {
    exts != [] ==>
      var last := exts[|exts| - 1];
      && last.at + 8 <= |d|
      && at == last.at + HeaderLength(d, last.kind, last.at)
      && kind == d[last.at]
  }

  lemma LinkOne(d: seq<byte>, table: seq<Ext>, kind: byte, at: nat)
    requires Linked(d, table) && Continues(d, table, kind, at) && Recordable(kind) && at + 8 <= |d|
    ensures Linked(d, table + [Ext(kind, at)])
    ensures Continues(d, table + [Ext(kind, at)], d[at], at + HeaderLength(d, kind, at))
  {
    var table' := table + [Ext(kind, at)];
    forall i | 0 < i < |table'|
      ensures table'[i].at == table'[i - 1].at + HeaderLength(d, table'[i - 1].kind, table'[i - 1].at)
      ensures table'[i].kind == d[table'[i - 1].at]
    {
      if i < |table| {
        assert table'[i] == table[i] && table'[i - 1] == table[i - 1];
      }
    }
  }

  /** The walk keeps the table linked. */
  lemma {:induction false} WalkLinks(d: seq<byte>, next: byte, at: nat, table: seq<Ext>, max: nat)
    requires at <= |d|
    requires Linked(d, table) && Continues(d, table, next, at)
    ensures Linked(d, WalkFrom(d, next, at, table, max).exts)
    decreases |d| - at
  {
    if Recordable(next) && at + 8 <= |d| && |table| < max {
      LinkOne(d, table, next, at);
      if !StopsAtFragment(d, next, at) && at + HeaderLength(d, next, at) <= |d| {
        WalkLinks(d, d[at], at + HeaderLength(d, next, at), table + [Ext(next, at)], max);
      }
    }
  }

  /** It only ever appends, within the maximum; only a full table is an excess. */
  lemma {:induction false} WalkAppends(d: seq<byte>, next: byte, at: nat, table: seq<Ext>, max: nat)
    requires at <= |d| && |table| <= max
    ensures var w := WalkFrom(d, next, at, table, max);
            && table <= w.exts
            && |w.exts| <= max
            && (w.ending == Excess ==> |w.exts| == max)
            && (w.ending.Upper? ==> !Recordable(w.ending.next))
    decreases |d| - at
  {
    if Recordable(next) && at + 8 <= |d| && |table| < max {
      if !StopsAtFragment(d, next, at) && at + HeaderLength(d, next, at) <= |d| {
        WalkAppends(d, d[at], at + HeaderLength(d, next, at), table + [Ext(next, at)], max);
      }
    }
  }

  /** From an empty table: at most `max` entries, linked, the first of them the
      header the walk started at. */
  lemma WalkFromEmpty(d: seq<byte>, next: byte, at: nat, max: nat)
    requires at <= |d|
    ensures var w := WalkFrom(d, next, at, [], max);
            && |w.exts| <= max
            && Linked(d, w.exts)
            && (Recordable(next) && at + 8 <= |d| && max > 0 ==> [Ext(next, at)] <= w.exts)
  {
    WalkLinks(d, next, at, [], max);
    WalkAppends(d, next, at, [], max);
    if Recordable(next) && at + 8 <= |d| && max > 0 {
      assert [] + [Ext(next, at)] == [Ext(next, at)];
      if !StopsAtFragment(d, next, at) && at + HeaderLength(d, next, at) <= |d| {
        WalkAppends(d, d[at], at + HeaderLength(d, next, at), [Ext(next, at)], max);
      }
    }
  }

  /** A header as its sender means it. */
  datatype Header = Header(kind: byte, content: seq<byte>)

  predicate HeaderOk(h: Header) {
    && Recordable(h.kind)
    && (if h.kind == FRAGMENT then |h.content| == 6
        else if h.kind == AH then |h.content| % 4 == 2 && 6 <= |h.content| <= 1026
        else |h.content| % 8 == 6 && |h.content| <= 2046)
  }

  /** The units of the length octet that the content takes. */
  function Units(h: Header): byte {
    if h.kind == AH then (if |h.content| >= 6 then (|h.content| - 6) / 4 % 256 else 0)
    else |h.content| / 8 % 256
  }

  function FirstKind(hs: seq<Header>, last: byte): byte {
    if hs == [] then last else hs[0].kind
  }

  /** A fragment header has no length octet. */
  function EncodeHeader(h: Header, next: byte): seq<byte> {
    [next, if h.kind == FRAGMENT then 0 else Units(h)] + h.content
  }

  function EncodeAll(hs: seq<Header>, last: byte): seq<byte> {
    if hs == [] then [] else EncodeHeader(hs[0], FirstKind(hs[1..], last)) + EncodeAll(hs[1..], last)
  }

  /** A header in front of `next`; a fragment header is at offset zero, before
      UDP. */
  predicate LinkOk(h: Header, next: byte) {
    HeaderOk(h) && (h.kind == FRAGMENT ==> next == UDP && h.content[0] == 0 && h.content[1] < 8)
  }

  predicate ChainOk(hs: seq<Header>, last: byte) {
    hs == [] || (LinkOk(hs[0], FirstKind(hs[1..], last)) && ChainOk(hs[1..], last))
  }

  function Place(hs: seq<Header>, at: nat): seq<Ext> {
    if hs == [] then [] else [Ext(hs[0].kind, at)] + Place(hs[1..], at + |hs[0].content| + 2)
  }

  lemma UnitsMeanLength(h: Header)
    requires HeaderOk(h) && h.kind != FRAGMENT
    ensures |h.content| + 2 == 8 + (if h.kind == AH then 4 else 8) * Units(h) as int
  {
  }

  lemma StepEncoded(d: seq<byte>, at: nat, h: Header, next: byte, table: seq<Ext>, max: nat)
    requires LinkOk(h, next) && StandsAt(d, at, EncodeHeader(h, next)) && |table| < max
    ensures at + |h.content| + 2 <= |d|
    ensures WalkFrom(d, h.kind, at, table, max) ==
            WalkFrom(d, next, at + |h.content| + 2, table + [Ext(h.kind, at)], max)
  {
    var b := EncodeHeader(h, next);
    assert d[at] == b[0] && d[at + 1] == b[1] && d[at + 2] == b[2] && d[at + 3] == b[3];
    assert b[2] == h.content[0] && b[3] == h.content[1];
    if h.kind != FRAGMENT {
      UnitsMeanLength(h);
    }
    assert HeaderLength(d, h.kind, at) == |h.content| + 2;
  }

  /** The first header of an encoded chain, and the chain behind it. */
  lemma {:induction false} ChainHead(d: seq<byte>, at: nat, hs: seq<Header>, last: byte)
    requires hs != [] && ChainOk(hs, last) && StandsAt(d, at, EncodeAll(hs, last))
    ensures var at' := at + |hs[0].content| + 2; var next := FirstKind(hs[1..], last);
            && LinkOk(hs[0], next) && StandsAt(d, at, EncodeHeader(hs[0], next))
            && ChainOk(hs[1..], last) && StandsAt(d, at', EncodeAll(hs[1..], last))
            && at' + |EncodeAll(hs[1..], last)| == at + |EncodeAll(hs, last)|
  {
    StandsAtConcat(d, at, EncodeHeader(hs[0], FirstKind(hs[1..], last)), EncodeAll(hs[1..], last));
  }

  lemma PlaceAppend(hs: seq<Header>, at: nat, table: seq<Ext>)
    requires hs != []
    ensures (table + [Ext(hs[0].kind, at)]) + Place(hs[1..], at + |hs[0].content| + 2) == table + Place(hs, at)
  {
  }

  /** The walk gets past an encoded chain with all its headers recorded. */
  lemma {:induction false} WalkPast(d: seq<byte>, at: nat, hs: seq<Header>, last: byte, table: seq<Ext>, max: nat,
                                    end: nat, after: Walk)
    requires ChainOk(hs, last) && StandsAt(d, at, EncodeAll(hs, last)) && |table| + |hs| <= max
    requires end == at + |EncodeAll(hs, last)|
    requires after == WalkFrom(d, last, end, table + Place(hs, at), max)
    ensures WalkFrom(d, FirstKind(hs, last), at, table, max) == after
    decreases |hs|
  {
    if hs == [] {
      assert table + [] == table;
    } else {
      var h, tail := hs[0], hs[1..];
      var at', table' := at + |h.content| + 2, table + [Ext(h.kind, at)];
      PlaceAppend(hs, at, table);
      ChainHead(d, at, hs, last);
      WalkPast(d, at', tail, last, table', max, end, after);
      StepEncoded(d, at, h, FirstKind(tail, last), table, max);
    }
  }

  /** Every encoded chain that fits the table is recorded header by header, and
      the walk hands on the upper layer behind it. */
  lemma WalkEncoded(d: seq<byte>, at: nat, hs: seq<Header>, last: byte, max: nat)
    requires ChainOk(hs, last) && !Recordable(last) && |hs| <= max && StandsAt(d, at, EncodeAll(hs, last))
    ensures WalkFrom(d, FirstKind(hs, last), at, [], max) ==
            Walk(Place(hs, at), at + |EncodeAll(hs, last)|, Upper(last))
  {
    assert [] + Place(hs, at) == Place(hs, at);
    var end := at + |EncodeAll(hs, last)|;
    WalkPast(d, at, hs, last, [], max, end, Walk(Place(hs, at), end, Upper(last)));
  }

  /** A chain that leads to a fragment header which is not at offset zero, or
      not before UDP: that header is recorded too, and nothing behind it is looked at. */
  lemma {:induction false} WalkStopsAtFragment(d: seq<byte>, at: nat, hs: seq<Header>, f: Header, next: byte, max: nat)
    requires ChainOk(hs, FRAGMENT) && HeaderOk(f) && f.kind == FRAGMENT && !LinkOk(f, next) && |hs| < max
    requires StandsAt(d, at, EncodeAll(hs, FRAGMENT) + EncodeHeader(f, next))
    ensures var end := at + |EncodeAll(hs, FRAGMENT)|;
            WalkFrom(d, FirstKind(hs, FRAGMENT), at, [], max) ==
            Walk(Place(hs, at) + [Ext(FRAGMENT, end)], end, FragmentStop)
  {
    var b := EncodeHeader(f, next);
    StandsAtConcat(d, at, EncodeAll(hs, FRAGMENT), b);
    var end := at + |EncodeAll(hs, FRAGMENT)|;
    assert d[end] == b[0] && d[end + 2] == b[2] && d[end + 3] == b[3];
    assert b[2] == f.content[0] && b[3] == f.content[1];
    PlaceLength(hs, at);
    assert [] + Place(hs, at) == Place(hs, at);
    WalkPast(d, at, hs, FRAGMENT, [], max, end, WalkFrom(d, FRAGMENT, end, Place(hs, at), max));
  }

  /** A chain with one header more than the table holds: the walk stops at that one. */
  lemma WalkStopsWhenFull(d: seq<byte>, at: nat, hs: seq<Header>, last: byte, max: nat)
    requires ChainOk(hs, last) && Recordable(last) && |hs| == max
    requires StandsAt(d, at, EncodeAll(hs, last)) && at + |EncodeAll(hs, last)| + 8 <= |d|
    ensures WalkFrom(d, FirstKind(hs, last), at, [], max) ==
            Walk(Place(hs, at), at + |EncodeAll(hs, last)|, Excess)
  {
    PlaceLength(hs, at);
    assert [] + Place(hs, at) == Place(hs, at);
    var end := at + |EncodeAll(hs, last)|;
    WalkPast(d, at, hs, last, [], max, end, Walk(Place(hs, at), end, Excess));
  }

  lemma {:induction false} PlaceLength(hs: seq<Header>, at: nat)
    ensures |Place(hs, at)| == |hs|
    decreases |hs|
  {
    if hs != [] {
      PlaceLength(hs[1..], at + |hs[0].content| + 2);
    }
  }

  // -------------------------------------------------------- laws of the ordering

  predicate Increasing(kinds: seq<byte>) {
    forall i :: 0 < i < |kinds| ==> Rank(kinds[i - 1]) < Rank(kinds[i])
  }

  lemma {:induction false} UnorderedZero(kinds: seq<byte>, n: nat)
    requires n <= |kinds|
    ensures Unordered(kinds, n) == 0 <==> forall i :: 0 < i < n ==> !OutOfOrder(kinds, i)
  {
    if n > 1 {
      UnorderedZero(kinds, n - 1);
    }
  }

  /** No event is raised iff the ranks strictly increase, but for a last header
      that may be Destination Options when a Routing header stands anywhere
      between the first header and it. */
  lemma {:induction false} OrderAcceptedIff(kinds: seq<byte>)
    ensures Unordered(kinds, |kinds|) == 0 <==>
              || Increasing(kinds)
              || (&& |kinds| > 1
                  && Increasing(kinds[..|kinds| - 1])
                  && kinds[|kinds| - 1] == DSTOPTS
                  && ROUTING in kinds[1..|kinds| - 1])
  {
    UnorderedZero(kinds, |kinds|);
    if |kinds| > 1 {
      var last := |kinds| - 1;
      var init := kinds[..last];
      if Unordered(kinds, |kinds|) == 0 {
        forall i | 0 < i < last ensures Rank(init[i - 1]) < Rank(init[i]) {
          assert !OutOfOrder(kinds, i);
        }
        assert !OutOfOrder(kinds, last);
      } else {
        var i :| 0 < i < |kinds| && OutOfOrder(kinds, i);
        if i < last {
          assert Rank(init[i]) <= Rank(init[i - 1]);
        }
      }
    }
  }

  /** Strictly increasing ranks leave room for as many headers as ranks. */
  lemma {:induction false} IncreasingIsShort(kinds: seq<byte>)
    requires Increasing(kinds) && kinds != [] && forall k :: k in kinds ==> Recordable(k)
    ensures |kinds| <= Rank(kinds[|kinds| - 1]) <= 5
  {
    assert kinds[|kinds| - 1] in kinds;
    if |kinds| > 1 {
      var init := kinds[..|kinds| - 1];
      IncreasingIsShort(init);
      assert Rank(kinds[|kinds| - 2]) < Rank(kinds[|kinds| - 1]);
    }
  }

  /** So a chain of recordable headers that is accepted has at most six. */
  lemma AcceptedIsShort(kinds: seq<byte>)
    requires Unordered(kinds, |kinds|) == 0 && forall k :: k in kinds ==> Recordable(k)
    ensures |kinds| <= 6
  {
    OrderAcceptedIff(kinds);
    if |kinds| > 1 {
      if Increasing(kinds) {
        IncreasingIsShort(kinds);
      } else {
        IncreasingIsShort(kinds[..|kinds| - 1]);
      }
    }
  }

  /** The check looks for Routing only from the second header on: a chain that
      starts with it and ends with Destination Options is reported, while the
      same two behind Hop-by-Hop Options are accepted. */
  lemma RoutingFirstIsReported()
    ensures Unordered([ROUTING, DSTOPTS], 2) == 1
    ensures Unordered([HOPOPTS, ROUTING, DSTOPTS], 3) == 0
  {
    assert [HOPOPTS, ROUTING, DSTOPTS][1..2] == [ROUTING];
    assert !OutOfOrder([HOPOPTS, ROUTING, DSTOPTS], 2);
    assert !OutOfOrder([HOPOPTS, ROUTING, DSTOPTS], 1);
    UnorderedZero([HOPOPTS, ROUTING, DSTOPTS], 3);
    assert [ROUTING, DSTOPTS][1..1] == [];
    assert OutOfOrder([ROUTING, DSTOPTS], 1);
  }
}
