/** The seven routines of checksum.h. A word pointer is an offset into the
    buffer; the strides keep "accumulator plus what is still to be read" fixed,
    modulo the 32 bits of the accumulator. */
module ChecksumRoutines {
  import opened Bytes
  import opened Checksum

  /** The words from offset `i` on, summed without any carry handling. */
  ghost function Rest(e: Endian, d: seq<byte>, i: nat): nat
    requires i <= |d|
  {
    Sum(Words(e, d[i..]))
  }

  /** Reading the words from `i` to `i'` took `c` to `c'` and lost `lost`
      carries out of bit 31 on the way. */
  ghost predicate Advanced(e: Endian, d: seq<byte>, c: uint32, i: nat, c': uint32, i': nat, lost: nat)
    requires i <= |d| && i' <= |d|
  {
    c + Rest(e, d, i) == c' + Rest(e, d, i') + 0x1_0000_0000 * lost
  }

  lemma RestStep(e: Endian, d: seq<byte>, i: nat)
    requires i + 2 <= |d|
    ensures Rest(e, d, i) == Word(e, d[i], d[i + 1]) + Rest(e, d, i + 2)
  {
    assert d[i..][2..] == d[i + 2..];
  }

  lemma RestEnd(e: Endian, d: seq<byte>, i: nat)
    requires i <= |d| <= i + 1
    ensures Rest(e, d, i) == if i == |d| then 0 else Word(e, d[i], 0)
  {
    if i < |d| {
      assert d[i..] == [d[i]];
      assert Words(e, d[i..]) == [Word(e, d[i], 0)];
      assert Sum([Word(e, d[i], 0)]) == Word(e, d[i], 0);
    }
  }

  method AddOne(e: Endian, cksum: uint32, d: seq<byte>, w: nat) returns (c: uint32, ghost lost: nat)
    requires w + 2 <= |d|
    ensures Advanced(e, d, cksum, w, c, w + 2, lost)
  {
    RestStep(e, d, w);
    var x := Word(e, d[w], d[w + 1]);
    c := Add32(cksum, x);
    lost := if cksum + x >= 0x1_0000_0000 then 1 else 0;
  }

  method AddTwo(e: Endian, cksum: uint32, d: seq<byte>, w: nat) returns (c: uint32, ghost lost: nat)
    requires w + 4 <= |d|
    ensures Advanced(e, d, cksum, w, c, w + 4, lost)
  {
    ghost var more;
    c, lost := AddOne(e, cksum, d, w);
    c, more := AddOne(e, c, d, w + 2);
    lost := lost + more;
  }

  method AddFour(e: Endian, cksum: uint32, d: seq<byte>, w: nat) returns (c: uint32, ghost lost: nat)
    requires w + 8 <= |d|
    ensures Advanced(e, d, cksum, w, c, w + 8, lost)
  {
    ghost var more;
    c, lost := AddTwo(e, cksum, d, w);
    c, more := AddTwo(e, c, d, w + 4);
    lost := lost + more;
  }

  method AddTen(e: Endian, cksum: uint32, d: seq<byte>, w: nat) returns (c: uint32, ghost lost: nat)
    requires w + 20 <= |d|
    ensures Advanced(e, d, cksum, w, c, w + 20, lost)
  {
    ghost var more, rest;
    c, lost := AddFour(e, cksum, d, w);
    c, more := AddFour(e, c, d, w + 8);
    c, rest := AddTwo(e, c, d, w + 16);
    lost := lost + more + rest;
  }

  method AddSixteen(e: Endian, cksum: uint32, d: seq<byte>, w: nat) returns (c: uint32, ghost lost: nat)
    requires w + 32 <= |d|
    ensures Advanced(e, d, cksum, w, c, w + 32, lost)
  {
    ghost var more, next, rest;
    c, lost := AddFour(e, cksum, d, w);
    c, more := AddFour(e, c, d, w + 8);
    c, next := AddFour(e, c, d, w + 16);
    c, rest := AddFour(e, c, d, w + 24);
    lost := lost + more + next + rest;
  }

  /** The pseudo-header of IPv4: 12 octets. */
  method AddPseudo4(e: Endian, h: seq<byte>) returns (c: uint32, ghost lost: nat)
    requires |h| == 12
    ensures Sum(Words(e, h)) == c + 0x1_0000_0000 * lost
  {
    ghost var more;
    assert h[0..] == h;
    c, lost := AddFour(e, 0, h, 0);
    c, more := AddTwo(e, c, h, 8);
    RestEnd(e, h, 12);
    lost := lost + more;
  }

  /** The pseudo-header of IPv6: 36 octets. */
  method AddPseudo6(e: Endian, h: seq<byte>) returns (c: uint32, ghost lost: nat)
    requires |h| == 36
    ensures Sum(Words(e, h)) == c + 0x1_0000_0000 * lost
  {
    ghost var more;
    assert h[0..] == h;
    c, lost := AddSixteen(e, 0, h, 0);
    c, more := AddTwo(e, c, h, 32);
    RestEnd(e, h, 36);
    lost := lost + more;
  }

  /** The common tail: blocks of sixteen words, of four, single words, and an
      odd octet stored as the first octet of a zeroed word. */
  method AddTail(e: Endian, cksum: uint32, d: seq<byte>, start: nat) returns (c: uint32, ghost lost: nat)
    requires start <= |d|
    ensures cksum + Rest(e, d, start) == c + 0x1_0000_0000 * lost
  {
    c, lost := cksum, 0;
    var w := start;
    var dlen := |d| - start;
    ghost var more;
    while dlen >= 32
      invariant 0 <= dlen == |d| - w
      invariant Advanced(e, d, cksum, start, c, w, lost)
    {
      c, more := AddSixteen(e, c, d, w);
      lost := lost + more;
      w := w + 32;
      dlen := dlen - 32;
    }
    while dlen >= 8
      invariant 0 <= dlen == |d| - w
      invariant Advanced(e, d, cksum, start, c, w, lost)
    {
      c, more := AddFour(e, c, d, w);
      lost := lost + more;
      w := w + 8;
      dlen := dlen - 8;
    }
    while dlen > 1
      invariant 0 <= dlen == |d| - w
      invariant Advanced(e, d, cksum, start, c, w, lost)
    {
      c, more := AddOne(e, c, d, w);
      lost := lost + more;
      w := w + 2;
      dlen := dlen - 2;
    }
    RestEnd(e, d, w);
    if dlen == 1 {
      var answer := Word(e, d[w], 0);
      lost := lost + if c + answer >= 0x1_0000_0000 then 1 else 0;
      c := Add32(c, answer);
    }
  }

  /** The folds and the complement, cast to 16 bits. */
  method Finish(cksum: uint32) returns (r: uint16)
    ensures r == 0xffff - Canon(cksum)
  {
    FoldTwiceIsCanon(cksum);
    var c := cksum / 0x1_0000 + cksum % 0x1_0000;
    c := Add32(c, c / 0x1_0000);
    r := (0xffff_ffff - c) % 0x1_0000;
  }

  /** What a routine returns on a pseudo-header `h` and data `d`. */
  ghost predicate IsChecksum(e: Endian, h: seq<byte>, d: seq<byte>, r: uint16) {
    && r == 0xffff - Canon((Sum(Words(e, h)) + Sum(Words(e, d))) % 0x1_0000_0000)
    && (|Words(e, h)| + |Words(e, d)| <= 0x1_0001 ==> r == Rfc1071(e, h + d))
  }

  /** A final accumulator that accounts for every word is the sum modulo 2^32,
      and the sum itself when there are at most 65537 words. */
  lemma Accumulated(e: Endian, h: seq<byte>, d: seq<byte>, c: uint32, lost: nat)
    requires |h| % 2 == 0
    requires Sum(Words(e, h)) + Sum(Words(e, d)) == c + 0x1_0000_0000 * lost
    ensures IsChecksum(e, h, d, 0xffff - Canon(c))
  {
    WrapUnique(Sum(Words(e, h)) + Sum(Words(e, d)), c, lost);
    NoCarryLost(e, h, d);
  }

  lemma WrapUnique(n: nat, c: uint32, lost: nat)
    requires n == c + 0x1_0000_0000 * lost
    ensures n % 0x1_0000_0000 == c
    ensures n < 0x1_0000_0000 ==> n == c
  {
  }

  method InChksumIp(e: Endian, d: seq<byte>) returns (r: uint16)
    requires |d| >= 20 && |d| % 4 == 0
    ensures IsChecksum(e, [], d, r)
  {
    var c;
    ghost var lost, more;
    assert d[0..] == d;
    c, lost := AddTen(e, 0, d, 0);
    var blen := |d| - 20;
    ghost var steps := |d| / 4 - 5;
    var w := 20;
    while blen != 0
      invariant 0 <= steps && blen == 4 * steps == |d| - w
      invariant Advanced(e, d, 0, 0, c, w, lost)
      decreases steps
    {
      c, more := AddTwo(e, c, d, w);
      lost := lost + more;
      w := w + 4;
      blen := blen - 4;
      steps := steps - 1;
    }
    RestEnd(e, d, w);
    Accumulated(e, [], d, c, lost);
    r := Finish(c);
  }

  method InChksumTcp(e: Endian, h: seq<byte>, d: seq<byte>) returns (r: uint16)
    requires |h| == 12 && |d| >= 20
    ensures IsChecksum(e, h, d, r)
  {
    var c;
    ghost var lost, more, rest := 0, 0, 0;
    assert d[0..] == d;
    c, lost := AddPseudo4(e, h);
    c, more := AddTen(e, c, d, 0);
    c, rest := AddTail(e, c, d, 20);
    Accumulated(e, h, d, c, lost + more + rest);
    r := Finish(c);
  }

  method InChksumTcp6(e: Endian, h: seq<byte>, d: seq<byte>) returns (r: uint16)
    requires |h| == 36 && |d| >= 20
    ensures IsChecksum(e, h, d, r)
  {
    var c;
    ghost var lost, more, rest := 0, 0, 0;
    assert d[0..] == d;
    c, lost := AddPseudo6(e, h);
    c, more := AddTen(e, c, d, 0);
    c, rest := AddTail(e, c, d, 20);
    Accumulated(e, h, d, c, lost + more + rest);
    r := Finish(c);
  }

  method InChksumUdp(e: Endian, h: seq<byte>, d: seq<byte>) returns (r: uint16)
    requires |h| == 12 && |d| >= 8
    ensures IsChecksum(e, h, d, r)
  {
    var c;
    ghost var lost, more, rest := 0, 0, 0;
    assert d[0..] == d;
    c, lost := AddPseudo4(e, h);
    c, more := AddFour(e, c, d, 0);
    c, rest := AddTail(e, c, d, 8);
    Accumulated(e, h, d, c, lost + more + rest);
    r := Finish(c);
  }

  method InChksumUdp6(e: Endian, h: seq<byte>, d: seq<byte>) returns (r: uint16)
    requires |h| == 36 && |d| >= 8
    ensures IsChecksum(e, h, d, r)
  {
    var c;
    ghost var lost, more, rest := 0, 0, 0;
    assert d[0..] == d;
    c, lost := AddPseudo6(e, h);
    c, more := AddFour(e, c, d, 0);
    c, rest := AddTail(e, c, d, 8);
    Accumulated(e, h, d, c, lost + more + rest);
    r := Finish(c);
  }

  method InChksumIcmp(e: Endian, d: seq<byte>) returns (r: uint16)
    ensures IsChecksum(e, [], d, r)
  {
    var c;
    ghost var lost, more, rest := 0, 0, 0;
    assert d[0..] == d;
    c := 0;
    c, rest := AddTail(e, c, d, 0);
    Accumulated(e, [], d, c, lost + more + rest);
    r := Finish(c);
  }

  method InChksumIcmp6(e: Endian, h: seq<byte>, d: seq<byte>) returns (r: uint16)
    requires |h| == 36
    ensures IsChecksum(e, h, d, r)
  {
    var c;
    ghost var lost, more, rest := 0, 0, 0;
    assert d[0..] == d;
    c, lost := AddPseudo6(e, h);
    c, rest := AddTail(e, c, d, 0);
    Accumulated(e, h, d, c, lost + more + rest);
    r := Finish(c);
  }

  /** An even-length head contributes its own words. */
  lemma {:induction false} WordsAppend(e: Endian, h: seq<byte>, d: seq<byte>)
    requires |h| % 2 == 0
    ensures Words(e, h + d) == Words(e, h) + Words(e, d)
  {
    if h == [] {
      assert h + d == d;
    } else {
      assert (h + d)[2..] == h[2..] + d;
      WordsAppend(e, h[2..], d);
    }
  }

  lemma {:induction false} SumBound(ws: seq<uint16>)
    ensures Sum(ws) <= 0xffff * |ws|
  {
    if ws != [] {
      SumBound(ws[1..]);
    }
  }

  /** Up to 65537 words the accumulator cannot wrap, so deferring the carries
      loses nothing. */
  lemma NoCarryLost(e: Endian, h: seq<byte>, d: seq<byte>)
    requires |h| % 2 == 0
    ensures |Words(e, h)| + |Words(e, d)| <= 0x1_0001 ==>
              && Sum(Words(e, h)) + Sum(Words(e, d)) < 0x1_0000_0000
              && Rfc1071(e, h + d) == 0xffff - Canon(Sum(Words(e, h)) + Sum(Words(e, d)))
  {
    WordsAppend(e, h, d);
    SumAppend(Words(e, h), Words(e, d));
    SumBound(Words(e, h + d));
    OnesSumIsCanon(Words(e, h + d));
  }
}
