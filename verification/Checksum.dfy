/** The Internet checksum routines: a 32-bit accumulator that defers its
    carries, strides of 16, 4 and 1 words, a trailing odd octet, two folds.

    The reference is section 1 of RFC 1071: pair the octets into 16-bit words,
    padding an odd one with zero, and add them in one's complement arithmetic,
    one word at a time with an end-around carry. */
module Checksum {
  import opened Bytes

  /** The order in which the host reads the two octets of a word. */
  datatype Endian = Little | Big

  function Flip(e: Endian): Endian {
    if e.Little? then Big else Little
  }

  function Word(e: Endian, first: byte, second: byte): uint16 {
    if e.Little? then first + 256 * second else 256 * first + second
  }

  // ---------------------------------------------------------------- reference

  /** The words of a buffer; a trailing odd octet is padded with zero. */
  function Words(e: Endian, d: seq<byte>): (ws: seq<uint16>)
    ensures |ws| == (|d| + 1) / 2
  {
    if d == [] then []
    else if |d| == 1 then [Word(e, d[0], 0)]
    else [Word(e, d[0], d[1])] + Words(e, d[2..])
  }

  /** One's complement addition: a carry out of bit 15 comes back in at bit 0. */
  function EndAround(a: uint16, b: uint16): uint16 {
    if a + b >= 0x1_0000 then a + b - 0xffff else a + b
  }

  function OnesSum(ws: seq<uint16>): uint16 {
    if ws == [] then 0 else EndAround(OnesSum(ws[..|ws| - 1]), ws[|ws| - 1])
  }

  /** The checksum of RFC 1071 over a buffer. */
  function Rfc1071(e: Endian, d: seq<byte>): uint16 {
    0xffff - OnesSum(Words(e, d))
  }

  // ------------------------------------------------ the plain sum, and folding

  function Sum(ws: seq<uint16>): nat {
    if ws == [] then 0 else ws[0] + Sum(ws[1..])
  }

  /** The value a positive sum has in one's complement: never zero again. */
  function Canon(n: nat): uint16 {
    if n == 0 then 0 else (n - 1) % 0xffff + 1
  }

  /** Carries folded back until the value fits in 16 bits. */
  function FoldAll(n: nat): uint16 {
    if n < 0x1_0000 then n else FoldAll(n / 0x1_0000 + n % 0x1_0000)
  }

  /** The two folds of the routines: the second one keeps bit 16, which the
      cast to 16 bits drops. */
  function FoldTwice(n: uint32): uint16 {
    var once := n / 0x1_0000 + n % 0x1_0000;
    (once + once / 0x1_0000) % 0x1_0000
  }

  function Add32(a: uint32, b: uint32): uint32 {
    if a + b >= 0x1_0000_0000 then a + b - 0x1_0000_0000 else a + b
  }

  lemma {:induction false} SumAppend(a: seq<uint16>, b: seq<uint16>)
    ensures Sum(a + b) == Sum(a) + Sum(b)
  {
    if a == [] {
      assert a + b == b;
    } else {
      assert (a + b)[1..] == a[1..] + b;
      SumAppend(a[1..], b);
    }
  }

  /** Adding a word with an end-around carry is adding it and then canonising. */
  lemma CanonStep(n: nat, w: uint16)
    ensures EndAround(Canon(n), w) == Canon(n + w)
  {
    if n > 0 {
      var q, r := (n - 1) / 0xffff, (n - 1) % 0xffff;
      assert n == 0xffff * q + r + 1;
      assert n + w - 1 == 0xffff * q + (r + w);
    }
  }

  /** The one's complement sum depends on the plain sum only. */
  lemma {:induction false} OnesSumIsCanon(ws: seq<uint16>)
    ensures OnesSum(ws) == Canon(Sum(ws))
  {
    if ws != [] {
      var k := |ws| - 1;
      OnesSumIsCanon(ws[..k]);
      CanonStep(Sum(ws[..k]), ws[k]);
      assert ws == ws[..k] + [ws[k]];
      SumAppend(ws[..k], [ws[k]]);
      assert Sum([ws[k]]) == ws[k];
    }
  }

  /** Among positive numbers, `Canon` only sees the residue modulo 65535. */
  lemma CanonResidue(n: nat, m: nat, q: int)
    requires n > 0 && m > 0 && n == m + 0xffff * q
    ensures Canon(n) == Canon(m)
  {
    assert n - 1 == (m - 1) + 0xffff * q;
  }

  /** Folding any number of times, down to 16 bits, gives the canonical value. */
  lemma {:induction false} FoldAllIsCanon(n: nat)
    ensures FoldAll(n) == Canon(n)
  {
    if n >= 0x1_0000 {
      var m := n / 0x1_0000 + n % 0x1_0000;
      FoldAllIsCanon(m);
      CanonResidue(n, m, n / 0x1_0000);
    }
  }

  /** A value with at most one carry out of bit 15 takes one more fold. */
  lemma LastFold(once: nat)
    requires once <= 0x1_fffe
    ensures (once + once / 0x1_0000) % 0x1_0000 == Canon(once)
  {
    if once >= 0x1_0000 {
      CanonResidue(once, once - 0xffff, 1);
    }
  }

  lemma FoldTwiceIsCanon(n: uint32)
    ensures FoldTwice(n) == Canon(n)
  {
    var hi, lo := n / 0x1_0000, n % 0x1_0000;
    LastFold(hi + lo);
    if n > 0 {
      CanonResidue(n, hi + lo, hi);
    }
  }

  /** Two folds are enough for every value the accumulator can hold. */
  lemma TwoFoldsSuffice(n: uint32)
    ensures FoldTwice(n) == FoldAll(n) == Canon(n)
  {
    FoldTwiceIsCanon(n);
    FoldAllIsCanon(n);
  }
}
