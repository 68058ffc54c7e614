/** Octets and fixed-width reads, as the packet code sees them. */
module Bytes {

  type byte = b: int | 0 <= b < 256

  type uint16 = w: int | 0 <= w < 0x1_0000

  type uint32 = w: int | 0 <= w < 0x1_0000_0000

  datatype Option<+T> = None | Some(value: T)

  /** `ntohs` of the two octets at `i`: network order is big-endian on every host. */
  function Be16(s: seq<byte>, i: nat): uint16
    requires i + 2 <= |s|
  {
    s[i] as int * 256 + s[i + 1]
  }

  /** The two octets that `Be16` reads back as `v`. */
  function Be16Bytes(v: uint16): (s: seq<byte>)
    ensures |s| == 2 && Be16(s, 0) == v
  {
    [v / 256, v % 256]
  }

  /** Is the bit of weight `mask` (a power of two) up in `b`? */
  predicate HasBit(b: byte, mask: byte)
    requires mask > 0
  {
    b / mask % 2 == 1
  }

  /** The bytes `s` stand in `d` at offset `at`. */
  predicate StandsAt(d: seq<byte>, at: nat, s: seq<byte>) {
    at + |s| <= |d| && forall i {:trigger s[i]} :: 0 <= i < |s| ==> s[i] == d[at + i]
  }

  lemma StandsAtConcat(d: seq<byte>, at: nat, a: seq<byte>, b: seq<byte>)
    ensures StandsAt(d, at, a + b) <==> StandsAt(d, at, a) && StandsAt(d, at + |a|, b)
  {
    if StandsAt(d, at, a + b) {
      forall i | 0 <= i < |b| ensures b[i] == d[at + |a| + i] {
        assert (a + b)[|a| + i] == b[i];
      }
      forall i | 0 <= i < |a| ensures a[i] == d[at + i] {
        assert (a + b)[i] == a[i];
      }
    }
  }

  lemma StandsAtHead(d: seq<byte>, s: seq<byte>)
    ensures StandsAt(d, 0, s) <==> s <= d
  {
    if StandsAt(d, 0, s) {
      assert s == d[..|s|];
    }
  }

  lemma StandsAtSlice(d: seq<byte>, at: nat, s: seq<byte>)
    requires StandsAt(d, at, s)
    ensures d[at..at + |s|] == s
  {
  }

  // ------------------------------------------------------- pieces end to end

  function Concat(pieces: seq<seq<byte>>): seq<byte> {
    if pieces == [] then [] else pieces[0] + Concat(pieces[1..])
  }

  /** Each piece stands where the one before it ends, the last one up to `end`. */
  predicate InTurn(d: seq<byte>, at: nat, pieces: seq<seq<byte>>, end: nat)
    decreases |pieces|
  {
    if pieces == [] then at == end <= |d|
    else StandsAt(d, at, pieces[0]) && InTurn(d, at + |pieces[0]|, pieces[1..], end)
  }

  lemma {:induction false} ConcatInTurn(d: seq<byte>, at: nat, pieces: seq<seq<byte>>, all: seq<byte>)
    requires all == Concat(pieces) && StandsAt(d, at, all)
    ensures InTurn(d, at, pieces, at + |all|)
    decreases |pieces|
  {
    if pieces != [] {
      var first, rest := pieces[0], Concat(pieces[1..]);
      StandsAtConcat(d, at, first, rest);
      ConcatInTurn(d, at + |first|, pieces[1..], rest);
    }
  }
}
