/** What RFC 1071 promises of the checksum, proved of the reference that every
    routine meets. */
module ChecksumLaws {
  import opened Bytes
  import opened Checksum
  import opened ChecksumRoutines

  // ------------------------------------------------------- byte order, 2(B)

  function Swap(w: uint16): uint16 {
    w % 256 * 256 + w / 256
  }

  lemma FlippedWord(e: Endian, a: byte, b: byte)
    ensures Word(Flip(e), a, b) == Swap(Word(e, a, b))
    ensures Word(Flip(e), a, b) + 0xffff * (Word(e, a, b) / 256) == 256 * Word(e, a, b)
  {
    var hi, lo := if e.Big? then a else b, if e.Big? then b else a;
    assert Word(e, a, b) == 256 * hi + lo && Word(Flip(e), a, b) == 256 * lo + hi;
    assert (256 * hi + lo) / 256 == hi;
  }

  /** How many times 65535 the swapped words exceed 256 times the plain ones. */
  lemma {:induction false} FlippedSum(e: Endian, d: seq<byte>) returns (q: nat)
    ensures Sum(Words(Flip(e), d)) + 0xffff * q == 256 * Sum(Words(e, d))
    ensures Sum(Words(Flip(e), d)) == 0 <==> Sum(Words(e, d)) == 0
    decreases |d|
  {
    q := 0;
    if d != [] {
      var tail, second := if |d| == 1 then [] else d[2..], if |d| == 1 then 0 else d[1];
      FlippedWord(e, d[0], second);
      assert Words(e, d) == [Word(e, d[0], second)] + Words(e, tail);
      assert Words(Flip(e), d) == [Word(Flip(e), d[0], second)] + Words(Flip(e), tail);
      var q' := FlippedSum(e, tail);
      q := q' + Word(e, d[0], second) / 256;
    }
  }

  lemma SwapCanon(n: nat, m: nat, q: nat)
    requires m + 0xffff * q == 256 * n
    requires m == 0 <==> n == 0
    ensures Canon(m) == Swap(Canon(n))
  {
    if n > 0 {
      var c, t := Canon(n), (n - 1) / 0xffff;
      SwapResidue(c);
      assert m == Swap(c) + 0xffff * (c / 256 + 256 * t - q);
      CanonResidue(m, Swap(c), c / 256 + 256 * t - q);
    }
  }

  lemma SwapResidue(c: uint16)
    ensures 256 * c == Swap(c) + 0xffff * (c / 256)
    ensures Swap(c) == 0 <==> c == 0
    ensures Swap(0xffff - c) == 0xffff - Swap(c)
  {
    var hi, lo := c / 256, c % 256;
    assert 0xffff - c == 256 * (255 - hi) + (255 - lo);
  }

  /** Summing in the other byte order gives the same checksum, bytes swapped,
      so whether it is zero does not depend on the host. */
  lemma ByteOrderIndependent(e: Endian, d: seq<byte>)
    ensures Rfc1071(Flip(e), d) == Swap(Rfc1071(e, d))
    ensures Rfc1071(Flip(e), d) == 0 <==> Rfc1071(e, d) == 0
  {
    var q := FlippedSum(e, d);
    var n, m := Sum(Words(e, d)), Sum(Words(Flip(e), d));
    SwapCanon(n, m, q);
    OnesSumIsCanon(Words(e, d));
    OnesSumIsCanon(Words(Flip(e), d));
    SwapResidue(Canon(n));
    SwapResidue(0xffff - Canon(n));
  }

  // ---------------------------------------------- storing and verifying, 1(3)

  /** The two octets the host stores for the word `v`. */
  function WordBytes(e: Endian, v: uint16): (s: (byte, byte))
    ensures Word(e, s.0, s.1) == v
  {
    if e.Little? then (v % 256, v / 256) else (v / 256, v % 256)
  }

  function StoreWord(e: Endian, d: seq<byte>, k: nat, v: uint16): (r: seq<byte>)
    requires 2 * k + 1 < |d|
    ensures |r| == |d|
  {
    var (a, b) := WordBytes(e, v);
    d[2 * k := a][2 * k + 1 := b]
  }

  lemma {:induction false} StoredWords(e: Endian, d: seq<byte>, k: nat, v: uint16)
    requires 2 * k + 1 < |d|
    ensures Words(e, StoreWord(e, d, k, v)) == Words(e, d)[k := v]
  {
    var r := StoreWord(e, d, k, v);
    if k == 0 {
      assert r[2..] == d[2..];
    } else {
      assert r[2..] == StoreWord(e, d[2..], k - 1, v);
      StoredWords(e, d[2..], k - 1, v);
    }
  }

  lemma {:induction false} SumUpdate(ws: seq<uint16>, k: nat, v: uint16)
    requires k < |ws|
    ensures Sum(ws[k := v]) == Sum(ws) - ws[k] + v
  {
    if k == 0 {
      assert ws[0 := v][1..] == ws[1..];
    } else {
      assert ws[k := v][1..] == ws[1..][k - 1 := v];
      SumUpdate(ws[1..], k - 1, v);
    }
  }

  /** A sender zeroes the checksum word, sums, and stores the result in host
      order; the receiver's sum over the stored buffer is then always zero. */
  lemma StoredChecksumVerifies(e: Endian, d: seq<byte>, k: nat)
    requires 2 * k + 1 < |d|
    requires Words(e, d)[k] == 0
    ensures Rfc1071(e, StoreWord(e, d, k, Rfc1071(e, d))) == 0
  {
    var v := Rfc1071(e, d);
    var d' := StoreWord(e, d, k, v);
    var n, n' := Sum(Words(e, d)), Sum(Words(e, d'));
    StoredWords(e, d, k, v);
    SumUpdate(Words(e, d), k, v);
    OnesSumIsCanon(Words(e, d));
    OnesSumIsCanon(Words(e, d'));
    ComplementCanon(n, n');
  }

  /** A sum and the complement of its canonical value. */
  lemma ComplementCanon(n: nat, n': nat)
    requires n' == n + 0xffff - Canon(n)
    ensures Canon(n') == 0xffff
  {
    if n > 0 {
      CanonResidue(n', 0xffff, (n - 1) / 0xffff);
    }
  }

  // -------------------------------------------------------- error detection

  lemma {:induction false} SumPositive(ws: seq<uint16>, k: nat)
    requires k < |ws|
    ensures ws[k] <= Sum(ws)
    ensures Sum(ws) > ws[k] <==> exists j :: 0 <= j < |ws| && j != k && ws[j] != 0
  {
    if k > 0 {
      SumPositive(ws[1..], k - 1);
      if j :| 0 <= j < |ws| && j != k && ws[j] != 0 {
        if j > 0 {
          assert ws[1..][j - 1] != 0;
        }
      }
    } else {
      SumZero(ws[1..]);
      if j :| 0 <= j < |ws| && j != k && ws[j] != 0 {
        assert ws[1..][j - 1] != 0;
      }
    }
  }

  lemma {:induction false} SumZero(ws: seq<uint16>)
    ensures Sum(ws) > 0 <==> exists j :: 0 <= j < |ws| && ws[j] != 0
  {
    if ws != [] {
      SumZero(ws[1..]);
      if j :| 0 <= j < |ws| && ws[j] != 0 {
        if j > 0 {
          assert ws[1..][j - 1] != 0;
        }
      }
    }
  }

  lemma CanonCollision(rest: nat, a: uint16, b: uint16)
    requires a < b
    ensures Canon(rest + a) == Canon(rest + b) <==> a == 0 && b == 0xffff && rest > 0
  {
    if rest + a > 0 {
      var p, q := (rest + a - 1) / 0xffff, (rest + b - 1) / 0xffff;
      assert rest + a == Canon(rest + a) + 0xffff * p;
      assert rest + b == Canon(rest + b) + 0xffff * q;
      if b - a == 0xffff {
        CanonResidue(rest + b, rest + a, 1);
      }
    }
  }

  /** Changing exactly one word goes unnoticed just when one of the two values
      is 0x0000, the other is 0xffff, and some other word is not zero. */
  lemma {:induction false} OneWordChange(e: Endian, d: seq<byte>, d': seq<byte>, k: nat)
    requires |d| == |d'| && k < |Words(e, d)|
    requires Words(e, d') == Words(e, d)[k := Words(e, d')[k]]
    requires Words(e, d)[k] != Words(e, d')[k]
    ensures Rfc1071(e, d) == Rfc1071(e, d') <==>
              && ((Words(e, d)[k] == 0x0000 && Words(e, d')[k] == 0xffff)
                  || (Words(e, d)[k] == 0xffff && Words(e, d')[k] == 0x0000))
              && exists j :: 0 <= j < |Words(e, d)| && j != k && Words(e, d)[j] != 0
  {
    OnesSumIsCanon(Words(e, d));
    OnesSumIsCanon(Words(e, d'));
    OneWordSums(Words(e, d), k, Words(e, d')[k]);
  }

  lemma OneWordSums(ws: seq<uint16>, k: nat, b: uint16)
    requires k < |ws| && ws[k] != b
    ensures Canon(Sum(ws)) == Canon(Sum(ws[k := b])) <==>
              && ((ws[k] == 0x0000 && b == 0xffff) || (ws[k] == 0xffff && b == 0x0000))
              && exists j :: 0 <= j < |ws| && j != k && ws[j] != 0
  {
    SumUpdate(ws, k, b);
    SumPositive(ws, k);
    if ws[k] < b {
      CanonCollision(Sum(ws) - ws[k], ws[k], b);
    } else {
      CanonCollision(Sum(ws) - ws[k], b, ws[k]);
    }
  }

  // --------------------------------------------- where deferred carries end

  function Ones(n: nat): (d: seq<byte>)
    ensures |d| == 2 * n
  {
    seq(2 * n, _ => 0xff)
  }

  lemma {:induction false} SumOfOnes(e: Endian, n: nat)
    ensures |Words(e, Ones(n))| == n && Sum(Words(e, Ones(n))) == 0xffff * n
  {
    if n > 0 {
      assert Ones(n)[2..] == Ones(n - 1);
      SumOfOnes(e, n - 1);
    }
  }

  /** Dropping carries out of bit 31 leaves the canonical value as it is iff none
      were dropped, or a multiple of 65535 and not all that was there. */
  lemma DroppedCarries(s: nat, m: nat, q: nat)
    requires s == m + 0x1_0000_0000 * q && m < 0x1_0000_0000
    ensures Canon(m) == Canon(s) <==> q == 0 || (m > 0 && q % 0xffff == 0)
  {
    if q > 0 && m > 0 {
      var a, b := (m - 1) / 0xffff, (s - 1) / 0xffff;
      assert m == Canon(m) + 0xffff * a && s == Canon(s) + 0xffff * b;
      assert 0x1_0000_0000 == 0xffff * 0x1_0001 + 1;
      assert Canon(s) - Canon(m) == q + 0xffff * (0x1_0001 * q + a - b);
      if q % 0xffff == 0 {
        CanonResidue(s, m, 0x1_0001 * q + q / 0xffff);
      }
    }
  }

  /** What a routine returns is the checksum of RFC 1071 iff the plain sum of all
      words fits 32 bits, or the carries lost make up a multiple of 65535 and
      something is left. */
  lemma DeferredCarryIff(e: Endian, h: seq<byte>, d: seq<byte>, r: uint16, s: nat)
    requires |h| % 2 == 0 && IsChecksum(e, h, d, r)
    requires s == Sum(Words(e, h)) + Sum(Words(e, d))
    ensures r == Rfc1071(e, h + d) <==>
              s < 0x1_0000_0000 || (s % 0x1_0000_0000 > 0 && s / 0x1_0000_0000 % 0xffff == 0)
  {
    WordsAppend(e, h, d);
    SumAppend(Words(e, h), Words(e, d));
    OnesSumIsCanon(Words(e, h + d));
    DroppedCarries(s, s % 0x1_0000_0000, s / 0x1_0000_0000);
  }

  /** 65537 is the last safe word count: with 65538 words of 0xffff the
      accumulator wraps, and the routines return 1 where RFC 1071 has 0. */
  lemma {:induction false} DeferredCarryLimit(e: Endian, n: nat, r: uint16)
    requires n == 65538
    requires IsChecksum(e, [], Ones(n), r)
    ensures |Words(e, Ones(n))| == 65538
    ensures r == 1 && Rfc1071(e, Ones(n)) == 0
  {
    SumOfOnes(e, n);
    OnesSumIsCanon(Words(e, Ones(n)));
    assert Sum(Words(e, [])) == 0;
    assert Sum(Words(e, Ones(n))) == 0x1_0000_0000 + 0xfffe;
  }
}
