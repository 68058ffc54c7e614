/** The detector of the BSD IPv6 fragment pattern, in the build without IPv6
    support: a walk over a header chain that feeds a table of timestamps keyed
    by source, destination and fragment identification. */
module FragDetector {
  import opened Bytes

  const HOPOPTS: byte := 0
  const IPV6: byte := 41
  const ROUTING: byte := 43
  const FRAGMENT: byte := 44
  const AH: byte := 51
  const DSTOPTS: byte := 60
  const HDR_LEN := 40
  const FRAG_LEN := 8

  type Key = seq<byte>

  datatype Verdict = NoAlert | Alert | BadPkt | IsNot | TruncatedExt | Truncated | NoMem

  /** The verdicts the walk reaches without asking the table. */
  type PlainVerdict = v: Verdict | v in {NoAlert, IsNot, TruncatedExt, Truncated} witness NoAlert

  /** What one packet amounts to: a verdict of its own, or a fragment header
      with so many octets left from it on. */
  datatype Probe =
    | Plain(verdict: PlainVerdict)
    | Fragment(key: Key, displaced: bool, more: bool, left: nat)

  predicate Skippable(kind: byte) {
    kind == HOPOPTS || kind == DSTOPTS || kind == ROUTING || kind == AH
  }

  /** Where the extension headers end: at a header of another kind or at the
      end of the data, unless the data cuts one short. */
  datatype Reach = Cut | Reach(at: nat, next: byte)

  function Skip(d: seq<byte>, at: nat, next: byte): (r: Reach)
    requires at <= |d|
    ensures r.Reach? ==> at <= r.at <= |d|
    decreases |d| - at
  {
    if at == |d| || !Skippable(next) then Reach(at, next)
    else if at + 2 > |d| || at + 8 + 8 * d[at + 1] as int > |d| then Cut
    else Skip(d, at + 8 + 8 * d[at + 1] as int, d[at])
  }

  /** The packet that starts at `base`. */
  function Classify(d: seq<byte>, base: nat): Probe
    requires base <= |d|
    decreases |d| - base
  {
    var size := |d| - base;
    if HDR_LEN > size then Plain(Truncated)
    else if d[base] / 16 != 6 then Plain(IsNot)
    else if HDR_LEN + Be16(d, base + 4) > size then Plain(Truncated)
    else
      match Skip(d, base + HDR_LEN, d[base + 6])
      case Cut => Plain(TruncatedExt)
      case Reach(at, next) =>
        if at == |d| then Plain(NoAlert)
        else if next == IPV6 then Classify(d, at)
        else if next != FRAGMENT then Plain(NoAlert)
        else if at + FRAG_LEN > |d| then Plain(TruncatedExt)
        else FragmentAt(d, base, at)
  }

  function FragmentAt(d: seq<byte>, base: nat, at: nat): Probe
    requires base + HDR_LEN <= at && at + FRAG_LEN <= |d|
  {
    Fragment(d[base + 8..base + 40] + d[at + 4..at + 8], Be16(d, at + 2) / 8 != 0, Be16(d, at + 2) % 2 == 1, |d| - at)
  }

  /** What the table and the verdict become. `noMem` says that the table could
      not take a new entry. */
  function Judge(table: map<Key, int>, timeout: int, time: int, noMem: bool, p: Probe): (map<Key, int>, Verdict) {
    if p.Plain? then (table, p.verdict)
    else if p.displaced then (table - {p.key}, NoAlert)
    else if !p.more then
      if p.key !in table then (table, BadPkt)
      else if time - table[p.key] > timeout || p.left <= 100 then (table - {p.key}, BadPkt)
      else (table, Alert)
    else if p.key !in table && noMem then (table, NoMem)
    else (table[p.key := time], NoAlert)
  }

  class Detector {
    var table: map<Key, int>
    const timeout: int

    constructor (timeout: int)
      ensures table == map[] && this.timeout == timeout
    {
      table := map[];
      this.timeout := timeout;
    }

    /** The table drops entries of its own accord. */
    method Evict(keys: set<Key>)
      modifies this`table
      ensures table == old(table) - keys
    {
      table := table - keys;
    }

    method CheckIPV6Frag(d: seq<byte>, base: nat, time: int, noMem: bool) returns (v: Verdict)
      requires base <= |d|
      modifies this`table
      ensures (table, v) == Judge(old(table), timeout, time, noMem, Classify(d, base))
      decreases |d| - base
    {
      var size := |d| - base;
      if HDR_LEN > size {
        return Truncated;
      }
      if d[base] / 16 != 6 {
        return IsNot;
      }
      if HDR_LEN + Be16(d, base + 4) > size {
        return Truncated;
      }
      var nextHeader := d[base + 6];
      var offset := HDR_LEN;
      while offset < size
        invariant HDR_LEN <= offset <= size
        invariant table == old(table)
        invariant Skip(d, base + HDR_LEN, d[base + 6]) == Skip(d, base + offset, nextHeader)
        decreases size - offset
      {
        if nextHeader == IPV6 {
          v := CheckIPV6Frag(d, base + offset, time, noMem);
          return;
        } else if Skippable(nextHeader) {
          if 2 + offset > size {
            return TruncatedExt;
          }
          nextHeader := d[base + offset];
          var headerLength := 8 + 8 * d[base + offset + 1] as int;
          if offset + headerLength > size {
            return TruncatedExt;
          }
          offset := offset + headerLength;
        } else if nextHeader == FRAGMENT {
          if offset + FRAG_LEN > size {
            return TruncatedExt;
          }
          v := CheckFragment(d, base, offset, time, noMem);
          return;
        } else {
          return NoAlert;
        }
      }
      return NoAlert;
    }

    /** The fragment header at `base + offset` against the table. */
    method CheckFragment(d: seq<byte>, base: nat, offset: nat, time: int, noMem: bool) returns (v: Verdict)
      requires HDR_LEN <= offset && base + offset + FRAG_LEN <= |d|
      modifies this`table
      ensures (table, v) == Judge(old(table), timeout, time, noMem, FragmentAt(d, base, base + offset))
    {
      var at := base + offset;
      var size := |d| - base;
      var fragData := Be16(d, at + 2);
      var key := d[base + 8..base + 40] + d[at + 4..at + 8];
      if fragData / 8 != 0 {
        table := table - {key};
        return NoAlert;
      }
      if fragData % 2 == 0 {
        if key in table {
          if time - table[key] > timeout {
            table := table - {key};
            return BadPkt;
          }
          if size - offset > 100 {
            return Alert;
          }
          table := table - {key};
          return BadPkt;
        }
        return BadPkt;
      }
      if key !in table {
        if noMem {
          return NoMem;
        }
        table := table[key := time];
      } else {
        table := table[key := time];
      }
      return NoAlert;
    }
  }
}
