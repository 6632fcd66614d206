/**
 Reading and marking IP headers in place (android core PacketInspector.kt), and the
 checksum repair that goes with it. Bit fields are written arithmetically: x ushr 4
 is x / 16, x and 0x3F is x % 64 (also for negative x, as in two's complement), and
 fields that do not overlap are added.

 The functions see a packet as its bytes from position to limit; the methods work
 on the buffer.
 */
module PacketInspector {
  type Byte = x: int | 0 <= x < 256

  const PROTO_TCP: int := 6
  const PROTO_UDP: int := 17

  // -------------------------------------------------------------- reading

  function Word(p: seq<Byte>, at: nat): (w: int)
    requires at + 1 < |p|
    ensures 0 <= w < 65536
  {
    (p[at] as int) * 256 + p[at + 1] as int
  }

  function Version(p: seq<Byte>): int { if |p| < 1 then 0 else p[0] / 16 }

  function Protocol(p: seq<Byte>): int {
    if Version(p) == 4 then (if |p| >= 10 then p[9] else -1)
    else if Version(p) == 6 then (if |p| >= 7 then p[6] else -1)
    else -1
  }

  function HeaderLength(p: seq<Byte>): int {
    if Version(p) == 4 then (if p[0] % 16 < 5 then -1 else p[0] % 16 * 4)
    else if Version(p) == 6 then 40
    else -1
  }

  function TcpHeaderLength(p: seq<Byte>, ipHeader: nat): int {
    if |p| < ipHeader + 13 then -1
    else if p[ipHeader + 12] / 16 < 5 then -1
    else p[ipHeader + 12] / 16 * 4
  }

  /** What is left of the packet behind its two headers, or less than zero if they do not tell. */
  function PayloadLength(p: seq<Byte>): int {
    var ipHeader := HeaderLength(p);
    if ipHeader < 0 then -1
    else
      var transport := if Protocol(p) == PROTO_UDP then 8
                       else if Protocol(p) == PROTO_TCP then TcpHeaderLength(p, ipHeader) else -1;
      if transport < 0 then -1 else |p| - ipHeader - transport
  }

  function Port(p: seq<Byte>, offset: nat): int {
    if Protocol(p) != PROTO_TCP && Protocol(p) != PROTO_UDP then -1
    else if HeaderLength(p) < 0 || |p| < HeaderLength(p) + offset + 2 then -1
    else Word(p, HeaderLength(p) + offset)
  }

  function Dscp(p: seq<Byte>): int {
    if Version(p) == 4 then (if |p| >= 2 then p[1] / 4 else -1)
    else if Version(p) == 6 then (if |p| < 2 then -1 else (p[0] % 16 * 16 + p[1] / 16) / 4)
    else -1
  }

  /** The two explicit-congestion bits. */
  function Ecn(p: seq<Byte>): int
    requires |p| >= 2
  {
    if Version(p) == 6 then p[1] / 16 % 4 else p[1] % 4
  }

  // ------------------------------------------------------------- checksums

  /** End-around carry: the 16-bit ones'-complement value of a sum. */
  function Fold(sum: nat): (f: nat)
    ensures f < 65536
    decreases sum
  {
    if sum < 65536 then sum else Fold(sum % 65536 + sum / 65536)
  }

  /** Section 3 of RFC 1624, equation 3: ~(~HC + ~m + m'). */
  function Incremental(current: int, oldWord: int, newWord: int): (r: int)
    requires 0 <= current < 65536 && 0 <= oldWord < 65536 && 0 <= newWord < 65536
    ensures 0 <= r < 65536
  {
    65535 - Fold((65535 - current) + (65535 - oldWord) + newWord)
  }

  /** The sum of the first n 16-bit words. */
  function WordSum(p: seq<Byte>, n: nat): nat
    requires 2 * n <= |p|
  {
    if n == 0 then 0 else WordSum(p, n - 1) + Word(p, 2 * n - 2)
  }

  /** An IPv4 packet holding the whole of its header. */
  predicate Ipv4(p: seq<Byte>) {
    Version(p) == 4 && 5 <= p[0] % 16 && p[0] % 16 * 4 <= |p|
  }

  function HeaderWords(p: seq<Byte>): (n: nat)
    requires Ipv4(p)
    ensures 10 <= n <= 30 && 2 * n <= |p|
  {
    p[0] % 16 * 2
  }

  /** Section 3.1 of RFC 791: the complement of the sum over the header, taking the
      checksum field itself as zero. */
  function FullChecksum(p: seq<Byte>): int
    requires Ipv4(p)
  {
    65535 - Fold(WordSum(p[10 := 0][11 := 0], HeaderWords(p)))
  }

  /** What a receiver tests: the whole header, checksum included, sums to all ones. */
  predicate Verifies(p: seq<Byte>)
    requires Ipv4(p)
  {
    Fold(WordSum(p, HeaderWords(p))) == 65535
  }

  // --------------------------------------------------------------- marking

  function SetWord(p: seq<Byte>, at: nat, w: int): (r: seq<Byte>)
    requires at + 1 < |p| && 0 <= w < 65536
    ensures |r| == |p| && Word(r, at) == w
  {
    p[at := w / 256][at + 1 := w % 256]
  }

  function SetDscp(p: seq<Byte>, dscp: int): (r: (seq<Byte>, bool))
    ensures |r.0| == |p|
  {
    if Version(p) == 4 then
      if |p| < 12 then (p, false)
      else
        var updated := dscp % 64 * 4 + p[1] % 4;
        if p[1] == updated then (p, false)
        else
          (SetWord(p[1 := updated], 10, Incremental(Word(p, 10), Word(p, 0), (p[0] as int) * 256 + updated)), true)
    else if Version(p) == 6 then
      if |p| < 2 then (p, false)
      else
        var tc := dscp % 64 * 4 + p[1] / 16 % 4;
        (p[0 := p[0] / 16 * 16 + tc / 16][1 := tc % 16 * 16 + p[1] % 16], true)
    else (p, false)
  }

  /** The fold loop, which ends because every round with a carry makes the sum smaller. */
  method IncrementalChecksum(current: int, oldWord: int, newWord: int) returns (r: int)
    requires 0 <= current < 65536 && 0 <= oldWord < 65536 && 0 <= newWord < 65536
    ensures r == Incremental(current, oldWord, newWord)
  {
    var sum: nat := (65535 - current) + (65535 - oldWord) + newWord;
    while sum / 65536 != 0
      invariant 0 <= sum <= 196605
      invariant Fold(sum) == Fold((65535 - current) + (65535 - oldWord) + newWord)
      decreases sum
    {
      sum := sum % 65536 + sum / 65536;
    }
    r := 65535 - sum;
  }

  /** setDscp on a buffer's window [position, limit). */
  method MarkInPlace(buf: array<Byte>, position: nat, limit: nat, dscp: int) returns (modified: bool)
    requires position <= limit <= buf.Length
    modifies buf
    ensures (buf[position..limit], modified) == SetDscp(old(buf[position..limit]), dscp)
    ensures buf[..position] == old(buf[..position]) && buf[limit..] == old(buf[limit..])
  {
    ghost var p: seq<Byte> := buf[position..limit];
    var remaining := limit - position;
    var version := 0;
    if remaining >= 1 { version := buf[position] / 16; }
    if version == 4 {
      if remaining < 12 { return false; }
      var b := buf[position + 1];
      var updated: Byte := dscp % 64 * 4 + b % 4;
      if b == updated { return false; }
      var oldWord := (buf[position] as int) * 256 + b as int;
      var newWord := (buf[position] as int) * 256 + updated as int;
      buf[position + 1] := updated;
      var at := position + 10;
      var current := (buf[at] as int) * 256 + buf[at + 1] as int;
      var repaired := IncrementalChecksum(current, oldWord, newWord);
      buf[at] := repaired / 256;
      buf[at + 1] := repaired % 256;
      assert buf[position..limit] == SetWord(p[1 := updated], 10, repaired);
      return true;
    }
    if version == 6 {
      if remaining < 2 { return false; }
      var b0, b1 := buf[position], buf[position + 1];
      var tc := dscp % 64 * 4 + b1 / 16 % 4;
      var n0: Byte := b0 / 16 * 16 + tc / 16;
      var n1: Byte := tc % 16 * 16 + b1 % 16;
      buf[position] := n0;
      buf[position + 1] := n1;
      assert buf[position..limit] == p[0 := n0][1 := n1];
      return true;
    }
    return false;
  }

  // --------------------------------------------------- exactness of repair

  /** Folding keeps the value modulo 65535, and never makes a nonzero sum zero. */
  lemma {:induction false} FoldIsCongruent(sum: nat) returns (k: nat)
    ensures sum == Fold(sum) + 65535 * k
    ensures sum > 0 ==> Fold(sum) > 0
    decreases sum
  {
    if sum < 65536 {
      k := 0;
    } else {
      var rest := FoldIsCongruent(sum % 65536 + sum / 65536);
      k := rest + sum / 65536;
    }
  }

  /** Positive sums that differ by a multiple of 65535 fold to the same value. */
  lemma SameFold(a: nat, b: nat, d: int)
    requires a > 0 && b > 0 && a - b == 65535 * d
    ensures Fold(a) == Fold(b)
  {
    var i := FoldIsCongruent(a);
    var j := FoldIsCongruent(b);
    assert Fold(a) as int - Fold(b) as int == 65535 * (d - i as int + j as int);
  }

  lemma {:induction false} WordSumUpdate(p: seq<Byte>, n: nat, k: nat, q: seq<Byte>)
    requires 2 * n <= |p| == |q| && k < n
    requires forall i | 0 <= i < 2 * n && i != 2 * k && i != 2 * k + 1 :: q[i] == p[i]
    ensures WordSum(q, n) == WordSum(p, n) - Word(p, 2 * k) + Word(q, 2 * k)
    decreases n
  {
    if k == n - 1 {
      WordSumSame(p, q, n - 1);
    } else {
      WordSumUpdate(p, n - 1, k, q);
    }
  }

  lemma {:induction false} WordSumSame(p: seq<Byte>, q: seq<Byte>, n: nat)
    requires 2 * n <= |p| == |q| && forall i | 0 <= i < 2 * n :: q[i] == p[i]
    ensures WordSum(q, n) == WordSum(p, n)
    decreases n
  {
    if n > 0 { WordSumSame(p, q, n - 1); }
  }

  lemma {:induction false} FirstWordCounts(p: seq<Byte>, n: nat)
    requires 1 <= n && 2 * n <= |p|
    ensures WordSum(p, n) >= Word(p, 0)
    decreases n
  {
    if n > 1 { FirstWordCounts(p, n - 1); } else { assert WordSum(p, 0) == 0; }
  }

  /** The sum of the header words other than the checksum. */
  function Rest(p: seq<Byte>): int
    requires Ipv4(p)
  {
    WordSum(p, HeaderWords(p)) - Word(p, 10)
  }

  lemma RestIsTheSumWithoutChecksum(p: seq<Byte>)
    requires Ipv4(p)
    ensures Rest(p) == WordSum(p[10 := 0][11 := 0], HeaderWords(p)) >= 16384
    ensures FullChecksum(p) < 65535
  {
    var q := p[10 := 0][11 := 0];
    WordSumUpdate(p, HeaderWords(p), 5, q);
    FirstWordCounts(q, HeaderWords(p));
    assert Word(q, 0) == Word(p, 0) >= 4 * 16 * 256;
    var k := FoldIsCongruent(Rest(p));
  }

  /** A header verifies exactly when its checksum field is the full recomputation,
      or all ones where that recomputation is zero (the other zero of ones' complement). */
  lemma VerifiesMeansChecksum(p: seq<Byte>)
    requires Ipv4(p)
    ensures Verifies(p) <==> Word(p, 10) == FullChecksum(p) || (Word(p, 10) == 65535 && FullChecksum(p) == 0)
  {
    RestIsTheSumWithoutChecksum(p);
    var i := FoldIsCongruent(Rest(p));
    var j := FoldIsCongruent(WordSum(p, HeaderWords(p)));
    AllOnes(Fold(Rest(p)), Word(p, 10), Fold(WordSum(p, HeaderWords(p))), i as int - j as int);
  }

  lemma AllOnes(rest: int, checksum: int, folded: int, d: int)
    requires 1 <= rest <= 65535 && 0 <= checksum <= 65535 && 1 <= folded <= 65535
    requires folded == rest + checksum + 65535 * d
    ensures folded == 65535 <==> checksum == 65535 - rest || (checksum == 65535 && rest == 65535)
  {
    assert d == 0 || d == -1;
  }

  /** What setDscp does to an IPv4 header whose marking changes, in sums. */
  lemma MarkedSums(p: seq<Byte>, dscp: int)
    requires Ipv4(p) && SetDscp(p, dscp).1
    ensures var q := SetDscp(p, dscp).0;
            && Ipv4(q) && HeaderWords(q) == HeaderWords(p)
            && Rest(q) == Rest(p) - Word(p, 0) + Word(q, 0)
            && Word(q, 10) == Incremental(Word(p, 10), Word(p, 0), Word(q, 0))
  {
    var q := SetDscp(p, dscp).0;
    var n := HeaderWords(p);
    var mid := p[1 := q[1]];
    WordSumUpdate(p, n, 0, mid);
    WordSumUpdate(mid, n, 5, q);
    assert Word(mid, 10) == Word(p, 10) && Word(q, 0) == Word(mid, 0);
  }

  /** After a change to the marking, the checksum field of a header that verified is
      the full recomputation: equal to it, not just congruent; and a header that did
      not verify still does not. */
  lemma RepairIsExact(p: seq<Byte>, dscp: int)
    requires Ipv4(p) && SetDscp(p, dscp).1
    ensures var q := SetDscp(p, dscp).0;
            && Ipv4(q)
            && (Verifies(p) ==> Word(q, 10) == FullChecksum(q))
            && (Verifies(q) <==> Verifies(p))
  {
    var q := SetDscp(p, dscp).0;
    MarkedSums(p, dscp);
    RestIsTheSumWithoutChecksum(p);
    RestIsTheSumWithoutChecksum(q);
    var m, m', c := Word(p, 0), Word(q, 0), Word(p, 10);
    var patch := (65535 - c) + (65535 - m) + m';
    assert m' >= 16384;
    var sum := Rest(p) + c;
    if Verifies(p) {
      var k := FoldIsCongruent(sum);
      assert patch - Rest(q) == 65535 * (1 - k as int);
      SameFold(patch, Rest(q), 1 - k as int);
      VerifiesMeansChecksum(q);
    } else {
      var k := FoldIsCongruent(patch);
      assert Word(q, 10) == 65535 - Fold(patch);
      var after := Rest(q) + Word(q, 10);
      assert after - sum == 65535 * (k as int - 1);
      SameFold(after, sum, k as int - 1);
    }
  }

  /** The whole contract of marking a verifying IPv4 header. Writing the value
      already there changes nothing, so it also leaves an all-ones checksum all
      ones: the field equals full recomputation afterwards exactly when the packet
      was modified or its checksum was not 0xFFFF. */
  lemma MarkingAnIpv4Header(p: seq<Byte>, dscp: int)
    requires Ipv4(p) && Verifies(p)
    ensures var (q, modified) := SetDscp(p, dscp);
            && Ipv4(q) && Verifies(q)
            && (Word(q, 10) == FullChecksum(q) <==> modified || Word(p, 10) != 65535)
            && Dscp(q) == dscp % 64 && Ecn(q) == Ecn(p)
            && (modified <==> Dscp(p) != dscp % 64)
            && (!modified ==> q == p)
            && forall i | 0 <= i < |p| && i != 1 && i != 10 && i != 11 :: q[i] == p[i]
  {
    var (q, modified) := SetDscp(p, dscp);
    if modified {
      RepairIsExact(p, dscp);
    }
    VerifiesMeansChecksum(q);
    RestIsTheSumWithoutChecksum(q);
  }

  /** IPv6 has no checksum: marking writes the traffic class and nothing around it. */
  lemma MarkingAnIpv6Header(p: seq<Byte>, dscp: int)
    requires Version(p) == 6 && |p| >= 2
    ensures var (q, modified) := SetDscp(p, dscp);
            && modified && Version(q) == 6
            && Dscp(q) == dscp % 64 && Ecn(q) == Ecn(p) && q[1] % 16 == p[1] % 16
            && forall i | 2 <= i < |p| :: q[i] == p[i]
  {
  }

  /** A verifying header for which leaving well alone leaves 0xFFFF where full
      recomputation gives zero. */
  lemma AnAllOnesChecksumCanStay() returns (p: seq<Byte>)
    ensures Ipv4(p) && Verifies(p) && !SetDscp(p, 0).1
    ensures Word(SetDscp(p, 0).0, 10) == 65535 && FullChecksum(SetDscp(p, 0).0) == 0
  {
    p := [69, 0, 186, 255] + [0, 0, 0, 0, 0, 0, 255, 255] + [0, 0, 0, 0, 0, 0, 0, 0];
    assert WordSum(p, 0) == 0;
    assert WordSum(p, 1) == 17664;
    assert WordSum(p, 2) == 65535;
    assert WordSum(p, 3) == 65535 && WordSum(p, 4) == 65535 && WordSum(p, 5) == 65535;
    assert WordSum(p, 6) == 131070 && WordSum(p, 7) == 131070 && WordSum(p, 8) == 131070 && WordSum(p, 9) == 131070;
    assert WordSum(p, 10) == 131070;
    assert Fold(131070) == Fold(65535) == 65535;
    assert SetDscp(p, 0) == (p, false);
    VerifiesMeansChecksum(p);
    RestIsTheSumWithoutChecksum(p);
  }
}
