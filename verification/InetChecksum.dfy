/**
 The Internet checksum (section 1 of RFC 1071) as computed over a buffer, and the
 in-place repair of IPv4 header and TCP/UDP/ICMP checksums that utun left zero.
 */
module InetChecksum {
  import opened Bytes

  // --------------------------------------------------- sums and folding

  /** Sum of the big-endian 16-bit words of d[i..end]; an odd last byte is the high half of a word. */
  function WordSum(d: seq<byte>, i: nat, end: nat): nat
    requires i <= end <= |d|
    decreases end - i
  {
    if i == end then 0
    else if i + 1 == end then 256 * (d[i] as int)
    else Be16(d[i], d[i + 1]) + WordSum(d, i + 2, end)
  }

  /** What the fold loop computes. */
  function Fold(s: nat): (f: nat)
    ensures f < 65536
  {
    if s < 65536 then s else Fold(s % 65536 + s / 65536)
  }

  /** Folding ends with a 16-bit value congruent to the sum modulo 65535, and zero only for zero. */
  lemma {:induction false} FoldClosedForm(s: nat)
    ensures Fold(s) == if s == 0 then 0 else (s - 1) % 65535 + 1
    ensures Fold(s) % 65535 == s % 65535
    decreases s
  {
    if s >= 65536 {
      var t := s % 65536 + s / 65536;
      FoldClosedForm(t);
      assert s == t + 65535 * (s / 65536);
      AddMultiple(t - 1, s / 65536);
      AddMultiple(t, s / 65536);
    }
  }

  lemma {:induction false} AddMultiple(x: nat, k: nat)
    ensures (x + 65535 * k) % 65535 == x % 65535
  {
    var q, r := x / 65535, x % 65535;
    assert x + 65535 * k == 65535 * (q + k) + r;
  }

  /** Adding the complement of the folded sum makes the sum all ones. */
  lemma {:induction false} ComplementCompletes(s: nat)
    ensures Fold(s + (65535 - Fold(s))) == 65535
    ensures Fold(s) == 65535 ==> Fold(s + 65535) == 65535
  {
    FoldClosedForm(s);
    var t := s + (65535 - Fold(s));
    FoldClosedForm(t);
    if s > 0 {
      var q := (s - 1) / 65535;
      assert t - 1 == 65534 + 65535 * q;
      AddMultiple(65534, q);
      FoldClosedForm(s + 65535);
      AddMultiple(s - 1, 1);
    }
  }

  /** The folded sum of n bytes can be read off without wrap-around up to 131074 bytes. */
  lemma {:induction false} WordSumBound(d: seq<byte>, i: nat, end: nat)
    requires i <= end <= |d|
    ensures WordSum(d, i, end) <= 65535 * ((end - i + 1) / 2)
    ensures end - i <= 131074 ==> WordSum(d, i, end) < U32
    decreases end - i
  {
    if i + 2 <= end {
      WordSumBound(d, i + 2, end);
      assert (end - i + 1) / 2 == (end - (i + 2) + 1) / 2 + 1;
    }
  }

  /** The checksum of d[at..at + len], with the engine's 32-bit accumulator. */
  function Checksum(d: seq<byte>, at: nat, len: nat): (c: nat)
    requires at + len <= |d|
    ensures c < 65536
  {
    65535 - Fold(WordSum(d, at, at + len) % U32)
  }

  lemma {:induction false} DropMultiple(x: nat, k: nat)
    ensures (x + U32 * k) % U32 == x % U32
  {
    var q, r := x / U32, x % U32;
    assert x + U32 * k == U32 * (q + k) + r;
  }

  /** Reducing a partial sum early does not change the reduced total. */
  lemma {:induction false} ModStep(s: nat, w: nat, rest: nat)
    ensures ((s + w) % U32 + rest) % U32 == (s + (w + rest)) % U32
  {
    var q, r := (s + w) / U32, (s + w) % U32;
    assert s + (w + rest) == (r + rest) + U32 * q;
    DropMultiple(r + rest, q);
  }

  /** The summing loop over d[at..end] with a 32-bit accumulator. */
  method Accumulate(d: seq<byte>, at: nat, end: nat, start: u32) returns (s: u32)
    requires at <= end <= |d|
    ensures s == (start + WordSum(d, at, end)) % U32
  {
    s := start;
    var p, n := at, end - at;
    while n > 1
      invariant p + n == end && at <= p <= end
      invariant (s + WordSum(d, p, end)) % U32 == (start + WordSum(d, at, end)) % U32
      decreases n
    {
      ModStep(s, Be16(d[p], d[p + 1]), WordSum(d, p + 2, end));
      s := (s + Be16(d[p], d[p + 1])) % U32;
      p, n := p + 2, n - 2;
    }
    if n != 0 {
      s := (s + 256 * (d[p] as int)) % U32;
    }
  }

  method FoldLoop(start: u32) returns (s: nat)
    ensures s == Fold(start)
  {
    s := start;
    while s / 65536 != 0
      invariant Fold(s) == Fold(start)
      decreases s
    {
      s := s % 65536 + s / 65536;
    }
  }

  /** With at most 131074 bytes the result is the RFC 1071 checksum of the plain sum. */
  method IpChecksum(d: seq<byte>, at: nat, len: nat) returns (c: nat)
    requires at + len <= |d|
    ensures c == Checksum(d, at, len) < 65536
    ensures len <= 131074 ==> Fold(WordSum(d, at, at + len) + c) == 65535
  {
    hide WordSum, Fold;
    var s := Accumulate(d, at, at + len, 0);
    var f := FoldLoop(s);
    if len <= 131074 {
      ChecksumCompletes(d, at, len);
    }
    return 65535 - f;
  }

  lemma {:induction false} ChecksumCompletes(d: seq<byte>, at: nat, len: nat)
    requires at + len <= |d| && len <= 131074
    ensures Fold(WordSum(d, at, at + len) + Checksum(d, at, len)) == 65535
  {
    hide WordSum, Fold;
    var s := WordSum(d, at, at + len);
    WordSumBound(d, at, at + len);
    assert s % U32 == s;
    ComplementCompletes(s);
  }

  // ------------------------------------------------ sums under local change

  /** Equal bytes have equal sums. */
  lemma {:induction false} WordSumLocal(a: seq<byte>, i: nat, b: seq<byte>, j: nat, n: nat)
    requires i + n <= |a| && j + n <= |b|
    requires forall k :: i <= k < i + n ==> a[k] == b[k - i + j]
    ensures WordSum(a, i, i + n) == WordSum(b, j, j + n)
    decreases n
  {
    if n >= 2 {
      assert a[i] == b[j] && a[i + 1] == b[j + 1];
      WordSumLocal(a, i + 2, b, j + 2, n - 2);
    } else if n == 1 {
      assert a[i] == b[j];
    }
  }

  /** A sum splits at any even distance. */
  lemma {:induction false} WordSumSplit(d: seq<byte>, i: nat, m: nat, end: nat)
    requires i <= m <= end <= |d| && (m - i) % 2 == 0
    ensures WordSum(d, i, end) == WordSum(d, i, m) + WordSum(d, m, end)
    decreases m - i
  {
    if i < m {
      WordSumSplit(d, i + 2, m, end);
    }
  }

  function PutBe16(p: seq<byte>, at: nat, v: nat): (q: seq<byte>)
    requires at + 2 <= |p| && v < 65536
    ensures |q| == |p| && Be16(q[at], q[at + 1]) == v
    ensures forall k :: 0 <= k < |p| && k != at && k != at + 1 ==> q[k] == p[k]
  {
    p[at := v / 256][at + 1 := v % 256]
  }

  /** Writing a word over a zero word adds it to every sum that covers it at an even distance. */
  lemma {:induction false} PutAdds(p: seq<byte>, i: nat, at: nat, end: nat, v: nat)
    requires i <= at && at + 2 <= end <= |p| && (at - i) % 2 == 0 && v < 65536
    requires p[at] == 0 && p[at + 1] == 0
    ensures WordSum(PutBe16(p, at, v), i, end) == WordSum(p, i, end) + v
  {
    var q := PutBe16(p, at, v);
    WordSumSplit(p, i, at, end);
    WordSumSplit(q, i, at, end);
    WordSumLocal(p, i, q, i, at - i);
    WordSumLocal(p, at + 2, q, at + 2, end - (at + 2));
  }

  // ----------------------------------------------------- the IPv4 packet

  const TCP: byte := 6
  const UDP: byte := 17
  const ICMP: byte := 1

  function Ihl(p: seq<byte>): (n: nat)
    requires |p| >= 1
    ensures n % 4 == 0 && n <= 60
  {
    p[0] % 16 * 4
  }

  /** The packets the repair accepts; on any other it returns -1 and writes nothing. */
  predicate Accepted(p: seq<byte>) {
    |p| >= 20 && p[0] / 16 == 4 && 20 <= Ihl(p) <= |p|
  }

  /** Only the fragment offset counts: a first fragment is treated as a whole packet. */
  predicate IsFragment(p: seq<byte>)
    requires Accepted(p)
  {
    Be16(p[6], p[7]) % 0x2000 != 0
  }

  /** Position of the layer-4 checksum in the packet, if the packet has one to look at. */
  function L4Field(p: seq<byte>): (at: Option<nat>)
    requires Accepted(p)
    ensures at.Some? ==> Ihl(p) <= at.value && at.value + 2 <= |p| && (at.value - Ihl(p)) % 2 == 0
  {
    var l4 := |p| - Ihl(p);
    if IsFragment(p) then None
    else if p[9] == TCP && l4 >= 20 then Some(Ihl(p) + 16)
    else if p[9] == UDP && l4 >= 8 then Some(Ihl(p) + 6)
    else if p[9] == ICMP && l4 >= 4 then Some(Ihl(p) + 2)
    else None
  }

  predicate IpMissing(p: seq<byte>)
    requires Accepted(p)
  {
    p[10] == 0 && p[11] == 0
  }

  predicate L4Missing(p: seq<byte>)
    requires Accepted(p)
  {
    L4Field(p).Some? && p[L4Field(p).value] == 0 && p[L4Field(p).value + 1] == 0
  }

  /** Source, destination, protocol and layer-4 length; ICMP has no pseudo-header. */
  function PseudoSum(p: seq<byte>): nat
    requires Accepted(p)
  {
    if p[9] == TCP || p[9] == UDP then
      Be16(p[12], p[13]) + Be16(p[14], p[15]) + Be16(p[16], p[17]) + Be16(p[18], p[19])
        + p[9] + (|p| - Ihl(p)) % U32
    else 0
  }

  function L4Sum(p: seq<byte>): nat
    requires Accepted(p)
  {
    PseudoSum(p) + WordSum(p, Ihl(p), |p|)
  }

  function L4Value(p: seq<byte>): (c: nat)
    requires Accepted(p)
    ensures c < 65536 && (p[9] == UDP ==> c != 0)
  {
    var c := 65535 - Fold(L4Sum(p) % U32);
    if p[9] == UDP && c == 0 then 65535 else c
  }

  function FixIp(p: seq<byte>): (q: seq<byte>)
    requires Accepted(p)
    ensures |q| == |p| && forall k :: 0 <= k < |p| && k != 10 && k != 11 ==> q[k] == p[k]
  {
    if IpMissing(p) then PutBe16(p, 10, Checksum(p, 0, Ihl(p))) else p
  }

  function FixL4(p: seq<byte>): (q: seq<byte>)
    requires Accepted(p)
    ensures |q| == |p|
    ensures forall k :: 0 <= k < |p| && (L4Field(p).None? || (k != L4Field(p).value && k != L4Field(p).value + 1)) ==>
              q[k] == p[k]
  {
    if L4Missing(p) then PutBe16(p, L4Field(p).value, L4Value(p)) else p
  }

  /** The packet after the repair. */
  function Fix(p: seq<byte>): (q: seq<byte>)
    ensures |q| == |p|
  {
    if Accepted(p) then FixL4(FixIp(p)) else p
  }

  /** Where the repair looks for a layer-4 checksum, relative to the layer-4 header; -1 for nowhere. */
  method FieldOffset(p: seq<byte>, ihl: nat) returns (off: int)
    requires Accepted(p) && ihl == Ihl(p)
    ensures L4Field(p) == if off < 0 then None else Some(ihl + off)
    ensures off >= 0 ==> ihl + off + 2 <= |p|
  {
    var frag := Be16(p[6], p[7]);
    var isFrag := frag % 0x2000 != 0;
    var proto := p[9];
    var l4len := |p| - ihl;
    off := -1;
    if !isFrag && l4len >= 4 {
      if proto == 6 && l4len >= 20 {
        off := 16;
      } else if proto == 17 && l4len >= 8 {
        off := 6;
      } else if proto == 1 && l4len >= 4 {
        off := 2;
      }
    }
  }

  /** The running sum of the repair: the pseudo-header first, then the layer-4 bytes. */
  method L4Checksum(p: seq<byte>, ihl: nat) returns (csum: nat)
    requires Accepted(p) && ihl == Ihl(p)
    ensures csum == L4Value(p)
  {
    var proto := p[9];
    var l4len := |p| - ihl;
    var s: u32 := 0;
    if proto == 6 || proto == 17 {
      s := Be16(p[12], p[13]) + Be16(p[14], p[15]) + Be16(p[16], p[17]) + Be16(p[18], p[19]);
      s := s + proto;
      s := (s + l4len % U32) % U32;
    }
    assert s == PseudoSum(p) % U32;
    s := Accumulate(p, ihl, |p|, s);
    ModStep(0, PseudoSum(p), WordSum(p, ihl, |p|));
    assert s == L4Sum(p) % U32;
    var f := FoldLoop(s);
    csum := 65535 - f;
    if proto == 17 && csum == 0 {
      csum := 0xffff;
    }
  }

  /** Bytes 0..20 other than the checksum, and the length, decide everything the repair looks at. */
  lemma {:induction false} HeaderDecides(p: seq<byte>, q: seq<byte>)
    requires Accepted(p) && |q| == |p|
    requires forall k :: 0 <= k < 20 && k != 10 && k != 11 ==> q[k] == p[k]
    ensures Accepted(q) && Ihl(q) == Ihl(p) && L4Field(q) == L4Field(p) && PseudoSum(q) == PseudoSum(p)
  {
    assert q[0] == p[0] && q[6] == p[6] && q[7] == p[7] && q[9] == p[9];
    assert q[12] == p[12] && q[13] == p[13] && q[14] == p[14] && q[15] == p[15];
    assert q[16] == p[16] && q[17] == p[17] && q[18] == p[18] && q[19] == p[19];
  }

  lemma {:induction false} FixIpKeeps(p: seq<byte>)
    requires Accepted(p)
    ensures Accepted(FixIp(p)) && Ihl(FixIp(p)) == Ihl(p) && PseudoSum(FixIp(p)) == PseudoSum(p)
    ensures L4Field(FixIp(p)) == L4Field(p) && L4Missing(FixIp(p)) == L4Missing(p)
  {
    hide FixIp, L4Field, PseudoSum;
    HeaderDecides(p, FixIp(p));
  }

  method FixChecksums(ip: array?<byte>, len: nat) returns (rc: int)
    requires ip != null ==> len <= ip.Length
    modifies if ip == null then {} else {ip}
    ensures rc == if ip != null && old(Accepted(ip[..len])) then 0 else -1
    ensures ip != null ==> ip[..len] == Fix(old(ip[..len])) && ip[len..] == old(ip[len..])
  {
    hide Checksum, L4Value, L4Field, PutBe16;
    if ip == null || len < 20 {
      return -1;
    }
    if ip[0] / 16 != 4 {
      return -1;
    }
    var ihl := ip[0] % 16 * 4;
    if ihl < 20 || len < ihl {
      return -1;
    }
    var p := ip[..len];
    assert Accepted(p) && ihl == Ihl(p);
    var csumOff := FieldOffset(p, ihl);
    var ipMissing := ip[10] == 0 && ip[11] == 0;
    var l4Missing := csumOff >= 0 && ip[ihl + csumOff] == 0 && ip[ihl + csumOff + 1] == 0;
    assert ipMissing == IpMissing(p) && l4Missing == L4Missing(p);
    if !ipMissing && !l4Missing {
      return 0;
    }
    FixIpKeeps(p);
    if ipMissing {
      var cs := IpChecksum(ip[..len], 0, ihl);
      Wr16Be(ip, 10, cs, len);
    }
    assert ip[..len] == FixIp(p);
    if !l4Missing {
      return 0;
    }
    var csum := L4Checksum(ip[..len], ihl);
    Wr16Be(ip, ihl + csumOff, csum, len);
    return 0;
  }

  method Wr16Be(a: array<byte>, at: nat, v: nat, len: nat)
    requires at + 2 <= len <= a.Length && v < 65536
    modifies a
    ensures a[..len] == PutBe16(old(a[..len]), at, v) && a[len..] == old(a[len..])
  {
    a[at] := v / 256;
    a[at + 1] := v % 256;
  }
}
