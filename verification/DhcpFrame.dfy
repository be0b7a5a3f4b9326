/** The UDP/IPv4/Ethernet frame around a DHCP message, and its two checksums. */
module DhcpFrame {
  import opened Bytes
  import opened InetChecksum
  import InetChecksumLaws

  type Mac = m: seq<byte> | |m| == 6 witness [0, 0, 0, 0, 0, 0]

  /** An IPv4 address as its four bytes, the way the client keeps it. */
  type Addr = a: seq<byte> | |a| == 4 witness [0, 0, 0, 0]

  const UNSET: Addr := [0, 0, 0, 0]
  const BROADCAST: Addr := [255, 255, 255, 255]

  function Hi(n: nat): byte { n / 256 % 256 }

  function Lo(n: nat): byte { n % 256 }

  function Octets(v: nat): (b: seq<byte>)
    requires v < 65536
    ensures |b| == 2
  {
    [v / 256, v % 256]
  }

  function EthHeader(mac: Mac): (h: seq<byte>)
    ensures |h| == 14
  {
    [0xff, 0xff, 0xff, 0xff, 0xff, 0xff] + mac + [0x08, 0x00]
  }

  /** The 20 header bytes with a zero checksum field; the length field keeps 16 bits. */
  function IpHeader(src: Addr, dst: Addr, len: nat): (h: seq<byte>)
    ensures |h| == 20
  {
    IpFixed(len) + Ends(src, dst)
  }

  function IpFixed(len: nat): (h: seq<byte>)
    ensures |h| == 12
  {
    [0x45, 0, Hi(len), Lo(len), 0, 0, 0, 0, 64, 17, 0, 0]
  }

  function Ends(src: Addr, dst: Addr): (h: seq<byte>)
    ensures |h| == 8
  {
    src + dst
  }

  /** From port 68 to port 67, with a zero checksum field. */
  function UdpHeader(len: nat): (h: seq<byte>)
    ensures |h| == 8
  {
    [0, 68, 0, 67, Hi(len), Lo(len), 0, 0]
  }

  /** The datagram with both checksum fields zero. */
  function Blank(src: Addr, dst: Addr, bootp: seq<byte>): (p: seq<byte>)
    ensures |p| == 28 + |bootp| && Accepted(p) && Ihl(p) == 20
    ensures IpMissing(p) && L4Field(p) == Some(26) && L4Missing(p)
  {
    IpHeader(src, dst, 28 + |bootp|) + (UdpHeader(8 + |bootp|) + bootp)
  }

  function Pseudo(len: nat): (h: seq<byte>)
    ensures |h| == 4
  {
    [0, 17, Hi(len), Lo(len)]
  }

  /** The buffer the UDP checksum is taken over: pseudo-header, then the UDP datagram. */
  function PseudoBuffer(src: Addr, dst: Addr, bootp: seq<byte>): (b: seq<byte>)
    ensures |b| == 20 + |bootp|
  {
    Ends(src, dst) + Pseudo(8 + |bootp|) + (UdpHeader(8 + |bootp|) + bootp)
  }

  function UdpChecksum(src: Addr, dst: Addr, bootp: seq<byte>): (c: nat)
    ensures 0 < c < 65536
  {
    var b := PseudoBuffer(src, dst, bootp);
    var c := Checksum(b, 0, |b|);
    if c == 0 then 65535 else c
  }

  /** The datagram as sent: a UDP checksum only when the datagram fits the 1024-byte scratch buffer. */
  function Datagram(src: Addr, dst: Addr, bootp: seq<byte>): (p: seq<byte>)
    ensures |p| == 28 + |bootp|
  {
    var p := Blank(src, dst, bootp);
    var q := PutBe16(p, 10, Checksum(p, 0, 20));
    if 8 + |bootp| <= 1024 then PutBe16(q, 26, UdpChecksum(src, dst, bootp)) else q
  }

  function Frame(mac: Mac, src: Addr, dst: Addr, bootp: seq<byte>): (f: seq<byte>)
    ensures |f| == 42 + |bootp|
  {
    EthHeader(mac) + Datagram(src, dst, bootp)
  }

  // ---------------------------------------------- the two checksum routes

  /** b holds the pseudo-header of packet p followed by the datagram of p. */
  ghost predicate PseudoOf(b: seq<byte>, p: seq<byte>) {
    && Accepted(p) && Ihl(p) == 20 && p[9] == UDP && |b| == |p| - 8 && |p| - 20 < 65536
    && Agree(b, 0, p, 12, 8) && Be16(b[8], b[9]) == UDP && Be16(b[10], b[11]) == |p| - 20
    && Agree(b, 12, p, 20, |p| - 20)
  }

  lemma {:induction false} PseudoBufferIsPseudoOf(src: Addr, dst: Addr, bootp: seq<byte>)
    requires 8 + |bootp| < 65536
    ensures PseudoOf(PseudoBuffer(src, dst, bootp), Blank(src, dst, bootp))
  {
    hide Ends, IpFixed, UdpHeader, Pseudo, L4Field;
    var p, b := Blank(src, dst, bootp), PseudoBuffer(src, dst, bootp);
    var n := 8 + |bootp|;
    var ends, udp, ip := Ends(src, dst), UdpHeader(n) + bootp, IpFixed(20 + n);
    MiddleAgrees(ends, [], Pseudo(n) + udp, ip, udp);
    assert [] + ends + (Pseudo(n) + udp) == b;
    MiddleAgrees(udp, ends + Pseudo(n), [], ip + ends, []);
    assert ends + Pseudo(n) + udp + [] == b && ip + ends + udp + [] == p;
    assert b[8] == Pseudo(n)[0] && b[9] == Pseudo(n)[1] && b[10] == Pseudo(n)[2] && b[11] == Pseudo(n)[3];
    assert p[9] == ip[9];
    PseudoFields(src, dst, bootp);
  }

  lemma {:induction false} PseudoFields(src: Addr, dst: Addr, bootp: seq<byte>)
    requires 8 + |bootp| < 65536
    ensures var n := 8 + |bootp|; var x := Pseudo(n);
            Be16(x[0], x[1]) == UDP && Be16(x[2], x[3]) == n && IpFixed(20 + n)[9] == UDP
  {
  }

  lemma {:induction false} PseudoWords(b: seq<byte>)
    requires |b| >= 12
    ensures WordSum(b, 0, |b|) == Be16(b[0], b[1]) + Be16(b[2], b[3]) + Be16(b[4], b[5]) + Be16(b[6], b[7])
                                  + Be16(b[8], b[9]) + Be16(b[10], b[11]) + WordSum(b, 12, |b|)
  {
    assert WordSum(b, 8, |b|) == Be16(b[8], b[9]) + (Be16(b[10], b[11]) + WordSum(b, 12, |b|));
    assert WordSum(b, 4, |b|) == Be16(b[4], b[5]) + (Be16(b[6], b[7]) + WordSum(b, 8, |b|));
  }

  lemma {:induction false} PseudoSums(b: seq<byte>, p: seq<byte>)
    requires PseudoOf(b, p)
    ensures WordSum(b, 0, |b|) == L4Sum(p)
  {
    hide WordSum, L4Field;
    WordSumLocal(b, 12, p, 20, |p| - 20);
    PseudoWords(b);
    assert b[0] == p[12] && b[1] == p[13] && b[2] == p[14] && b[3] == p[15];
    assert b[4] == p[16] && b[5] == p[17] && b[6] == p[18] && b[7] == p[19];
  }

  /** The sum over the concatenated buffer is the running sum of the in-place repair. */
  lemma {:induction false} RoutesAgree(src: Addr, dst: Addr, bootp: seq<byte>)
    requires 8 + |bootp| < 65536
    ensures UdpChecksum(src, dst, bootp) == L4Value(Blank(src, dst, bootp))
  {
    hide WordSum, Fold, Blank, PseudoBuffer, L4Sum;
    PseudoBufferIsPseudoOf(src, dst, bootp);
    PseudoSums(PseudoBuffer(src, dst, bootp), Blank(src, dst, bootp));
  }

  lemma {:induction false} FixFillsBoth(p: seq<byte>)
    requires Accepted(p) && Ihl(p) == 20 && IpMissing(p) && L4Missing(p) && L4Field(p) == Some(26)
    ensures Fix(p) == PutBe16(PutBe16(p, 10, Checksum(p, 0, 20)), 26, L4Value(p))
  {
    hide Checksum, PutBe16, L4Field, Ihl, IpMissing, L4Missing, L4Sum, Fold, Accepted;
    FixIpKeeps(p);
    assert FixIp(p)[9] == p[9];
    InetChecksumLaws.FixIpKeepsL4(p);
  }

  /** Zeroing both checksums of a datagram within the scratch buffer and repairing it gives it back. */
  lemma {:induction false} DatagramIsFixed(src: Addr, dst: Addr, bootp: seq<byte>)
    requires 8 + |bootp| <= 1024
    ensures Datagram(src, dst, bootp) == Fix(Blank(src, dst, bootp))
  {
    hide Checksum, PutBe16, L4Field, Ihl, IpMissing, L4Missing, L4Value, Accepted, Blank, UdpChecksum, Fix;
    RoutesAgree(src, dst, bootp);
    FixFillsBoth(Blank(src, dst, bootp));
  }

  /** Both checksums of such a datagram satisfy the receiver's test. */
  lemma {:induction false} DatagramVerifies(src: Addr, dst: Addr, bootp: seq<byte>)
    requires 8 + |bootp| <= 1024
    ensures var d := Datagram(src, dst, bootp);
            Accepted(d) && InetChecksumLaws.HeaderVerifies(d) && InetChecksumLaws.L4Verifies(d)
  {
    hide Blank, Datagram, Fix;
    DatagramIsFixed(src, dst, bootp);
    InetChecksumLaws.FixVerifies(Blank(src, dst, bootp));
  }

  /** The repair leaves a sent datagram alone exactly when its UDP checksum was filled in. */
  lemma {:induction false} FixedPointIff(src: Addr, dst: Addr, bootp: seq<byte>)
    ensures Fix(Datagram(src, dst, bootp)) == Datagram(src, dst, bootp) <==> 8 + |bootp| <= 1024
  {
    var p, d := Blank(src, dst, bootp), Datagram(src, dst, bootp);
    if 8 + |bootp| <= 1024 {
      DatagramIsFixed(src, dst, bootp);
      InetChecksumLaws.FixIdempotent(p);
    } else {
      FixIpKeeps(p);
      assert d == FixIp(p) && L4Missing(d) && d[9] == UDP;
      FixIpKeeps(d);
      var e := FixIp(d);
      assert e[9] == UDP;
      assert Fix(d) == PutBe16(e, 26, L4Value(e));
      assert Be16(d[26], d[27]) == 0;
    }
  }

  // ------------------------------------------------------- in place

  lemma {:induction false} SumOfCopy(a: seq<byte>, at: nat, p: seq<byte>, n: nat)
    requires Agree(a, at, p, 0, n)
    ensures Checksum(a, at, n) == Checksum(p, 0, n)
  {
    WordSumLocal(a, at, p, 0, n);
  }

  /** The frame, in the order its parts are written. */
  lemma {:induction false} FrameByParts(mac: Mac, src: Addr, dst: Addr, bootp: seq<byte>)
    ensures
      var c := Checksum(Blank(src, dst, bootp), 0, 20);
      var u := UdpChecksum(src, dst, bootp);
      var h := Patch(EthHeader(mac) + IpHeader(src, dst, 28 + |bootp|), 24, Octets(c))
               + UdpHeader(8 + |bootp|) + bootp;
      Frame(mac, src, dst, bootp) == if 8 + |bootp| <= 1024 then Patch(h, 40, Octets(u)) else h
  {
    hide Checksum, UdpChecksum, EthHeader, IpHeader, UdpHeader;
    var p, c, u := Blank(src, dst, bootp), Checksum(Blank(src, dst, bootp), 0, 20), UdpChecksum(src, dst, bootp);
    var e, i, rest := EthHeader(mac), IpHeader(src, dst, 28 + |bootp|), UdpHeader(8 + |bootp|) + bootp;
    hide Blank, Octets;
    PutIsPatch(p, 10, c);
    PutIsPatch(PutBe16(p, 10, c), 26, u);
    PatchBehind(Patch(p, 10, Octets(c)), 26, Octets(u), e, []);
    PatchBehind(p, 10, Octets(c), e, []);
    assert p == i + rest;
    Assoc(e, i, rest);
    PatchBehind(e + i, 24, Octets(c), [], rest);
    Assoc(Patch(e + i, 24, Octets(c)), UdpHeader(8 + |bootp|), bootp);
  }

  lemma {:induction false} PutIsPatch(p: seq<byte>, at: nat, v: nat)
    requires at + 2 <= |p| && v < 65536
    ensures PutBe16(p, at, v) == Patch(p, at, Octets(v))
  {
  }

  /** Copies the pseudo-header and the datagram at eth[34..] to a scratch buffer and sums that. */
  method PutUdpChecksum(src: Addr, dst: Addr, eth: array<byte>, udpLen: nat, ghost bootp: seq<byte>)
    requires udpLen == 8 + |bootp| <= 1024 && 34 + udpLen <= eth.Length
    requires Agree(eth[..], 34, UdpHeader(udpLen) + bootp, 0, udpLen)
    modifies eth
    ensures eth[..] == Patch(old(eth[..]), 40, Octets(UdpChecksum(src, dst, bootp)))
  {
    hide Checksum, UdpHeader;
    var udp := eth[34..34 + udpLen];
    assert udp == UdpHeader(udpLen) + bootp;
    var pseudo := new byte[12 + 8 + 1024](_ => 0);
    ghost var zero := pseudo[..];
    Copy(pseudo, 0, src);
    Copy(pseudo, 4, dst);
    PatchJoin(zero, 0, src, dst);
    Copy(pseudo, 8, [0, 17, Hi(|udp|), Lo(|udp|)]);
    PatchJoin(zero, 0, src + dst, [0, 17, Hi(|udp|), Lo(|udp|)]);
    Copy(pseudo, 12, udp);
    PatchJoin(zero, 0, src + dst + [0, 17, Hi(|udp|), Lo(|udp|)], udp);
    ghost var b := PseudoBuffer(src, dst, bootp);
    assert Agree(pseudo[..], 0, b, 0, |b|);
    SumOfCopy(pseudo[..], 0, b, |b|);
    var u := IpChecksum(pseudo[..], 0, 12 + udpLen);
    if u == 0 {
      u := 0xffff;
    }
    Copy(eth, 40, Octets(u));
  }

  method WriteHeaders(mac: Mac, src: Addr, dst: Addr, ipLen: nat, eth: array<byte>)
    requires eth.Length >= 34
    modifies eth
    ensures eth[..] == Patch(old(eth[..]), 0, EthHeader(mac) + IpHeader(src, dst, ipLen))
  {
    var ff: seq<byte>, ipv4: seq<byte> := [0xff, 0xff, 0xff, 0xff, 0xff, 0xff], [0x08, 0x00];
    assert EthHeader(mac) == ff + mac + ipv4;
    assert IpHeader(src, dst, ipLen) == IpFixed(ipLen) + (src + dst);
    hide EthHeader, IpHeader, IpFixed, Ends;
    ghost var was := eth[..];
    Copy(eth, 0, ff);
    Copy(eth, 6, mac);
    PatchJoin(was, 0, ff, mac);
    Copy(eth, 12, ipv4);
    PatchJoin(was, 0, ff + mac, ipv4);
    Copy(eth, 14, IpFixed(ipLen));
    Copy(eth, 26, src);
    Copy(eth, 30, dst);
    IpHeaderJoined(was, EthHeader(mac), IpFixed(ipLen), src, dst);
  }

  lemma {:induction false} IpHeaderJoined(b: seq<byte>, e: seq<byte>, f: seq<byte>, s: seq<byte>, d: seq<byte>)
    requires |e| == 14 && |f| == 12 && |s| == |d| == 4 && |b| >= 34
    ensures Patch(Patch(Patch(Patch(b, 0, e), 14, f), 26, s), 30, d) == Patch(b, 0, e + (f + (s + d)))
  {
    PatchJoin(b, 0, e, f);
    PatchJoin(b, 0, e + f, s);
    PatchJoin(b, 0, e + f + s, d);
    Assoc(e + f, s, d);
    Assoc(e, f, s + d);
  }

  lemma {:induction false} HeaderWritten(b: seq<byte>, mac: Mac, src: Addr, dst: Addr, bootp: seq<byte>)
    requires |b| >= 34
    ensures Agree(Patch(b, 0, EthHeader(mac) + IpHeader(src, dst, 28 + |bootp|)), 14, Blank(src, dst, bootp), 0, 20)
  {
    var h, p := IpHeader(src, dst, 28 + |bootp|), Blank(src, dst, bootp);
    assert p == h + (UdpHeader(8 + |bootp|) + bootp);
    hide EthHeader, IpHeader, UdpHeader, Blank;
    forall k | 14 <= k < 34 ensures Patch(b, 0, EthHeader(mac) + h)[k] == p[k - 14 + 0] {
      assert (EthHeader(mac) + h)[k] == h[k - 14];
    }
  }

  lemma {:induction false} TailWritten(b: seq<byte>, head: seq<byte>, u: seq<byte>, v: seq<byte>)
    requires |head| + |u| + |v| <= |b|
    ensures Agree(Patch(b, 0, head + u + v), |head|, u + v, 0, |u| + |v|)
  {
    forall k | |head| <= k < |head| + |u| + |v|
      ensures Patch(b, 0, head + u + v)[k] == (u + v)[k - |head| + 0]
    {
      assert (head + u + v)[k] == (u + v)[k - |head|];
    }
  }

  /** Builds the frame in the caller's buffer, or writes nothing when it does not fit. */
  method Encapsulate(mac: Mac, src: Addr, dst: Addr, bootp: seq<byte>, eth: array<byte>, cap: nat)
    returns (n: nat)
    requires cap <= eth.Length
    modifies eth
    ensures n == if cap < 42 + |bootp| then 0 else 42 + |bootp|
    ensures eth[..] == if n == 0 then old(eth[..]) else Patch(old(eth[..]), 0, Frame(mac, src, dst, bootp))
  {
    hide Checksum, UdpChecksum, Frame, Blank, IpHeader, EthHeader, UdpHeader, Octets;
    var udpLen := 8 + |bootp|;
    var ipLen := 20 + udpLen;
    n := 14 + ipLen;
    if cap < n {
      return 0;
    }
    ghost var was := eth[..];
    WriteHeaders(mac, src, dst, ipLen, eth);
    ghost var head := EthHeader(mac) + IpHeader(src, dst, ipLen);
    HeaderWritten(was, mac, src, dst, bootp);
    SumOfCopy(eth[..], 14, Blank(src, dst, bootp), 20);
    var csum := IpChecksum(eth[..], 14, 20);
    Copy(eth, 24, Octets(csum));
    PatchOver(was, head, 24, Octets(csum));
    head := Patch(head, 24, Octets(csum));
    var header := UdpHeader(udpLen);
    Copy(eth, 34, header);
    PatchJoin(was, 0, head, header);
    Copy(eth, 42, bootp);
    PatchJoin(was, 0, head + header, bootp);
    TailWritten(was, head, header, bootp);
    head := head + header + bootp;
    if udpLen <= 1024 {
      PutUdpChecksum(src, dst, eth, udpLen, bootp);
      PatchOver(was, head, 40, Octets(UdpChecksum(src, dst, bootp)));
    }
    FrameByParts(mac, src, dst, bootp);
  }
}
