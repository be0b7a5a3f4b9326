/** What a repaired packet satisfies, and that repairing is idempotent. */
module InetChecksumLaws {
  import opened Bytes
  import opened InetChecksum

  /** The largest IPv4 datagram. */
  const MAX_DATAGRAM: nat := 65535

  /** The receiver's test on the header: all its words add up to all ones. */
  predicate HeaderVerifies(p: seq<byte>)
    requires Accepted(p)
  {
    Fold(WordSum(p, 0, Ihl(p))) == 0xFFFF
  }

  /** The receiver's test on pseudo-header and layer-4 bytes. */
  predicate L4Verifies(p: seq<byte>)
    requires Accepted(p)
  {
    Fold(L4Sum(p)) == 0xFFFF
  }

  lemma {:induction false} FixIpSums(p: seq<byte>)
    requires Accepted(p) && IpMissing(p)
    ensures Accepted(FixIp(p)) && HeaderVerifies(FixIp(p))
  {
    hide WordSum, Fold, PutBe16, Checksum, L4Field, PseudoSum;
    FixIpKeeps(p);
    PutAdds(p, 0, 10, Ihl(p), Checksum(p, 0, Ihl(p)));
    ChecksumCompletes(p, 0, Ihl(p));
  }

  /** The layer-4 total, header length and protocol do not see the header checksum. */
  lemma {:induction false} FixIpKeepsL4(p: seq<byte>)
    requires Accepted(p)
    ensures Accepted(FixIp(p)) && L4Sum(FixIp(p)) == L4Sum(p)
  {
    hide FixIp, PseudoSum, L4Field, WordSum;
    FixIpKeeps(p);
    WordSumLocal(FixIp(p), Ihl(p), p, Ihl(p), |p| - Ihl(p));
  }

  lemma {:induction false} FixL4Keeps(p: seq<byte>)
    requires Accepted(p)
    ensures var q := FixL4(p);
            && Accepted(q) && Ihl(q) == Ihl(p) && L4Field(q) == L4Field(p) && PseudoSum(q) == PseudoSum(p)
            && IpMissing(q) == IpMissing(p) && WordSum(q, 0, Ihl(p)) == WordSum(p, 0, Ihl(p))
  {
    hide FixL4, L4Field, PseudoSum, WordSum;
    HeaderDecides(p, FixL4(p));
    WordSumLocal(FixL4(p), 0, p, 0, Ihl(p));
  }

  lemma {:induction false} L4SumBound(p: seq<byte>)
    requires Accepted(p) && |p| <= MAX_DATAGRAM
    ensures L4Sum(p) < U32
  {
    WordSumBound(p, Ihl(p), |p|);
  }

  /** What the new layer-4 checksum adds to the total it was computed from. */
  lemma {:induction false} FixL4Adds(p: seq<byte>)
    requires Accepted(p) && L4Missing(p)
    ensures Accepted(FixL4(p)) && L4Sum(FixL4(p)) == L4Sum(p) + L4Value(p)
  {
    hide L4Field, PseudoSum, WordSum, L4Value, PutBe16;
    FixL4Keeps(p);
    PutAdds(p, Ihl(p), L4Field(p).value, |p|, L4Value(p));
  }

  /** Also with the UDP rule that a computed zero is stored as 0xFFFF. */
  lemma {:induction false} L4ValueCompletes(p: seq<byte>)
    requires Accepted(p) && L4Sum(p) < U32
    ensures Fold(L4Sum(p) + L4Value(p)) == 65535
  {
    hide L4Sum, Fold;
    ComplementCompletes(L4Sum(p));
  }

  lemma {:induction false} FixL4Sums(p: seq<byte>)
    requires Accepted(p) && L4Missing(p) && |p| <= MAX_DATAGRAM
    ensures Accepted(FixL4(p)) && L4Verifies(FixL4(p))
  {
    hide L4Sum, L4Value, FixL4, Fold, L4Field;
    FixL4Adds(p);
    L4SumBound(p);
    L4ValueCompletes(p);
  }

  /**
   After the repair a checksum verifies exactly when it verified before or was
   missing; so every field that was filled in verifies, and nothing else is repaired.
   */
  lemma {:induction false} FixVerifies(p: seq<byte>)
    requires Accepted(p) && |p| <= MAX_DATAGRAM
    ensures Accepted(Fix(p))
    ensures HeaderVerifies(Fix(p)) <==> IpMissing(p) || HeaderVerifies(p)
    ensures L4Verifies(Fix(p)) <==> L4Missing(p) || L4Verifies(p)
  {
    hide FixIp, FixL4, L4Sum, WordSum, L4Field, PseudoSum;
    var q := FixIp(p);
    FixIpKeeps(p);
    FixIpKeepsL4(p);
    FixL4Keeps(q);
    if IpMissing(p) {
      FixIpSums(p);
    } else {
      FixIpIdle(p);
    }
    if L4Missing(p) {
      FixL4Sums(q);
    } else {
      FixL4Idle(q);
    }
  }

  lemma {:induction false} FixIpIdle(p: seq<byte>)
    requires Accepted(p) && !IpMissing(p)
    ensures FixIp(p) == p
  {
  }

  lemma {:induction false} FixL4Idle(p: seq<byte>)
    requires Accepted(p) && !L4Missing(p)
    ensures FixL4(p) == p
  {
  }

  /** Every byte outside the checksum fields that were zero is left as it was. */
  lemma {:induction false} FixKeepsOtherBytes(p: seq<byte>, k: nat)
    requires k < |p|
    requires Accepted(p) && IpMissing(p) ==> k != 10 && k != 11
    requires Accepted(p) && L4Missing(p) ==> k != L4Field(p).value && k != L4Field(p).value + 1
    ensures Fix(p)[k] == p[k]
  {
    if Accepted(p) {
      hide Checksum, L4Value, L4Field, PutBe16;
      FixIpKeeps(p);
    }
  }

  // ----------------------------------------------------- deferred carries

  /** Ones' complement addition of 16-bit words: the carry out of the top is added back at once. */
  function OnesAdd(x: nat, y: nat): (z: nat)
    requires x < 65536 && y < 65536
    ensures z < 65536
  {
    if x + y < 65536 then x + y else x + y - 65535
  }

  /** The definition of the sum: word by word, with end-around carry at every addition. */
  function OnesSum(d: seq<byte>, i: nat, end: nat): (s: nat)
    requires i <= end <= |d|
    ensures s < 65536
    decreases end - i
  {
    if i == end then 0
    else if i + 1 == end then OnesAdd(256 * (d[i] as int), 0)
    else OnesAdd(Be16(d[i], d[i + 1]), OnesSum(d, i + 2, end))
  }

  lemma {:induction false} FoldAdds(w: nat, s: nat)
    requires w < 65536
    ensures Fold(w + s) == OnesAdd(w, Fold(s))
  {
    hide Fold;
    FoldClosedForm(s);
    FoldClosedForm(w + s);
    if s > 0 {
      var f, q := (s - 1) % 65535 + 1, (s - 1) / 65535;
      assert w + s - 1 == (w + f - 1) + 65535 * q;
      AddMultiple(w + f - 1, q);
    }
  }

  /** Accumulating first and folding at the end gives the ones' complement sum. */
  lemma {:induction false} DeferredCarries(d: seq<byte>, i: nat, end: nat)
    requires i <= end <= |d|
    ensures Fold(WordSum(d, i, end)) == OnesSum(d, i, end)
    decreases end - i
  {
    if i + 2 <= end {
      hide Fold;
      DeferredCarries(d, i + 2, end);
      FoldAdds(Be16(d[i], d[i + 1]), WordSum(d, i + 2, end));
    }
  }

  // ------------------------------------------------------------- idempotence

  /** The header checksum of a packet whose header checksum is in place again computes to itself. */
  lemma {:induction false} FixIpTwice(p: seq<byte>)
    requires Accepted(p)
    ensures Accepted(FixIp(p)) && FixIp(FixIp(p)) == FixIp(p)
  {
    FixIpKeeps(p);
    if IpMissing(p) {
      var c := Checksum(p, 0, Ihl(p));
      var q := FixIp(p);
      if IpMissing(q) {
        assert Be16(q[10], q[11]) == c == 0;
        assert q == p;
      }
    }
  }

  lemma {:induction false} FixL4Twice(p: seq<byte>)
    requires Accepted(p)
    ensures Accepted(FixL4(p)) && FixL4(FixL4(p)) == FixL4(p)
  {
    FixL4Keeps(p);
    if L4Missing(p) {
      var at := L4Field(p).value;
      var q := FixL4(p);
      if L4Missing(q) {
        assert Be16(q[at], q[at + 1]) == L4Value(p) == 0;
        assert q == p;
      }
    }
  }

  /** Repairing the layer-4 checksum and then the header is the same as the other way round. */
  lemma {:induction false} FixIpAfterFixL4(p: seq<byte>)
    requires Accepted(p) && FixIp(p) == p
    ensures Accepted(FixL4(p)) && FixIp(FixL4(p)) == FixL4(p)
  {
    FixL4Keeps(p);
    var q := FixL4(p);
    if IpMissing(p) {
      assert Checksum(q, 0, Ihl(q)) == Checksum(p, 0, Ihl(p));
      var c := Checksum(p, 0, Ihl(p));
      assert p[10] == 0 && p[11] == 0;
      assert Be16(p[10], p[11]) == c by {
        assert PutBe16(p, 10, c) == p;
      }
      assert PutBe16(q, 10, c) == q;
    }
  }

  /** A second call changes nothing, for every packet of any length. */
  lemma {:induction false} FixIdempotent(p: seq<byte>)
    ensures Fix(Fix(p)) == Fix(p)
  {
    hide FixIp, FixL4, L4Sum, WordSum, L4Field, PseudoSum;
    if Accepted(p) {
      FixIpKeeps(p);
      FixIpTwice(p);
      FixL4Keeps(FixIp(p));
      FixIpAfterFixL4(FixIp(p));
      FixL4Twice(FixIp(p));
    }
  }
}
