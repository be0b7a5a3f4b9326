/** What the framing is for: records survive the scanner, and payloads survive the splitter. */
module RndisStreams {
  import opened Bytes
  import opened Rndis

  // ------------------------------------------------------------- one record

  /**
   A data record as any device may send it: any MessageLength, any out-of-band
   fields, and after the payload any bytes that do not contain 0x01.
   */
  datatype Record = Record(msgLen: u32, oob: seq<byte>, payload: seq<byte>, gap: seq<byte>)

  predicate Quiet(gap: seq<byte>) {
    1 !in gap
  }

  predicate ValidRecord(r: Record) {
    |r.oob| == 28 && MIN_PAYLOAD <= |r.payload| <= MAX_PAYLOAD && Quiet(r.gap)
  }

  function RecordBytes(r: Record): seq<byte> {
    Header(r.msgLen, |r.payload| % U32, r.oob) + r.payload + r.gap
  }

  /** The four fields of a header read back, whatever follows. */
  lemma {:induction false} HeaderFields(msgLen: u32, dataLen: u32, oob: seq<byte>, rest: seq<byte>)
    requires |oob| == 28
    ensures var b := Header(msgLen, dataLen, oob) + rest;
            && RdLe32(b, 0) == MSG_PACKET && RdLe32(b, 4) == msgLen
            && RdLe32(b, 8) == DATA_OFFSET && RdLe32(b, 12) == dataLen
  {
    var b := Header(msgLen, dataLen, oob) + rest;
    var f0, f1, f2, f3 := Le32(MSG_PACKET), Le32(msgLen), Le32(DATA_OFFSET), Le32(dataLen);
    Le32RoundTrip(MSG_PACKET, [], f1 + f2 + f3 + oob + rest);
    assert [] + f0 + (f1 + f2 + f3 + oob + rest) == b;
    Le32RoundTrip(msgLen, f0, f2 + f3 + oob + rest);
    assert f0 + f1 + (f2 + f3 + oob + rest) == b;
    Le32RoundTrip(DATA_OFFSET, f0 + f1, f3 + oob + rest);
    assert (f0 + f1) + f2 + (f3 + oob + rest) == b;
    Le32RoundTrip(dataLen, f0 + f1 + f2, oob + rest);
    assert (f0 + f1 + f2) + f3 + (oob + rest) == b;
  }

  /** A header followed by enough bytes is recognised exactly when its data length is 14..4096. */
  lemma {:induction false} RecognisedIff(msgLen: u32, dataLen: u32, oob: seq<byte>, rest: seq<byte>)
    requires |oob| == 28 && dataLen <= |rest|
    ensures LooksLikePacket(Header(msgLen, dataLen, oob) + rest, 0)
         == if MIN_PAYLOAD <= dataLen <= MAX_PAYLOAD then Some(dataLen) else None
  {
    HeaderFields(msgLen, dataLen, oob, rest);
  }

  // ---------------------------------------------------------------- locality

  /** Cutting depends only on the bytes of the payload. */
  lemma {:induction false} SplitLocal(a: seq<byte>, i: nat, b: seq<byte>, j: nat, n: nat)
    requires Agree(a, i, b, j, n)
    ensures SplitAt(a, i, i + n) == SplitAt(b, j, j + n)
    decreases n
  {
    hide FrameLenAt;
    if n >= 14 {
      var f := FrameLenAt(a, i, i + n);
      FrameLenLocal(a, i, b, j, n);
      if f < 14 || f > n {
        AgreeSub(a, i, b, j, n);
      } else {
        AgreeTail(a, i, b, j, n, f);
        AgreeSub(a, i, b, j, f);
        SplitLocal(a, i + f, b, j + f, n - f);
      }
    }
  }

  lemma {:induction false} FrameLenLocal(a: seq<byte>, i: nat, b: seq<byte>, j: nat, n: nat)
    requires Agree(a, i, b, j, n) && n >= 14
    ensures FrameLenAt(a, i, i + n) == FrameLenAt(b, j, j + n)
  {
    assert a[i + 12] == b[j + 12] && a[i + 13] == b[j + 13];
    if n >= 34 {
      assert a[i + 14] == b[j + 14] && a[i + 16] == b[j + 16] && a[i + 17] == b[j + 17];
      assert a[i + 18] == b[j + 18] && a[i + 19] == b[j + 19];
    }
  }

  lemma {:induction false} FramesLocal(a: seq<byte>, i: nat, b: seq<byte>, j: nat, n: nat)
    requires Agree(a, i, b, j, n)
    ensures FramesAt(a, i, n) == FramesAt(b, j, n)
  {
    AgreeSub(a, i, b, j, n);
    SplitLocal(a, i, b, j, n);
  }

  lemma {:induction false} LooksLocal(a: seq<byte>, i: nat, b: seq<byte>, j: nat)
    requires i <= |a| && j <= |b| && |a| - i == |b| - j && Agree(a, i, b, j, |a| - i)
    ensures LooksLikePacket(a, i) == LooksLikePacket(b, j)
  {
    if i + HDR <= |a| {
      RdLocal(a, i, b, j, |a| - i, 0);
      RdLocal(a, i, b, j, |a| - i, 8);
      RdLocal(a, i, b, j, |a| - i, 12);
    }
  }

  lemma {:induction false} RdLocal(a: seq<byte>, i: nat, b: seq<byte>, j: nat, n: nat, d: nat)
    requires Agree(a, i, b, j, n) && d + 4 <= n
    ensures RdLe32(a, i + d) == RdLe32(b, j + d)
  {
    assert a[i + d] == b[j + d] && a[i + d + 1] == b[j + d + 1];
    assert a[i + d + 2] == b[j + d + 2] && a[i + d + 3] == b[j + d + 3];
  }

  /** Scanning from a position depends only on the bytes from there on. */
  lemma {:induction false} UnwrapLocal(a: seq<byte>, i: nat, b: seq<byte>, j: nat)
    requires i <= |a| && j <= |b| && |a| - i == |b| - j && Agree(a, i, b, j, |a| - i)
    ensures UnwrapFrom(a, i) == UnwrapFrom(b, j)
    decreases |a| - i
  {
    hide LooksLikePacket, FramesAt;
    if i + HDR <= |a| {
      LooksLocal(a, i, b, j);
      match LooksLikePacket(a, i)
      case Some(n) =>
        AgreeTail(a, i, b, j, |a| - i, HDR);
        FramesLocal(a, i + HDR, b, j + HDR, n);
        AgreeTail(a, i, b, j, |a| - i, HDR + n);
        UnwrapLocal(a, i + HDR + n, b, j + HDR + n);
      case None =>
        AgreeTail(a, i, b, j, |a| - i, 1);
        UnwrapLocal(a, i + 1, b, j + 1);
    }
  }

  /** Bytes without 0x01 cannot start a record, so the scanner steps over all of them. */
  lemma {:induction false} GapSkippedFrom(b: seq<byte>, lo: nat, hi: nat)
    requires lo <= hi <= |b| && forall k :: lo <= k < hi ==> b[k] != 1
    ensures UnwrapFrom(b, lo) == UnwrapFrom(b, hi)
    decreases hi - lo
  {
    if lo < hi {
      GapSkippedFrom(b, lo + 1, hi);
      if lo + HDR <= |b| {
        assert RdLe32(b, lo) != MSG_PACKET;
      }
    }
  }

  lemma {:induction false} GapSkipped(gap: seq<byte>, rest: seq<byte>)
    requires Quiet(gap)
    ensures Unwrap(gap + rest) == Unwrap(rest)
  {
    var b := gap + rest;
    forall k | 0 <= k < |gap| ensures b[k] != 1 {
      assert b[k] in gap;
    }
    GapSkippedFrom(b, 0, |gap|);
    UnwrapLocal(b, |gap|, rest, 0);
  }

  /** One valid record in front of any bytes yields its frames, and the rest is scanned afresh. */
  lemma {:induction false} RecordRecovered(r: Record, rest: seq<byte>)
    requires ValidRecord(r)
    ensures Unwrap(RecordBytes(r) + rest) == Split(r.payload) + Unwrap(rest)
  {
    hide LooksLikePacket, FramesAt, RecordBytes;
    var n := |r.payload|;
    var b := RecordBytes(r) + rest;
    RecordLayout(r, rest);
    FramesLocal(b, HDR, r.payload, 0, n);
    UnwrapLocal(b, HDR + n, r.gap + rest, 0);
    GapSkipped(r.gap, rest);
  }

  lemma {:induction false} RecordLayout(r: Record, rest: seq<byte>)
    requires ValidRecord(r)
    ensures var b := RecordBytes(r) + rest;
            var n := |r.payload|;
            && LooksLikePacket(b, 0) == Some(n)
            && Agree(b, HDR, r.payload, 0, n)
            && |b| == HDR + n + |r.gap + rest|
            && Agree(b, HDR + n, r.gap + rest, 0, |r.gap + rest|)
  {
    var head := Header(r.msgLen, |r.payload|, r.oob);
    RecordParts(r, rest);
    RecognisedIff(r.msgLen, |r.payload|, r.oob, r.payload + (r.gap + rest));
    hide Header, LooksLikePacket, RecordBytes, Agree;
    PartsAgree(head, r.payload, r.gap + rest);
  }

  lemma {:induction false} RecordParts(r: Record, rest: seq<byte>)
    requires ValidRecord(r)
    ensures var head := Header(r.msgLen, |r.payload|, r.oob);
            |head| == HDR && RecordBytes(r) + rest == head + (r.payload + (r.gap + rest))
  {
    var head := Header(r.msgLen, |r.payload|, r.oob);
    assert |head| == HDR && |r.payload| % U32 == |r.payload|;
    hide Header;
    assert RecordBytes(r) == head + r.payload + r.gap;
    hide RecordBytes;
    Regroup(head, r.payload, r.gap, rest);
  }

  lemma {:induction false} Regroup(a: seq<byte>, b: seq<byte>, c: seq<byte>, d: seq<byte>)
    ensures a + b + c + d == a + (b + (c + d))
  {
    Assoc(a + b, c, d);
    Assoc(a, b, c + d);
  }

  lemma {:induction false} PartsAgree(a: seq<byte>, b: seq<byte>, c: seq<byte>)
    ensures var s := a + (b + c);
            |s| == |a| + |b| + |c| && Agree(s, |a|, b, 0, |b|) && Agree(s, |a| + |b|, c, 0, |c|)
  {
  }

  // ------------------------------------------------------------ whole streams

  function StreamBytes(rs: seq<Record>): seq<byte> {
    if rs == [] then [] else RecordBytes(rs[0]) + StreamBytes(rs[1..])
  }

  function Payloads(rs: seq<Record>): seq<seq<byte>> {
    if rs == [] then [] else Split(rs[0].payload) + Payloads(rs[1..])
  }

  /**
   The scanner recovers every payload, in order, from any stream of valid records
   behind any gap, whatever follows the stream.
   */
  lemma {:induction false} StreamRecovered(gap: seq<byte>, rs: seq<Record>, rest: seq<byte>)
    requires Quiet(gap) && forall r :: r in rs ==> ValidRecord(r)
    ensures Unwrap(gap + StreamBytes(rs) + rest) == Payloads(rs) + Unwrap(rest)
    decreases |rs|
  {
    hide RecordBytes, Split, Unwrap;
    GapSkipped(gap, StreamBytes(rs) + rest);
    Assoc(gap, StreamBytes(rs), rest);
    if rs == [] {
      assert StreamBytes(rs) + rest == rest;
    } else {
      var more := StreamBytes(rs[1..]) + rest;
      StreamRecovered([], rs[1..], rest);
      assert [] + StreamBytes(rs[1..]) + rest == more;
      Assoc(RecordBytes(rs[0]), StreamBytes(rs[1..]), rest);
      RecordRecovered(rs[0], more);
      Assoc(Split(rs[0].payload), Payloads(rs[1..]), Unwrap(rest));
    }
  }

  lemma {:induction false} SingleFramePayloads(rs: seq<Record>)
    requires forall r :: r in rs ==> MIN_PAYLOAD <= |r.payload| <= ETH_MAX
    ensures |Payloads(rs)| == |rs|
    ensures forall k :: 0 <= k < |rs| ==> Payloads(rs)[k] == rs[k].payload
  {
    if rs != [] {
      SingleFramePayloads(rs[1..]);
      assert Sub(rs[0].payload, 0, |rs[0].payload|) == rs[0].payload;
    }
  }

  /** A stream of records with one frame each comes back as exactly those frames, one for each record. */
  lemma {:induction false} SingleFrameStream(gap: seq<byte>, rs: seq<Record>)
    requires Quiet(gap) && forall r :: r in rs ==> ValidRecord(r) && |r.payload| <= ETH_MAX
    ensures var frames := Unwrap(gap + StreamBytes(rs));
            |frames| == |rs| && forall k :: 0 <= k < |rs| ==> frames[k] == rs[k].payload
  {
    hide Unwrap, Payloads, StreamBytes;
    StreamRecovered(gap, rs, []);
    SingleFramePayloads(rs);
    UnwrapNothing();
    assert gap + StreamBytes(rs) + [] == gap + StreamBytes(rs);
  }

  lemma {:induction false} UnwrapNothing()
    ensures Unwrap([]) == []
  {
  }

  // ------------------------------------------------- the engine's own records

  /** What the writer emits is a valid record whose gap is the alignment padding. */
  function AsRecord(eth: seq<byte>, shift: nat): Record {
    Record(WrapLen(|eth|, shift) % U32, Zeros(28), Padded(eth), Zeros(WrapLen(|eth|, shift) - HDR - PadLen(|eth|)))
  }

  lemma {:induction false} WrapIsRecord(eth: seq<byte>, shift: nat)
    requires |eth| < U32
    ensures RecordBytes(AsRecord(eth, shift)) == Wrap(eth, shift)
  {
    assert |Padded(eth)| == PadLen(|eth|) < U32;
  }

  /** The wrapped record is recognised by the scanner exactly up to 4096 bytes of frame. */
  lemma {:induction false} WrapRecognisedIff(eth: seq<byte>, shift: nat, rest: seq<byte>)
    requires 1 <= |eth| < U32
    ensures LooksLikePacket(Wrap(eth, shift) + rest, 0)
         == if |eth| <= MAX_PAYLOAD then Some(PadLen(|eth|)) else None
  {
    var r := AsRecord(eth, shift);
    WrapIsRecord(eth, shift);
    RecordRecognisedIff(r, rest);
    assert |r.payload| == PadLen(|eth|);
  }

  lemma {:induction false} RecordRecognisedIff(r: Record, rest: seq<byte>)
    requires |r.oob| == 28 && |r.payload| < U32
    ensures LooksLikePacket(RecordBytes(r) + rest, 0)
         == if MIN_PAYLOAD <= |r.payload| <= MAX_PAYLOAD then Some(|r.payload|) else None
  {
    hide LooksLikePacket, Header;
    var head := Header(r.msgLen, |r.payload|, r.oob);
    RecognisedIff(r.msgLen, |r.payload|, r.oob, r.payload + r.gap + rest);
    Assoc(head, r.payload, r.gap);
    Assoc(head, r.payload + r.gap, rest);
  }

  /** Unwrapping is a homomorphism over wrapping, for every alignment and every continuation. */
  lemma {:induction false} UnwrapWrap(eth: seq<byte>, shift: nat, rest: seq<byte>)
    requires 1 <= |eth| <= MAX_PAYLOAD
    ensures Unwrap(Wrap(eth, shift) + rest) == Split(Padded(eth)) + Unwrap(rest)
  {
    WrapIsRecord(eth, shift);
    RecordRecovered(AsRecord(eth, shift), rest);
  }

  datatype Sent = Sent(eth: seq<byte>, shift: nat)

  function WrapAll(es: seq<Sent>): seq<byte> {
    if es == [] then [] else Wrap(es[0].eth, es[0].shift) + WrapAll(es[1..])
  }

  function PaddedFrames(es: seq<Sent>): (ps: seq<seq<byte>>)
    ensures |ps| == |es| && forall k :: 0 <= k < |es| ==> ps[k] == Padded(es[k].eth)
  {
    seq(|es|, k requires 0 <= k < |es| => Padded(es[k].eth))
  }

  /** What splitting makes of the padded payloads, in order. */
  function CutFrames(es: seq<Sent>): seq<seq<byte>> {
    if es == [] then [] else Split(Padded(es[0].eth)) + CutFrames(es[1..])
  }

  /** Any list of frames up to the payload limit, wrapped back to back, unwraps to their split padded payloads. */
  lemma {:induction false} UnwrapAll(es: seq<Sent>)
    requires forall e :: e in es ==> 1 <= |e.eth| <= MAX_PAYLOAD
    ensures Unwrap(WrapAll(es)) == CutFrames(es)
    decreases |es|
  {
    if es == [] {
      UnwrapNothing();
    } else {
      hide Wrap, Padded, Split, Unwrap;
      UnwrapAll(es[1..]);
      UnwrapWrap(es[0].eth, es[0].shift, WrapAll(es[1..]));
    }
  }

  /** Any list of Ethernet frames, wrapped back to back, unwraps to exactly the padded list. */
  lemma {:induction false} RoundTrip(es: seq<Sent>)
    requires forall e :: e in es ==> 1 <= |e.eth| <= ETH_MAX
    ensures Unwrap(WrapAll(es)) == PaddedFrames(es)
  {
    hide Unwrap, WrapAll;
    UnwrapAll(es);
    CutWhole(es);
  }

  lemma {:induction false} CutWhole(es: seq<Sent>)
    requires forall e :: e in es ==> 1 <= |e.eth| <= ETH_MAX
    ensures CutFrames(es) == PaddedFrames(es)
    decreases |es|
  {
    hide Padded, Split;
    if es != [] {
      CutWhole(es[1..]);
      PaddedIsOneFrame(es[0].eth);
      assert PaddedFrames(es) == [Padded(es[0].eth)] + PaddedFrames(es[1..]);
    }
  }

  lemma {:induction false} PaddedIsOneFrame(eth: seq<byte>)
    requires 1 <= |eth| <= ETH_MAX
    ensures Split(Padded(eth)) == [Padded(eth)]
  {
    assert Sub(Padded(eth), 0, |Padded(eth)|) == Padded(eth);
  }

  // ---------------------------------------------------------------- splitting

  /** A frame whose own header announces exactly its length. */
  predicate SelfDelimiting(f: seq<byte>) {
    |f| >= 14 && FrameLenAt(f, 0, |f|) == |f|
  }

  /** A self-delimiting frame announces its length in any payload it starts. */
  lemma {:induction false} FrameLenOfPrefix(p: seq<byte>, i: nat, end: nat, f: seq<byte>)
    requires SelfDelimiting(f) && i + |f| <= end <= |p| && Agree(p, i, f, 0, |f|)
    ensures FrameLenAt(p, i, end) == |f|
  {
    assert p[i + 12] == f[12] && p[i + 13] == f[13];
    if |f| >= 34 {
      assert p[i + 14] == f[14] && p[i + 16] == f[16] && p[i + 17] == f[17];
      assert p[i + 18] == f[18] && p[i + 19] == f[19];
    }
  }

  lemma {:induction false} SplitAtConcat(p: seq<byte>, i: nat, fs: seq<seq<byte>>)
    requires forall f :: f in fs ==> SelfDelimiting(f)
    requires i <= |p| && |p| - i == |Concat(fs)| && Agree(p, i, Concat(fs), 0, |p| - i)
    ensures SplitAt(p, i, |p|) == fs
    decreases |fs|
  {
    hide FrameLenAt;
    if fs != [] {
      var f := fs[0];
      var c := Concat(fs);
      assert f in fs && c == f + Concat(fs[1..]);
      FrameLenOfPrefix(p, i, |p|, f);
      assert Sub(p, i, |f|) == f;
      SplitAtConcat(p, i + |f|, fs[1..]);
    }
  }

  /**
   Splitting inverts concatenation of self-delimiting frames exactly when the
   payload is longer than one Ethernet frame, or holds at most one frame anyway.
   */
  lemma {:induction false} SplitConcatIff(fs: seq<seq<byte>>)
    requires forall f :: f in fs ==> SelfDelimiting(f)
    ensures Split(Concat(fs)) == fs <==> |Concat(fs)| > ETH_MAX || |fs| <= 1
  {
    var p := Concat(fs);
    SplitAtConcat(p, 0, fs);
    if fs != [] {
      assert fs[0] in fs && |p| >= |fs[0]| >= 14;
      if |fs| == 1 {
        assert fs[1..] == [] && p == fs[0] && fs == [fs[0]];
        assert Sub(p, 0, |p|) == p;
      }
    }
  }

  /** A concrete short payload of two ARP frames, which the splitter hands out as one. */
  lemma {:induction false} ShortPayloadNotSplit()
    ensures exists f :: SelfDelimiting(f) && Split(Concat([f, f])) != [f, f]
  {
    var f: seq<byte> := Zeros(12) + [8, 6] + Zeros(28);
    assert f[12] == 8 && f[13] == 6 && |f| == 42;
    assert SelfDelimiting(f);
    hide SelfDelimiting, Split, Zeros;
    ConcatTwo(f, f);
    SplitConcatIff([f, f]);
  }

  lemma {:induction false} ConcatTwo(a: seq<byte>, b: seq<byte>)
    ensures Concat([a, b]) == a + b
  {
    assert [a, b][1..] == [b] && [b][1..] == [];
    assert Concat([]) == [] && Concat([b]) == b + [] == b;
  }

  /** The emitted frames are contiguous from the start and leave fewer than 14 bytes uncovered. */
  lemma {:induction false} SplitAtContiguous(p: seq<byte>, i: nat)
    requires i <= |p|
    ensures var n := |Concat(SplitAt(p, i, |p|))|;
            n <= |p| - i < n + 14 && Concat(SplitAt(p, i, |p|)) == Sub(p, i, n)
    decreases |p| - i
  {
    hide FrameLenAt;
    if i + 14 <= |p| {
      var f := FrameLenAt(p, i, |p|);
      if f < 14 || i + f > |p| {
        ConcatOne(Sub(p, i, |p| - i));
      } else {
        SplitAtContiguous(p, i + f);
        var one, more := Sub(p, i, f), SplitAt(p, i + f, |p|);
        assert ([one] + more)[1..] == more;
        assert one + Concat(more) == Sub(p, i, f + |Concat(more)|);
      }
    }
  }

  /**
   Each emitted frame but the last announces its own length, and so does the last
   one unless it runs to the end of the payload.
   */
  lemma {:induction false} SplitAtDelimited(p: seq<byte>, i: nat)
    requires i <= |p|
    ensures var fs := SplitAt(p, i, |p|);
            && (forall k :: 0 <= k < |fs| ==> |fs[k]| >= 14)
            && (forall k :: 0 <= k < |fs| - 1 ==> SelfDelimiting(fs[k]))
            && (fs != [] && !SelfDelimiting(fs[|fs| - 1]) ==> |Concat(fs)| == |p| - i)
    decreases |p| - i
  {
    hide FrameLenAt, SelfDelimiting, Sub;
    if i + 14 <= |p| {
      var f := FrameLenAt(p, i, |p|);
      if f < 14 || i + f > |p| {
        ConcatOne(Sub(p, i, |p| - i));
      } else {
        var one, more := Sub(p, i, f), SplitAt(p, i + f, |p|);
        SplitAtDelimited(p, i + f);
        TakeIsSelfDelimiting(p, i);
        var fs := [one] + more;
        assert SplitAt(p, i, |p|) == fs;
        hide SplitAt;
        assert fs[1..] == more;
        assert |Concat(fs)| == f + |Concat(more)|;
        hide Concat;
        assert forall k :: 1 <= k < |fs| ==> fs[k] == more[k - 1];
      }
    }
  }

  lemma {:induction false} ConcatOne(f: seq<byte>)
    ensures Concat([f]) == f
  {
    assert [f][1..] == [];
  }

  lemma {:induction false} TakeIsSelfDelimiting(p: seq<byte>, i: nat)
    requires i + 14 <= |p| && 14 <= FrameLenAt(p, i, |p|) <= |p| - i
    ensures SelfDelimiting(Sub(p, i, FrameLenAt(p, i, |p|)))
  {
    var f := Sub(p, i, FrameLenAt(p, i, |p|));
    assert f[12] == p[i + 12] && f[13] == p[i + 13];
    if |f| >= 34 {
      assert f[14] == p[i + 14] && f[16] == p[i + 16] && f[17] == p[i + 17];
      assert f[18] == p[i + 18] && f[19] == p[i + 19];
    }
  }

  /** Both together, for the splitter as called: nothing is invented, reordered or cut short. */
  lemma {:induction false} SplitCovers(p: seq<byte>)
    ensures Concat(Split(p)) <= p && |p| - |Concat(Split(p))| < 14
    ensures forall k :: 0 <= k < |Split(p)| ==> |Split(p)[k]| >= 14
    ensures |p| > ETH_MAX ==> forall k :: 0 <= k < |Split(p)| - 1 ==> SelfDelimiting(Split(p)[k])
    ensures Split(p) != [] && !SelfDelimiting(Split(p)[|Split(p)| - 1]) ==> Concat(Split(p)) == p
  {
    hide SelfDelimiting, FrameLenAt;
    SplitAtContiguous(p, 0);
    SplitAtDelimited(p, 0);
    if 14 <= |p| <= ETH_MAX {
      ConcatOne(Sub(p, 0, |p|));
    }
  }
}
