/**
 RNDIS data framing: the aligned PACKET_MSG writer, the resynchronising bulk
 scanner and the splitter that cuts one payload into Ethernet frames.
 The record is REMOTE_NDIS_PACKET_MSG, section 2.2.14 of [MS-RNDIS].
 */
module Rndis {
  import opened Bytes

  const MSG_PACKET: u32 := 1
  const HDR: nat := 44
  const DATA_OFFSET: u32 := 36
  const ETH_MIN: nat := 60
  const ETH_MAX: nat := 1518
  const MIN_PAYLOAD: nat := 14
  const MAX_PAYLOAD: nat := 4096

  // ---------------------------------------------------------------- writer

  /** The shift is clamped to 2..8, so the unit is one of 4, 8, ..., 256. */
  function Unit(shift: nat): (a: nat)
    ensures a in {4, 8, 16, 32, 64, 128, 256}
  {
    if shift <= 2 then 4 else if shift == 3 then 8 else if shift == 4 then 16
    else if shift == 5 then 32 else if shift == 6 then 64 else if shift == 7 then 128 else 256
  }

  /** Rounding up to a power of two; masking with the complement of a - 1 is this division. */
  function AlignPow2(n: nat, shift: nat): (r: nat)
    ensures n <= r < n + Unit(shift)
    ensures r % Unit(shift) == 0
  {
    var a := Unit(shift);
    RoundedUp(n, a);
    (n + a - 1) / a * a
  }

  lemma {:induction false} RoundedUp(n: nat, a: nat)
    requires a > 0
    ensures n <= (n + a - 1) / a * a < n + a && (n + a - 1) / a * a % a == 0
  {
    var q := (n + a - 1) / a;
    assert n + a - 1 == q * a + (n + a - 1) % a;
    Multiple(q, a);
  }

  lemma {:induction false} Multiple(q: nat, a: nat)
    requires a > 0
    ensures q * a % a == 0
  {
    var x := q * a;
    assert x == x / a * a + x % a;
    if x / a < q {
      Fewer(x / a, q, a);
    } else if x / a > q {
      Fewer(q, x / a, a);
    }
  }

  /** The least aligned length that is not shorter: no other multiple of the unit lies below. */
  lemma {:induction false} AlignIsLeast(n: nat, shift: nat, m: nat)
    requires n <= m && m % Unit(shift) == 0
    ensures AlignPow2(n, shift) <= m
  {
    RoundingIsLeast(n, Unit(shift), m);
  }

  lemma {:induction false} RoundingIsLeast(n: nat, a: nat, m: nat)
    requires a > 0 && n <= m && m % a == 0
    ensures (n + a - 1) / a * a <= m
  {
    var q, k := (n + a - 1) / a, m / a;
    assert q * a <= n + a - 1 && m == k * a;
    if q > k {
      Fewer(k, q, a);
    } else if q < k {
      Fewer(q, k, a);
    }
  }

  lemma {:induction false} Fewer(x: nat, y: nat, a: nat)
    requires x < y
    ensures x * a + a <= y * a
    decreases y
  {
    assert y * a == (y - 1) * a + a;
    if x < y - 1 {
      Fewer(x, y - 1, a);
    }
  }

  function PadLen(n: nat): nat {
    if n < ETH_MIN then ETH_MIN else n
  }

  function Padded(eth: seq<byte>): seq<byte> {
    eth + Zeros(PadLen(|eth|) - |eth|)
  }

  function WrapLen(n: nat, shift: nat): (total: nat)
    ensures HDR + PadLen(n) <= total
  {
    AlignPow2(HDR + PadLen(n), shift)
  }

  function Header(msgLen: u32, dataLen: u32, oob: seq<byte>): seq<byte> {
    Le32(MSG_PACKET) + Le32(msgLen) + Le32(DATA_OFFSET) + Le32(dataLen) + oob
  }

  /** The record the writer produces: header, zero-padded frame, zero fill to the alignment. */
  function Wrap(eth: seq<byte>, shift: nat): (rec: seq<byte>)
    ensures |rec| == WrapLen(|eth|, shift)
  {
    Header(WrapLen(|eth|, shift) % U32, PadLen(|eth|) % U32, Zeros(28))
      + Padded(eth)
      + Zeros(WrapLen(|eth|, shift) - HDR - PadLen(|eth|))
  }

  /** A wrapped frame fits a slot of 4096 bytes exactly up to 4052 bytes, for every alignment. */
  lemma {:induction false} FitsSlotIff(n: nat, shift: nat)
    ensures WrapLen(n, shift) <= 4096 <==> n <= 4052
  {
    if n <= 4052 {
      var a := Unit(shift);
      assert 4096 % a == 0;
      AlignIsLeast(HDR + PadLen(n), shift, 4096);
    }
  }

  /** Fills `out[base..]` in place, as the engine does inside a ring slot. */
  method WrapEthernetAligned(out: array?<byte>, base: nat, outLen: nat, eth: seq<byte>, shift: nat)
    returns (total: nat)
    requires out != null ==> base + outLen <= out.Length
    modifies if out == null then {} else {out}
    ensures total == 0 <==> out == null || eth == [] || outLen < WrapLen(|eth|, shift)
    ensures total == 0 && out != null ==> out[..] == old(out[..])
    ensures total != 0 ==>
              && total == WrapLen(|eth|, shift) <= outLen
              && out[..] == old(out[..base]) + Wrap(eth, shift) + old(out[base + total..])
  {
    if out == null || |eth| == 0 {
      return 0;
    }
    var payload := |eth|;
    if payload < ETH_MIN {
      payload := ETH_MIN;
    }
    total := AlignPow2(HDR + payload, shift);
    if outLen < total {
      return 0;
    }
    forall k | 0 <= k < total {
      out[base + k] := 0;
    }
    Wr32Le(out, base, MSG_PACKET);
    Wr32Le(out, base + 4, total % U32);
    Wr32Le(out, base + 8, DATA_OFFSET);
    Wr32Le(out, base + 12, payload % U32);
    forall k | 0 <= k < |eth| {
      out[base + HDR + k] := eth[k];
    }
    WrapLayout(old(out[..]), out[..], base, eth, shift);
  }

  /** A buffer that holds the fields at their places, and is untouched elsewhere, holds the record. */
  lemma {:induction false} WrapLayout(was: seq<byte>, now: seq<byte>, base: nat, eth: seq<byte>, shift: nat)
    requires |eth| > 0
    requires |now| == |was| && base + WrapLen(|eth|, shift) <= |was|
    requires forall k :: 0 <= k < 4 ==> now[base + k] == Le32(MSG_PACKET)[k]
    requires forall k :: 0 <= k < 4 ==> now[base + 4 + k] == Le32(WrapLen(|eth|, shift) % U32)[k]
    requires forall k :: 0 <= k < 4 ==> now[base + 8 + k] == Le32(DATA_OFFSET)[k]
    requires forall k :: 0 <= k < 4 ==> now[base + 12 + k] == Le32(PadLen(|eth|) % U32)[k]
    requires forall k :: base + 16 <= k < base + 44 ==> now[k] == 0
    requires forall k :: 0 <= k < |eth| ==> now[base + 44 + k] == eth[k]
    requires forall k :: base + 44 + |eth| <= k < base + WrapLen(|eth|, shift) ==> now[k] == 0
    requires forall k :: 0 <= k < base ==> now[k] == was[k]
    requires forall k :: base + WrapLen(|eth|, shift) <= k < |was| ==> now[k] == was[k]
    ensures now == was[..base] + Wrap(eth, shift) + was[base + WrapLen(|eth|, shift)..]
  {
    var total := WrapLen(|eth|, shift);
    var head := Header(total % U32, PadLen(|eth|) % U32, Zeros(28));
    assert now[base..base + 4] == Le32(MSG_PACKET);
    assert now[base + 4..base + 8] == Le32(total % U32);
    assert now[base + 8..base + 12] == Le32(DATA_OFFSET);
    assert now[base + 12..base + 16] == Le32(PadLen(|eth|) % U32);
    assert now[base + 16..base + 44] == Zeros(28);
    assert now[base..base + 44] == head;
    var body := Padded(eth) + Zeros(total - HDR - PadLen(|eth|));
    assert now[base + 44..base + total] == body;
    assert Wrap(eth, shift) == head + body;
    assert now[base..base + total] == head + body;
  }

  method Wr32Le(out: array<byte>, at: nat, v: u32)
    requires at + 4 <= out.Length
    modifies out
    ensures forall k :: 0 <= k < 4 ==> out[at + k] == Le32(v)[k]
    ensures forall k :: 0 <= k < out.Length && !(at <= k < at + 4) ==> out[k] == old(out[k])
  {
    out[at] := v % 256;
    out[at + 1] := v / 256 % 256;
    out[at + 2] := v / 65536 % 256;
    out[at + 3] := v / 16777216;
  }

  // --------------------------------------------------------------- splitter

  /** The length announced by the frame at position i of a payload ending at `end`; 0 when none is. */
  function FrameLenAt(buf: seq<byte>, i: nat, end: nat): nat
    requires i + 14 <= end <= |buf|
  {
    var et := Be16(buf[i + 12], buf[i + 13]);
    if et == 0x0800 && i + 14 + 20 <= end then
      var ihl := buf[i + 14] % 16 * 4;
      var iplen := Be16(buf[i + 16], buf[i + 17]);
      if ihl >= 20 && iplen >= ihl then 14 + iplen else 0
    else if et == 0x0806 then 42
    else if et == 0x86DD && i + 14 + 40 <= end then 14 + 40 + Be16(buf[i + 18], buf[i + 19])
    else 0
  }

  /** The frames found by cutting the bytes i..end one announced length at a time. */
  function SplitAt(buf: seq<byte>, i: nat, end: nat): seq<seq<byte>>
    requires i <= end <= |buf|
    decreases end - i
  {
    if i + 14 > end then []
    else
      var f := FrameLenAt(buf, i, end);
      if f < 14 || i + f > end then [Sub(buf, i, end - i)] else [Sub(buf, i, f)] + SplitAt(buf, i + f, end)
  }

  /** The frames of the payload of n bytes at position `at`. */
  function FramesAt(buf: seq<byte>, at: nat, n: nat): seq<seq<byte>>
    requires at + n <= |buf|
  {
    if n < 14 then [] else if n <= ETH_MAX then [Sub(buf, at, n)] else SplitAt(buf, at, at + n)
  }

  function Split(p: seq<byte>): seq<seq<byte>> {
    FramesAt(p, 0, |p|)
  }

  // ---------------------------------------------------------------- scanner

  /** The data length of the record at position `s`, when a record is recognised there. */
  function LooksLikePacket(buf: seq<byte>, s: nat): (n: Option<nat>)
    ensures n.Some? ==> MIN_PAYLOAD <= n.value <= MAX_PAYLOAD && s + HDR + n.value <= |buf|
  {
    if s + HDR > |buf| then None
    else if RdLe32(buf, s) != MSG_PACKET then None
    else if RdLe32(buf, s + 8) != DATA_OFFSET then None
    else
      var n := RdLe32(buf, s + 12);
      if n < MIN_PAYLOAD || n > MAX_PAYLOAD then None
      else if s + HDR + n > |buf| then None
      else Some(n)
  }

  /** The frames carried by the bytes from `off` on: recognise a record, or step over one byte. */
  function UnwrapFrom(b: seq<byte>, off: nat): seq<seq<byte>>
    decreases |b| - off
  {
    if off + HDR > |b| then []
    else match LooksLikePacket(b, off)
      case Some(n) => FramesAt(b, off + HDR, n) + UnwrapFrom(b, off + HDR + n)
      case None => UnwrapFrom(b, off + 1)
  }

  function Unwrap(b: seq<byte>): seq<seq<byte>> {
    UnwrapFrom(b, 0)
  }

  // ---------------------------------------------------------- callback traces

  /** One callback invocation: a pointer into the buffer and a length. */
  datatype Slice = Slice(off: nat, len: nat)

  /**
   Slices lie inside lo..hi, each holds at least an Ethernet header, and each one
   starts no earlier than the previous one ends.
   */
  ghost predicate Ordered(calls: seq<Slice>, lo: nat, hi: nat) {
    if calls == [] then lo <= hi
    else lo <= calls[0].off && calls[0].len >= 14 && Ordered(calls[1..], calls[0].off + calls[0].len, hi)
  }

  /** The same, pairwise: in bounds, at least 14 bytes each, disjoint and increasing. */
  lemma {:induction false} OrderedPairwise(calls: seq<Slice>, lo: nat, hi: nat)
    requires Ordered(calls, lo, hi)
    ensures lo <= hi
    ensures forall k :: 0 <= k < |calls| ==>
              lo <= calls[k].off && calls[k].len >= 14 && calls[k].off + calls[k].len <= hi
    ensures forall j, k :: 0 <= j < k < |calls| ==> calls[j].off + calls[j].len <= calls[k].off
  {
    if calls != [] {
      OrderedPairwise(calls[1..], calls[0].off + calls[0].len, hi);
      assert forall k :: 1 <= k < |calls| ==> calls[k] == calls[1..][k - 1];
    }
  }

  lemma {:induction false} OrderedAppend(a: seq<Slice>, b: seq<Slice>, lo: nat, mid: nat, hi: nat)
    requires Ordered(a, lo, mid) && Ordered(b, mid, hi)
    ensures Ordered(a + b, lo, hi)
  {
    if a == [] {
      assert a + b == b;
      OrderedWiden(b, lo, mid, hi, hi);
    } else {
      OrderedAppend(a[1..], b, a[0].off + a[0].len, mid, hi);
      assert (a + b)[1..] == a[1..] + b;
    }
  }

  lemma {:induction false} OrderedWiden(a: seq<Slice>, lo: nat, mid: nat, hi: nat, top: nat)
    requires lo <= mid && Ordered(a, mid, hi) && hi <= top
    ensures Ordered(a, lo, top)
  {
    if a != [] {
      OrderedWiden(a[1..], a[0].off + a[0].len, a[0].off + a[0].len, hi, top);
    }
  }

  /** The bytes one callback sees; slices outside the buffer do not occur. */
  ghost function Look(buf: seq<byte>, c: Slice): seq<byte> {
    if c.off + c.len <= |buf| then Sub(buf, c.off, c.len) else []
  }

  ghost function Seen(buf: seq<byte>, calls: seq<Slice>): (frames: seq<seq<byte>>)
    ensures |frames| == |calls|
    ensures forall k :: 0 <= k < |calls| ==> frames[k] == Look(buf, calls[k])
  {
    seq(|calls|, k requires 0 <= k < |calls| => Look(buf, calls[k]))
  }

  lemma {:induction false} SeenAppend(buf: seq<byte>, a: seq<Slice>, b: seq<Slice>)
    ensures Seen(buf, a + b) == Seen(buf, a) + Seen(buf, b)
  {
  }

  lemma {:induction false} SeenOne(buf: seq<byte>, off: nat, len: nat)
    requires off + len <= |buf|
    ensures Seen(buf, [Slice(off, len)]) == [Sub(buf, off, len)]
  {
  }

  lemma {:induction false} OrderedOne(off: nat, len: nat)
    requires len >= 14
    ensures Ordered([Slice(off, len)], off, off + len)
  {
    assert [Slice(off, len)][1..] == [];
  }

  /** Where the splitting loop cuts the bytes i..end. */
  ghost function Cuts(buf: seq<byte>, i: nat, end: nat): seq<Slice>
    requires i <= end <= |buf|
    decreases end - i
  {
    if i + 14 > end then []
    else
      var f := FrameLenAt(buf, i, end);
      if f < 14 || i + f > end then [Slice(i, end - i)] else [Slice(i, f)] + Cuts(buf, i + f, end)
  }

  ghost function EmitCalls(buf: seq<byte>, at: nat, n: nat): seq<Slice>
    requires at + n <= |buf|
  {
    if n < 14 then [] else if n <= ETH_MAX then [Slice(at, n)] else Cuts(buf, at, at + n)
  }

  /** The callback invocations for the bytes from `off` on. */
  ghost function Calls(b: seq<byte>, off: nat): seq<Slice>
    decreases |b| - off
  {
    if off + HDR > |b| then []
    else match LooksLikePacket(b, off)
      case Some(n) => EmitCalls(b, off + HDR, n) + Calls(b, off + HDR + n)
      case None => Calls(b, off + 1)
  }

  lemma {:induction false} CutsOrdered(buf: seq<byte>, i: nat, end: nat)
    requires i <= end <= |buf|
    ensures Ordered(Cuts(buf, i, end), i, end)
    decreases end - i
  {
    hide FrameLenAt;
    if i + 14 <= end {
      var f := FrameLenAt(buf, i, end);
      if f < 14 || i + f > end {
        OrderedOne(i, end - i);
      } else {
        CutsOrdered(buf, i + f, end);
        OrderedOne(i, f);
        OrderedAppend([Slice(i, f)], Cuts(buf, i + f, end), i, i + f, end);
      }
    }
  }

  lemma {:induction false} CutsSeen(buf: seq<byte>, i: nat, end: nat)
    requires i <= end <= |buf|
    ensures Seen(buf, Cuts(buf, i, end)) == SplitAt(buf, i, end)
    decreases end - i
  {
    hide FrameLenAt, Seen, Look, Sub;
    if i + 14 <= end {
      var f := FrameLenAt(buf, i, end);
      if f < 14 || i + f > end {
        SeenOne(buf, i, end - i);
      } else {
        var more := Cuts(buf, i + f, end);
        CutsSeen(buf, i + f, end);
        SeenOne(buf, i, f);
        SeenAppend(buf, [Slice(i, f)], more);
      }
    }
  }

  lemma {:induction false} EmitCallsOrdered(buf: seq<byte>, at: nat, n: nat)
    requires at + n <= |buf|
    ensures Ordered(EmitCalls(buf, at, n), at, at + n)
  {
    if 14 <= n <= ETH_MAX {
      OrderedOne(at, n);
    } else if n > ETH_MAX {
      CutsOrdered(buf, at, at + n);
    }
  }

  lemma {:induction false} EmitCallsSeen(buf: seq<byte>, at: nat, n: nat)
    requires at + n <= |buf|
    ensures Seen(buf, EmitCalls(buf, at, n)) == FramesAt(buf, at, n)
  {
    if 14 <= n <= ETH_MAX {
      SeenOne(buf, at, n);
    } else if n > ETH_MAX {
      CutsSeen(buf, at, at + n);
    }
  }

  /** The callbacks get ordered, disjoint, in-bounds slices. */
  lemma {:induction false} CallsOrdered(b: seq<byte>, off: nat)
    requires off <= |b|
    ensures Ordered(Calls(b, off), off, |b|)
    decreases |b| - off
  {
    hide LooksLikePacket, EmitCalls, FramesAt;
    if off + HDR <= |b| {
      match LooksLikePacket(b, off)
      case Some(n) =>
        var emitted := EmitCalls(b, off + HDR, n);
        EmitCallsOrdered(b, off + HDR, n);
        CallsOrdered(b, off + HDR + n);
        OrderedWiden(emitted, off, off + HDR, off + HDR + n, off + HDR + n);
        OrderedAppend(emitted, Calls(b, off + HDR + n), off, off + HDR + n, |b|);
      case None =>
        CallsOrdered(b, off + 1);
        OrderedWiden(Calls(b, off + 1), off, off + 1, |b|, |b|);
    }
  }

  /** The callbacks see exactly the frames carried. */
  lemma {:induction false} CallsSeen(b: seq<byte>, off: nat)
    requires off <= |b|
    ensures Seen(b, Calls(b, off)) == UnwrapFrom(b, off)
    decreases |b| - off
  {
    hide LooksLikePacket, EmitCalls, FramesAt, Seen, Look, Sub;
    if off + HDR <= |b| {
      match LooksLikePacket(b, off)
      case Some(n) =>
        EmitCallsSeen(b, off + HDR, n);
        CallsSeen(b, off + HDR + n);
        SeenAppend(b, EmitCalls(b, off + HDR, n), Calls(b, off + HDR + n));
      case None =>
        CallsSeen(b, off + 1);
    }
  }

  /** The scan from `lo` when the next record, if any, starts at `s`. */
  lemma {:induction false} CallsNext(b: seq<byte>, lo: nat, s: nat, found: Option<nat>)
    requires lo <= s <= |b|
    requires forall t :: lo <= t < s ==> LooksLikePacket(b, t).None?
    requires match found { case Some(n) => LooksLikePacket(b, s) == found case None => s + HDR > |b| }
    ensures match found
            case Some(n) => Calls(b, lo) == EmitCalls(b, s + HDR, n) + Calls(b, s + HDR + n)
            case None => Calls(b, lo) == []
    decreases s - lo
  {
    hide LooksLikePacket, EmitCalls, FramesAt;
    if lo < s {
      CallsNext(b, lo + 1, s, found);
    }
  }

  // -------------------------------------------------------------- the loops

  method AnnouncedLen(buf: seq<byte>, i: nat, end: nat) returns (flen: nat)
    requires i + 14 <= end <= |buf|
    ensures flen == FrameLenAt(buf, i, end)
  {
    var et := Be16(buf[i + 12], buf[i + 13]);
    flen := 0;
    if et == 0x0800 && i + 14 + 20 <= end {
      var ihl := buf[i + 14] % 16 * 4;
      var iplen := Be16(buf[i + 16], buf[i + 17]);
      if ihl >= 20 && iplen >= ihl {
        flen := 14 + iplen;
      }
    } else if et == 0x0806 {
      flen := 42;
    } else if et == 0x86DD && i + 14 + 40 <= end {
      flen := 14 + 40 + Be16(buf[i + 18], buf[i + 19]);
    }
  }

  /** The splitting loop, for a payload longer than one Ethernet frame. */
  method EmitLoop(buf: seq<byte>, at: nat, end: nat) returns (frames: nat, calls: seq<Slice>)
    requires at <= end <= |buf|
    ensures frames == |calls| && calls == Cuts(buf, at, end)
  {
    hide FrameLenAt;
    frames, calls := 0, [];
    var i := at;
    while i + 14 <= end
      invariant at <= i <= end
      invariant frames == |calls|
      invariant calls + Cuts(buf, i, end) == Cuts(buf, at, end)
      decreases end - i
    {
      var flen := AnnouncedLen(buf, i, end);
      if flen < 14 || i + flen > end {
        calls := calls + [Slice(i, end - i)];
        frames := frames + 1;
        return;
      }
      Assoc(calls, [Slice(i, flen)], Cuts(buf, i + flen, end));
      calls := calls + [Slice(i, flen)];
      frames := frames + 1;
      i := i + flen;
    }
  }

  method EmitEthPayload(buf: seq<byte>, at: nat, n: nat) returns (frames: nat, calls: seq<Slice>)
    requires at + n <= |buf|
    ensures frames == |calls| && calls == EmitCalls(buf, at, n)
  {
    if n < 14 {
      return 0, [];
    }
    if n <= ETH_MAX {
      return 1, [Slice(at, n)];
    }
    frames, calls := EmitLoop(buf, at, at + n);
  }

  /** The inner loop: the first position from `off` on where a record is recognised. */
  method FindPacket(b: seq<byte>, off: nat) returns (s: nat, found: Option<nat>)
    requires off <= |b|
    ensures off <= s <= |b|
    ensures found.Some? ==> LooksLikePacket(b, s) == found
    ensures found.None? ==> s + HDR > |b|
    ensures forall t :: off <= t < s ==> LooksLikePacket(b, t).None?
  {
    found := None;
    s := off;
    while s + HDR <= |b|
      invariant off <= s <= |b|
      invariant forall t :: off <= t < s ==> LooksLikePacket(b, t).None?
      invariant found.None?
    {
      found := LooksLikePacket(b, s);
      if found.Some? {
        break;
      }
      s := s + 1;
    }
  }

  method ScanLoop(b: seq<byte>) returns (frames: nat, calls: seq<Slice>)
    ensures frames == |calls| && calls == Calls(b, 0)
  {
    hide LooksLikePacket, EmitCalls;
    frames, calls := 0, [];
    var off := 0;
    while off + HDR <= |b|
      invariant 0 <= off <= |b|
      invariant frames == |calls|
      invariant calls + Calls(b, off) == Calls(b, 0)
      decreases |b| - off
    {
      var s, found := FindPacket(b, off);
      CallsNext(b, off, s, found);
      if found.None? {
        break;
      }
      var n := found.value;
      var got, emitted := EmitEthPayload(b, s + HDR, n);
      Assoc(calls, emitted, Calls(b, s + HDR + n));
      frames := frames + got;
      calls := calls + emitted;
      var next := s + HDR + n;
      if next <= off {
        break;
      }
      off := next;
    }
  }

  /**
   The bulk scan. The callbacks receive in-bounds, disjoint, increasing slices of at
   least 14 bytes whose contents are exactly the frames carried, and the returned
   count is their number; a null buffer or callback is reported as -1.
   */
  method UnwrapBulk(buf: Option<seq<byte>>, haveCallback: bool) returns (frames: int, calls: seq<Slice>)
    ensures buf.None? || !haveCallback ==> frames == -1 && calls == []
    ensures buf.Some? && haveCallback ==>
              && frames == |calls|
              && Ordered(calls, 0, |buf.value|)
              && Seen(buf.value, calls) == Unwrap(buf.value)
  {
    if buf.None? || !haveCallback {
      return -1, [];
    }
    frames, calls := ScanLoop(buf.value);
    CallsOrdered(buf.value, 0);
    CallsSeen(buf.value, 0);
  }
}
