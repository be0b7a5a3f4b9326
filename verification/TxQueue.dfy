/**
 The transmit side of the engine object: the ring fields, the busy flag of the one
 asynchronous OUT and the counters, updated in place. Each method is the engine's
 routine without interference; the interleavings are the subject of TxProtocol.
 The answers of the USB pipe are parameters.
 */
module TxQueue {
  import opened Bytes
  import opened TxRing
  import Rndis
  import P = TxProtocol

  /** What one call of the submission routine leaves behind, by the two answers of the pipe. */
  datatype Started = Started(q: Ring, busy: bool, idx: nat, len: nat, dropped: bool)

  function StartOut(q: Ring, busy: bool, idx: nat, len: nat, first: bool, second: bool): Started
    requires Valid(q)
  {
    if busy || q.n == 0 then Started(q, busy, idx, len, false)
    else if first then Started(q, true, q.r, q.lens[q.r], false)
    else if MayResubmit(q, q.r) then
      var q' := q.(retries := q.retries + 1);
      if second then Started(q', true, q.r, q.lens[q.r], false)
      else Started(Dropped(q', q.r), false, idx, len, true)
    else Started(Dropped(q, q.r), false, idx, len, true)
  }

  lemma {:induction false} StartOutValid(q: Ring, busy: bool, idx: nat, len: nat, first: bool, second: bool)
    requires Valid(q)
    ensures Valid(StartOut(q, busy, idx, len, first, second).q)
    ensures q.n > 0 ==> 0 < q.lens[q.r]
  {
    hide Pending, At;
    if q.n > 0 {
      PopRemovesFirst(q);
      RetriesIrrelevant(Pop(q), 0);
      if q.retries < MAX_RETRIES {
        RetriesIrrelevant(q, q.retries + 1);
      }
    }
  }

  /** The same, path by path. */
  lemma {:induction false} StartOutCases(q: Ring, busy: bool, idx: nat, len: nat, first: bool, second: bool)
    requires Valid(q) && q.n > 0 && !busy
    ensures var st := StartOut(q, busy, idx, len, first, second); var more := q.retries < MAX_RETRIES;
            && (first ==> st == Started(q, true, q.r, q.lens[q.r], false))
            && (!first && second && more ==>
                  st == Started(q.(retries := q.retries + 1), true, q.r, q.lens[q.r], false))
            && (!first && !(second && more) ==> st == Started(Pop(q).(retries := 0), false, idx, len, true))
  {
  }

  /** The consumer steps the submission routine consists of, in the step machine. */
  function StartSteps(q: Ring, busy: bool, first: bool, second: bool): seq<P.Event> {
    if busy || q.n == 0 then []
    else if first then [P.Work(true), P.Work(true)]
    else if !MayResubmit(q, q.r) then [P.Work(true), P.Work(false), P.Work(true), P.Work(true)]
    else if second then [P.Work(true), P.Work(false), P.Work(true), P.Work(true)]
    else [P.Work(true), P.Work(false), P.Work(true), P.Work(false), P.Work(true), P.Work(true)]
  }

  /** Run without interference, those steps leave exactly what the routine leaves. */
  lemma {:induction false} StartOutIsSteps(s: P.Sys, first: bool, second: bool)
    requires P.Inv(s) && s.pc == P.Idle && s.attached
    ensures var st := StartOut(s.q, s.busy, s.urbIdx, s.urbLen, first, second);
            var t := P.Run(s, StartSteps(s.q, s.busy, first, second));
            && t.pc == P.Idle && (t.q, t.busy, t.urbIdx, t.urbLen) == (st.q, st.busy, st.idx, st.len)
            && t.txErrors == s.txErrors + (if st.dropped then 1 else 0)
  {
    if !s.busy && s.q.n > 0 {
      StartOutValid(s.q, s.busy, s.urbIdx, s.urbLen, first, second);
      var idx, len := s.q.r, s.q.lens[s.q.r];
      assert Shape(s.q) && len > 0;
      hide Pending, Valid, At, P.Shown, P.Inv, P.Step, P.Run;
      Submits(s, first);
      if first {
        RunTwo(s, P.Work(true), P.Work(true));
      } else {
        var s2 := P.Step(P.Step(s, P.Work(true)), P.Work(false));
        RunPrefix(s, StartSteps(s.q, s.busy, first, second));
        if !MayResubmit(s.q, idx) {
          RunTwo(s2, P.Work(true), P.Work(true));
          Drops(s2, idx);
        } else {
          Resubmits(s2, idx, len, second);
          if second {
            RunTwo(s2, P.Work(true), P.Work(second));
          } else {
            var s4 := P.Step(P.Step(s2, P.Work(true)), P.Work(second));
            RunTwo(s4, P.Work(true), P.Work(true));
            Drops(s4, idx);
          }
        }
      }
    }
  }

  lemma {:induction false} Submits(s: P.Sys, ok: bool)
    requires s.pc == P.Idle && s.attached && !s.busy && s.q.n > 0 && Shape(s.q) && s.q.lens[s.q.r] > 0
    ensures var t := P.Step(P.Step(s, P.Work(true)), P.Work(ok));
            && t.q == s.q && t.txErrors == s.txErrors
            && if ok then t.pc == P.Idle && t.busy && (t.urbIdx, t.urbLen) == (s.q.r, s.q.lens[s.q.r])
               else
                 && t.pc == P.SubmitFailed(s.q.r, s.q.lens[s.q.r]) && !t.busy
                 && (t.urbIdx, t.urbLen) == (s.urbIdx, s.urbLen)
  {
    hide P.Shown;
  }

  lemma {:induction false} Resubmits(s: P.Sys, idx: nat, len: nat, ok: bool)
    requires s.pc == P.SubmitFailed(idx, len) && !s.busy && len > 0 && MayResubmit(s.q, idx)
    ensures var t := P.Step(P.Step(s, P.Work(true)), P.Work(ok));
            && t.q == s.q.(retries := s.q.retries + 1) && t.txErrors == s.txErrors
            && if ok then t.pc == P.Idle && t.busy && (t.urbIdx, t.urbLen) == (idx, len)
               else t.pc == P.GiveUp(idx) && !t.busy && (t.urbIdx, t.urbLen) == (s.urbIdx, s.urbLen)
  {
    hide P.Shown;
  }

  lemma {:induction false} Drops(s: P.Sys, idx: nat)
    requires s.pc == P.GiveUp(idx) || (s.pc.SubmitFailed? && s.pc.idx == idx && !MayResubmit(s.q, idx))
    requires s.q.n > 0 && s.q.r == idx
    ensures var t := P.Step(P.Step(s, P.Work(true)), P.Work(true));
            && t.q == Dropped(s.q, idx) && t.pc == P.Idle && t.txErrors == s.txErrors + 1
            && (t.busy, t.urbIdx, t.urbLen) == (s.busy, s.urbIdx, s.urbLen)
  {
    hide P.Shown;
  }

  lemma {:induction false} RunTwo(s: P.Sys, a: P.Event, b: P.Event)
    ensures P.Run(s, [a, b]) == P.Step(P.Step(s, a), b)
  {
    hide P.Step;
    assert [a, b][1..] == [b] && [b][1..] == [];
    assert P.Run(P.Step(s, a), [b]) == P.Run(P.Step(P.Step(s, a), b), []);
  }

  lemma {:induction false} RunPrefix(s: P.Sys, events: seq<P.Event>)
    requires |events| >= 4
    ensures P.Run(s, events) == P.Run(P.Step(P.Step(s, events[0]), events[1]), events[2..])
    ensures |events| == 4 ==> events[2..] == [events[2], events[3]]
    ensures |events| == 6 ==>
              P.Run(s, events) ==
              P.Run(P.Step(P.Step(P.Step(P.Step(s, events[0]), events[1]), events[2]), events[3]),
                    [events[4], events[5]])
  {
    hide P.Step;
    assert events[1..][0] == events[1] && events[1..][1..] == events[2..];
    if |events| == 6 {
      var s2 := P.Step(P.Step(s, events[0]), events[1]);
      assert events[2..][0] == events[2] && events[3..][0] == events[3];
      assert P.Run(s2, events[2..]) == P.Run(P.Step(s2, events[2]), events[2..][1..]);
      assert events[2..][1..] == events[3..] && events[3..][1..] == events[4..] == [events[4], events[5]];
    }
  }

  lemma {:induction false} PushFull(q: Ring, eth: seq<byte>, shift: nat)
    requires Valid(q) && q.n == CAP
    ensures Push(q, eth, shift) == q
  {
  }

  function NextSlot(i: nat): nat {
    (i + 1) % CAP
  }

  lemma {:induction false} AtNext(q: Ring, k: nat)
    ensures NextSlot(At(q, k)) == At(q, k + 1)
  {
    WrapAdd(q.r + k, 1);
  }

  /** How many of the first k queued records the pipe takes, and how many bytes they are. */
  function Taken(q: Ring, writes: nat -> bool, k: nat): nat {
    if k == 0 then 0 else Taken(q, writes, k - 1) + (if writes(k - 1) then 1 else 0)
  }

  function TakenBytes(q: Ring, writes: nat -> bool, k: nat): nat
    requires Shape(q)
  {
    if k == 0 then 0 else TakenBytes(q, writes, k - 1) + (if writes(k - 1) then q.lens[At(q, k - 1)] else 0)
  }

  lemma {:induction false} TakenNone(q: Ring, writes: nat -> bool)
    requires Shape(q)
    ensures Taken(q, writes, 0) == TakenBytes(q, writes, 0) == 0
  {
  }

  lemma {:induction false} TakenOne(q: Ring, writes: nat -> bool, k: nat)
    requires Shape(q)
    ensures Taken(q, writes, k + 1) == Taken(q, writes, k) + (if writes(k) then 1 else 0)
    ensures TakenBytes(q, writes, k + 1) == TakenBytes(q, writes, k) + (if writes(k) then q.lens[At(q, k)] else 0)
  {
  }

  class Engine {
    var flat: array?<byte>
    var lens: array<nat>
    var r: nat
    var w: nat
    var n: nat
    var retries: nat
    var busy: bool
    var urbIdx: nat
    var urbLen: nat
    var txFrames: nat
    var txBytes: nat
    var txErrors: nat

    ghost function Repr(): set<object?>
      reads this
    {
      {this, lens, flat}
    }

    /** The ring's fields as a value. */
    ghost function Queue(): Ring
      reads this, Repr()
    {
      Ring(if flat == null then [] else flat[..], lens[..], r, w, n, retries)
    }

    ghost predicate WellFormed()
      reads this, Repr()
    {
      lens.Length == CAP && (flat != null ==> flat as object != lens as object && Valid(Queue()))
    }

    constructor (buffer: array?<byte>)
      requires buffer != null ==> buffer.Length == CAP * SLOT
      ensures WellFormed() && flat == buffer && fresh(lens)
      ensures flat != null ==> Pending(Queue()) == []
      ensures !busy && txFrames == txBytes == txErrors == 0
    {
      flat := buffer;
      lens := new nat[CAP](_ => 0);
      r, w, n, retries := 0, 0, 0, 0;
      busy, urbIdx, urbLen := false, 0, 0;
      txFrames, txBytes, txErrors := 0, 0, 0;
    }

    /** Wrapping into the slot at w, in place, and advancing w; nothing changes unless it fits. */
    method FillSlot(eth: seq<byte>, shift: nat) returns (wrapped: nat)
      requires WellFormed() && flat != null && n < CAP
      modifies this`w, this`n, lens, flat
      ensures lens.Length == CAP && flat != null && flat as object != lens as object
      ensures (0 < wrapped <= SLOT) == Fits(eth, shift)
      ensures Queue() == Push(old(Queue()), eth, shift)
    {
      assert Shape(Queue());
      hide At, Valid, Pending, Rndis.Wrap, Rndis.WrapLen;
      wrapped := Rndis.WrapEthernetAligned(flat, w * SLOT, SLOT, eth, shift);
      if wrapped == 0 || wrapped > SLOT {
        return;
      }
      lens[w] := wrapped;
      w := (w + 1) % CAP;
      n := n + 1;
    }

    /**
     A producer's region. On success the wrapped frame is the new last record of the
     queue; otherwise nothing queued changes and one error is counted.
     */
    method SendEthUsb(eth: seq<byte>, shift: nat) returns (rc: int)
      requires WellFormed()
      modifies Repr()
      ensures flat == old(flat) && lens == old(lens) && WellFormed()
      ensures rc == if old(flat != null && Accepts(Queue(), eth, shift)) then 0 else -1
      ensures flat != null ==> Queue() == Push(old(Queue()), eth, shift)
      ensures flat != null ==>
                Pending(Queue()) == old(Pending(Queue())) + (if rc == 0 then [Rndis.Wrap(eth, shift)] else [])
      ensures txErrors == old(txErrors) + (if rc == 0 then 0 else 1)
      ensures (busy, urbIdx, urbLen, txFrames, txBytes) == old((busy, urbIdx, urbLen, txFrames, txBytes))
    {
      if flat == null {
        txErrors := txErrors + 1;
        return -1;
      }
      PushSpec(Queue(), eth, shift);
      hide At, Valid, Pending, Push, Fits, Rndis.Wrap;
      if n >= CAP {
        PushFull(Queue(), eth, shift);
        txErrors := txErrors + 1;
        return -1;
      }
      var wrapped := FillSlot(eth, shift);
      if wrapped == 0 || wrapped > SLOT {
        txErrors := txErrors + 1;
        return -1;
      }
      return 0;
    }

    /** The completion callback: retry on failure, else drop the head and count it. */
    method OnUsbOut(rc: int)
      requires WellFormed() && flat != null
      modifies this`r, this`n, this`retries, this`txFrames, this`txBytes, this`txErrors
      ensures WellFormed() && Queue() == Completed(old(Queue()), rc)
      ensures old(Retries(Queue(), rc)) ==>
                && Pending(Queue()) == old(Pending(Queue()))
                && (txFrames, txBytes, txErrors) == old((txFrames, txBytes, txErrors))
      ensures !old(Retries(Queue(), rc)) && old(n) > 0 ==>
                && Pending(Queue()) == old(Pending(Queue()))[1..]
                && txFrames == old(txFrames) + (if rc == 0 then 1 else 0)
                && txBytes == old(txBytes) + (if rc == 0 then |old(Pending(Queue()))[0]| else 0)
                && txErrors == old(txErrors) + (if rc == 0 then 0 else 1)
      ensures old(n) == 0 ==>
                && (txFrames, txBytes) == old((txFrames, txBytes))
                && txErrors == old(txErrors) + (if rc == 0 then 0 else 1)
    {
      ghost var q := Queue();
      if n > 0 {
        PopRemovesFirst(q);
        RetriesIrrelevant(Pop(q), 0);
      } else {
        RetriesIrrelevant(q, 0);
      }
      if Retries(q, rc) {
        RetriesIrrelevant(q, q.retries + 1);
      }
      hide At, Valid, Pending;
      var len := 0;
      if rc != 0 && retries < MAX_RETRIES && n > 0 {
        retries := retries + 1;
        return;
      }
      retries := 0;
      if n > 0 {
        len := lens[r];
        r := (r + 1) % CAP;
        n := n - 1;
      }
      if rc == 0 {
        if len != 0 {
          txBytes := txBytes + len;
          txFrames := txFrames + 1;
        }
      } else {
        txErrors := txErrors + 1;
      }
    }

    /** Submission of one slot: 1 when an OUT is in flight already, else the answer of the pipe. */
    method SubmitOut(idx: nat, len: nat, ok: bool) returns (wr: int)
      modifies this`busy, this`urbIdx, this`urbLen
      ensures wr == if len == 0 then -1 else if old(busy) then 1 else if ok then 0 else -1
      ensures wr == 0 ==> busy && urbIdx == idx && urbLen == len
      ensures wr != 0 ==> (busy, urbIdx, urbLen) == old((busy, urbIdx, urbLen))
    {
      if len == 0 {
        return -1;
      }
      if busy {
        return 1;
      }
      if !ok {
        return -1;
      }
      busy, urbIdx, urbLen := true, idx, len;
      return 0;
    }

    method TryStartOut(first: bool, second: bool)
      requires WellFormed()
      modifies this`r, this`n, this`retries, this`busy, this`urbIdx, this`urbLen, this`txErrors
      ensures WellFormed()
      ensures flat != null ==>
                var st := StartOut(old(Queue()), old(busy), old(urbIdx), old(urbLen), first, second);
                && (Queue(), busy, urbIdx, urbLen) == (st.q, st.busy, st.idx, st.len)
                && txErrors == old(txErrors) + (if st.dropped then 1 else 0)
      ensures flat == null ==> (r, n, retries, busy, txErrors) == old((r, n, retries, busy, txErrors))
    {
      if flat == null {
        return;
      }
      if busy {
        return;
      }
      ghost var q := Queue();
      if n == 0 {
        return;
      }
      StartOutValid(q, busy, urbIdx, urbLen, first, second);
      StartOutCases(q, busy, urbIdx, urbLen, first, second);
      assert r < CAP;
      hide Valid, Pending, At, StartOut;
      var idx := r;
      var len := lens[idx];
      var wr := SubmitOut(idx, len, first);
      if wr == 1 {
        return;
      }
      if wr != 0 {
        if retries < MAX_RETRIES && n > 0 && r == idx {
          retries := retries + 1;
          wr := SubmitOut(idx, len, second);
          if wr == 0 || wr == 1 {
            return;
          }
        }
        assert Queue().(retries := 0) == q.(retries := 0) && !busy;
        retries := 0;
        if n > 0 && r == idx {
          r := (r + 1) % CAP;
          n := n - 1;
        }
        txErrors := txErrors + 1;
        assert Queue() == Pop(q).(retries := 0);
      }
    }

    /** One turn of the synchronous drain: the head is written once, popped and counted. */
    method DrainOne(ok: bool)
      requires WellFormed() && flat != null && n > 0
      modifies this`r, this`n, this`txFrames, this`txBytes, this`txErrors
      ensures WellFormed() && Queue() == Pop(old(Queue())) && r == NextSlot(old(r)) < CAP && n == old(n) - 1
      ensures n == 0 ==> Pending(Queue()) == []
      ensures txFrames == old(txFrames) + (if ok then 1 else 0)
      ensures txBytes == old(txBytes) + (if ok then old(lens[r]) else 0)
      ensures txErrors == old(txErrors) + (if ok then 0 else 1)
    {
      PopRemovesFirst(Queue());
      hide At, Valid, Pending;
      var len := lens[r];
      r := (r + 1) % CAP;
      n := n - 1;
      if ok {
        txBytes := txBytes + len;
        txFrames := txFrames + 1;
      } else {
        txErrors := txErrors + 1;
      }
    }

    /** The synchronous drain: every queued record is written once, in order, and counted. */
    method DrainTx(writes: nat -> bool)
      requires WellFormed() && flat != null
      modifies this`r, this`n, this`txFrames, this`txBytes, this`txErrors
      ensures WellFormed() && Pending(Queue()) == []
      ensures txFrames == old(txFrames) + Taken(old(Queue()), writes, old(n))
      ensures txBytes == old(txBytes) + TakenBytes(old(Queue()), writes, old(n))
      ensures txErrors == old(txErrors) + old(n) - Taken(old(Queue()), writes, old(n))
    {
      ghost var q0 := Queue();
      var k := 0;
      assert At(q0, 0) == r < CAP && Shape(q0) && q0.lens == lens[..];
      assert n == 0 ==> Pending(q0) == [];
      hide At, NextSlot, Valid, WellFormed, Queue, Pending, Taken, TakenBytes, Pop;
      TakenNone(q0, writes);
      while n > 0
        invariant WellFormed()
        invariant n == 0 ==> Pending(Queue()) == []
        invariant k + n == q0.n && r == At(q0, k) < CAP
        invariant txFrames == old(txFrames) + Taken(q0, writes, k)
        invariant txBytes == old(txBytes) + TakenBytes(q0, writes, k)
        invariant txErrors + txFrames == old(txErrors + txFrames) + k
        decreases n
      {
        AtNext(q0, k);
        TakenOne(q0, writes, k);
        DrainOne(writes(k));
        k := k + 1;
      }
    }
  }
}
