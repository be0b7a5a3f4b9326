/**
 The transmit protocol as a step machine. Each step is one locked region, one call
 into the USB pipe or one counter update, so producers can run between any two
 steps of the consumer: between peeking at the head, submitting a pointer to it,
 the completion callback, and the pop.
 */
module TxProtocol {
  import opened Bytes
  import opened TxRing
  import opened RndisStreams
  import Rndis

  /** Where the consumer thread is. */
  datatype Pc =
    | Idle
    | Peeked(idx: nat, len: nat)        // unlocked, about to submit
    | SubmitFailed(idx: nat, len: nat)  // about to take the lock again
    | Resubmit(idx: nat, len: nat)      // stall cleared, about to submit once more
    | GiveUp(idx: nat)                  // second submission failed too
    | Draining(idx: nat, len: nat)      // synchronous path: about to write
    | Written(bytes: seq<byte>, ok: bool)
    | Counting(len: nat, ok: bool)      // lock released, about to update the counters

  /** A frame that has left the ring: what was on the wire, whether it got through, async submissions used. */
  datatype Done = Done(record: seq<byte>, ok: bool, tries: nat)

  /**
   `attached` says whether completions are delivered; `busy`, `urbIdx` and `urbLen`
   describe the one asynchronous OUT, and `held` says that the pipe still has its buffer.
   `urb` (the bytes submitted), `tries`, `accepted`, `rejected` and `done` are history.
   */
  datatype Sys = Sys(
    q: Ring, pc: Pc, attached: bool, busy: bool, held: bool, urbIdx: nat, urbLen: nat,
    urb: seq<byte>, tries: nat,
    accepted: seq<Sent>, rejected: nat, done: seq<Done>,
    txFrames: nat, txBytes: nat, txErrors: nat)

  datatype Event =
    | Produce(eth: seq<byte>, shift: nat)  // a producer runs its locked region
    | Work(ok: bool)                       // the consumer's next step; ok is what the pipe answers
    | Complete(rc: int)                    // the completion callback
    | Lose                                 // a frame is given up before it reaches the ring
    | Abort                                // the worker aborts the pipe before it leaves its run loop
    | Detach                               // the worker leaves its run loop

  function Init(flat: seq<byte>, lens: seq<nat>, attached: bool): Sys {
    Sys(Ring(flat, lens, 0, 0, 0, 0), Idle, attached, false, false, 0, 0, [], 0, [], 0, [], 0, 0, 0)
  }

  /** The bytes a pointer to slot idx shows at this moment. */
  function Shown(q: Ring, idx: nat, len: nat): seq<byte> {
    if idx * SLOT + len <= |q.flat| then Sub(q.flat, idx * SLOT, len) else []
  }

  function Length(q: Ring, i: nat): nat {
    if i < |q.lens| then q.lens[i] else 0
  }

  // ------------------------------------------------------------- the steps

  function StepProduce(s: Sys, eth: seq<byte>, shift: nat): Sys {
    if Shape(s.q) && Accepts(s.q, eth, shift) then
      s.(q := Push(s.q, eth, shift), accepted := s.accepted + [Sent(eth, shift)])
    else
      s.(rejected := s.rejected + 1, txErrors := s.txErrors + 1)
  }

  /** Submission: the busy flag is exchanged first, then the pipe is asked. */
  function StepSubmit(s: Sys, idx: nat, len: nat, ok: bool, failed: Pc): Sys {
    if len > 0 && s.busy then s.(pc := Idle)
    else if len > 0 && ok then
      s.(busy := true, held := true, urbIdx := idx, urbLen := len, urb := Shown(s.q, idx, len),
         tries := s.tries + 1, pc := Idle)
    else s.(tries := s.tries + 1, pc := failed)
  }

  /** The head leaves the ring with an outcome. */
  function Leave(s: Sys, q': Ring, bytes: seq<byte>, ok: bool): Sys {
    s.(q := q', done := s.done + [Done(bytes, ok, s.tries)], tries := 0, pc := Counting(|bytes|, ok))
  }

  function StepDrop(s: Sys, idx: nat): Sys {
    if s.q.n > 0 && s.q.r == idx then
      Leave(s, Dropped(s.q, idx), Shown(s.q, idx, Length(s.q, idx)), false)
    else s.(q := Dropped(s.q, idx), pc := Counting(0, false))
  }

  function StepWork(s: Sys, ok: bool): Sys {
    match s.pc
    case Idle =>
      if s.q.n == 0 || (s.attached && s.busy) then s
      else if s.attached then s.(pc := Peeked(s.q.r, Length(s.q, s.q.r)))
      else s.(pc := Draining(s.q.r, Length(s.q, s.q.r)))
    case Peeked(idx, len) => StepSubmit(s, idx, len, ok, SubmitFailed(idx, len))
    case SubmitFailed(idx, len) =>
      if MayResubmit(s.q, idx) then s.(q := s.q.(retries := s.q.retries + 1), pc := Resubmit(idx, len))
      else StepDrop(s, idx)
    case Resubmit(idx, len) => StepSubmit(s, idx, len, ok, GiveUp(idx))
    case GiveUp(idx) => StepDrop(s, idx)
    case Draining(idx, len) => s.(pc := Written(Shown(s.q, idx, len), ok))
    case Written(bytes, sent) => if s.q.n > 0 then Leave(s, Pop(s.q), bytes, sent) else s
    case Counting(len, sent) =>
      if !sent then s.(txErrors := s.txErrors + 1, pc := Idle)
      else if len > 0 then s.(txFrames := s.txFrames + 1, txBytes := s.txBytes + len, pc := Idle)
      else s.(pc := Idle)
  }

  function StepComplete(s: Sys, rc: int): Sys {
    if s.pc != Idle || !s.attached || !s.busy then s
    else if Retries(s.q, rc) then s.(q := Completed(s.q, rc), busy := false, held := false)
    else if s.q.n > 0 then
      Leave(s, Completed(s.q, rc), Shown(s.q, s.urbIdx, s.urbLen), rc == 0).(busy := false, held := false)
    else s.(q := Completed(s.q, rc), busy := false, held := false, pc := Counting(0, rc == 0))
  }

  function Step(s: Sys, e: Event): Sys {
    match e
    case Produce(eth, shift) => StepProduce(s, eth, shift)
    case Work(ok) => StepWork(s, ok)
    case Complete(rc) => StepComplete(s, rc)
    case Lose => s.(rejected := s.rejected + 1, txErrors := s.txErrors + 1)
    case Abort => s.(held := false)
    case Detach => if s.pc == Idle && !s.held then s.(attached := false) else s
  }

  function Run(s: Sys, events: seq<Event>): Sys
    decreases |events|
  {
    if events == [] then s else Run(Step(s, events[0]), events[1..])
  }

  // -------------------------------------------------------------- history

  function Records(done: seq<Done>): (rs: seq<seq<byte>>)
    ensures |rs| == |done| && forall k :: 0 <= k < |done| ==> rs[k] == done[k].record
  {
    seq(|done|, k requires 0 <= k < |done| => done[k].record)
  }

  function Wrapped(sent: seq<Sent>): (rs: seq<seq<byte>>)
    ensures |rs| == |sent| && forall k :: 0 <= k < |sent| ==> rs[k] == Rndis.Wrap(sent[k].eth, sent[k].shift)
  {
    seq(|sent|, k requires 0 <= k < |sent| => Rndis.Wrap(sent[k].eth, sent[k].shift))
  }

  function Delivered(done: seq<Done>): nat {
    if done == [] then 0 else Delivered(done[..|done| - 1]) + (if done[|done| - 1].ok then 1 else 0)
  }

  function DeliveredBytes(done: seq<Done>): nat {
    if done == [] then 0
    else DeliveredBytes(done[..|done| - 1]) + (if done[|done| - 1].ok then |done[|done| - 1].record| else 0)
  }

  // ----------------------------------------------------------- invariants

  /** The consumer's view of the head: slot r, of the length and bytes of the oldest record. */
  ghost predicate OnHead(s: Sys, idx: nat, len: nat) {
    Valid(s.q) && s.q.n > 0 && idx == s.q.r && len == Length(s.q, idx)
  }

  /** The pipe may still read from the slot it was given. */
  predicate InFlight(s: Sys) {
    s.held
  }

  /** An asynchronous OUT was submitted and its completion can still arrive. */
  predicate Outstanding(s: Sys) {
    s.attached && s.busy
  }

  /** What holds at each point of the consumer; `tries` counts asynchronous submissions of the head. */
  ghost predicate PcInv(s: Sys) {
    match s.pc
    case Idle => s.attached ==> s.tries == s.q.retries + (if s.busy then 1 else 0)
    case Peeked(idx, len) => s.attached && !s.busy && OnHead(s, idx, len) && s.tries == s.q.retries
    case SubmitFailed(idx, len) => s.attached && !s.busy && OnHead(s, idx, len) && s.tries == s.q.retries + 1
    case Resubmit(idx, len) => s.attached && !s.busy && OnHead(s, idx, len) && s.tries == s.q.retries
    case GiveUp(idx) => s.attached && !s.busy && OnHead(s, idx, Length(s.q, idx)) && s.tries == s.q.retries + 1
    case Draining(idx, len) => !s.attached && OnHead(s, idx, len)
    case Written(bytes, _) => !s.attached && OnHead(s, s.q.r, |bytes|) && bytes == Pending(s.q)[0]
    case Counting(_, _) => s.tries == 0 && (s.attached ==> s.q.retries == 0 && !s.busy)
  }

  ghost predicate FlightInv(s: Sys) {
    && (InFlight(s) ==> Outstanding(s))
    && (Outstanding(s) ==>
      && OnHead(s, s.urbIdx, s.urbLen)
      && s.urb == Pending(s.q)[0] == Shown(s.q, s.urbIdx, s.urbLen))
  }

  /** Conservation and order at once: what left, followed by what is queued, is what was accepted. */
  ghost predicate Fifo(s: Sys) {
    Valid(s.q) && Records(s.done) + Pending(s.q) == Wrapped(s.accepted)
  }

  ghost predicate Tally(s: Sys) {
    && s.txFrames + (if s.pc.Counting? && s.pc.ok then 1 else 0) == Delivered(s.done)
    && s.txBytes + (if s.pc.Counting? && s.pc.ok then s.pc.len else 0) == DeliveredBytes(s.done)
    && s.txErrors + (if s.pc.Counting? && !s.pc.ok then 1 else 0) == s.rejected + (|s.done| - Delivered(s.done))
    && (s.pc.Counting? ==> s.pc.len > 0)
  }

  ghost predicate Bounded(s: Sys) {
    s.tries <= 3 && forall k :: 0 <= k < |s.done| ==> s.done[k].tries <= 3
  }

  ghost predicate Inv(s: Sys) {
    Fifo(s) && PcInv(s) && FlightInv(s) && Tally(s) && Bounded(s)
  }

  // ----------------------------------------------------------- preservation

  /** The head as the ring shows it. */
  lemma {:induction false} HeadShown(s: Sys, idx: nat, len: nat)
    requires OnHead(s, idx, len)
    ensures Shown(s.q, idx, len) == Pending(s.q)[0] && |Pending(s.q)[0]| == len > 0
  {
    PopRemovesFirst(s.q);
  }

  lemma {:induction false} OnHeadNow(s: Sys)
    requires Valid(s.q) && s.q.n > 0
    ensures OnHead(s, s.q.r, Length(s.q, s.q.r))
  {
  }

  /** A producer leaves the head, and so everything the consumer holds on to, as it was. */
  lemma {:induction false} ProduceKeepsHead(s: Sys, eth: seq<byte>, shift: nat, idx: nat, len: nat)
    requires OnHead(s, idx, len)
    ensures OnHead(StepProduce(s, eth, shift), idx, len)
    ensures Pending(StepProduce(s, eth, shift).q)[0] == Pending(s.q)[0]
    ensures Shown(StepProduce(s, eth, shift).q, idx, len) == Shown(s.q, idx, len)
  {
    var s' := StepProduce(s, eth, shift);
    PushSpec(s.q, eth, shift);
    HeadShown(s, idx, len);
    PushKeepsRead(s.q, eth, shift);
    assert Pending(s'.q)[0] == Pending(s.q)[0];
    OnHeadNow(s');
    HeadShown(s', s'.q.r, Length(s'.q, s'.q.r));
  }

  lemma {:induction false} PushKeepsRead(q: Ring, eth: seq<byte>, shift: nat)
    requires Shape(q)
    ensures Push(q, eth, shift).r == q.r && Push(q, eth, shift).retries == q.retries && Push(q, eth, shift).n >= q.n
  {
  }

  lemma {:induction false} ProduceKeepsFifo(s: Sys, eth: seq<byte>, shift: nat)
    requires Fifo(s)
    ensures Fifo(StepProduce(s, eth, shift))
  {
    PushSpec(s.q, eth, shift);
    if Accepts(s.q, eth, shift) {
      var rec := Rndis.Wrap(eth, shift);
      hide Valid, Push, Rndis.Wrap;
      Assoc(Records(s.done), Pending(s.q), [rec]);
      assert Wrapped(s.accepted + [Sent(eth, shift)]) == Wrapped(s.accepted) + [rec];
    }
  }

  lemma {:induction false} ProduceKeepsInv(s: Sys, eth: seq<byte>, shift: nat)
    requires Inv(s)
    ensures Inv(StepProduce(s, eth, shift))
  {
    hide Pending, Push, Accepts, Length, Shown;
    ProduceKeepsFifo(s, eth, shift);
    PushKeepsRead(s.q, eth, shift);
    if s.q.n > 0 {
      OnHeadNow(s);
      ProduceKeepsHead(s, eth, shift, s.q.r, Length(s.q, s.q.r));
    }
  }

  lemma {:induction false} LeaveTally(done: seq<Done>, d: Done)
    ensures Delivered(done + [d]) == Delivered(done) + (if d.ok then 1 else 0)
    ensures DeliveredBytes(done + [d]) == DeliveredBytes(done) + (if d.ok then |d.record| else 0)
  {
    assert (done + [d])[..|done + [d]| - 1] == done;
  }

  /** The head leaves with its own bytes: order and conservation are kept. */
  lemma {:induction false} LeaveKeeps(s: Sys, q': Ring, bytes: seq<byte>, ok: bool)
    requires Fifo(s) && Bounded(s) && s.q.n > 0 && bytes == Pending(s.q)[0]
    requires Tally(s) && !s.pc.Counting?
    requires Valid(q') && Pending(q') == Pending(s.q)[1..]
    ensures var s' := Leave(s, q', bytes, ok); Fifo(s') && Bounded(s') && Tally(s')
  {
    var s' := Leave(s, q', bytes, ok);
    var d := Done(bytes, ok, s.tries);
    OnHeadNow(s);
    HeadShown(s, s.q.r, Length(s.q, s.q.r));
    LeaveTally(s.done, d);
    hide Valid, Pending;
    assert Records(s.done + [d]) == Records(s.done) + [bytes];
    assert [bytes] + Pending(q') == Pending(s.q);
    Assoc(Records(s.done), [bytes], Pending(q'));
  }

  lemma {:induction false} DropKeepsInv(s: Sys, idx: nat)
    requires Fifo(s) && Bounded(s) && Tally(s) && !s.pc.Counting?
    requires s.attached && !s.busy && !s.held && OnHead(s, idx, Length(s.q, idx))
    ensures Inv(StepDrop(s, idx))
  {
    HeadShown(s, idx, Length(s.q, idx));
    PopRemovesFirst(s.q);
    RetriesIrrelevant(Pop(s.q), 0);
    LeaveKeeps(s, Dropped(s.q, idx), Shown(s.q, idx, Length(s.q, idx)), false);
  }

  lemma {:induction false} SubmitKeepsInv(s: Sys, idx: nat, len: nat, ok: bool, failed: Pc)
    requires Inv(s) && s.attached && !s.busy && OnHead(s, idx, len) && s.tries == s.q.retries
    requires (s.pc == Peeked(idx, len) && failed == SubmitFailed(idx, len))
          || (s.pc == Resubmit(idx, len) && failed == GiveUp(idx))
    ensures Inv(StepSubmit(s, idx, len, ok, failed))
  {
    HeadShown(s, idx, len);
    hide Pending, Shown;
  }

  lemma {:induction false} IdleWorkKeepsInv(s: Sys, ok: bool)
    requires Inv(s) && s.pc.Idle?
    ensures Inv(StepWork(s, ok))
  {
    hide Pending, Shown;
    if s.q.n > 0 {
      OnHeadNow(s);
    }
  }

  lemma {:induction false} ErrorWorkKeepsInv(s: Sys, ok: bool)
    requires Inv(s) && (s.pc.SubmitFailed? || s.pc.GiveUp?)
    ensures Inv(StepWork(s, ok))
  {
    hide Pending, Shown, StepDrop;
    if s.pc.SubmitFailed? && MayResubmit(s.q, s.pc.idx) {
      RetriesIrrelevant(s.q, s.q.retries + 1);
    } else {
      DropKeepsInv(s, s.pc.idx);
    }
  }

  lemma {:induction false} DrainWorkKeepsInv(s: Sys, ok: bool)
    requires Inv(s) && (s.pc.Draining? || s.pc.Written?)
    ensures Inv(StepWork(s, ok))
  {
    hide Pending, Shown;
    if s.pc.Draining? {
      HeadShown(s, s.pc.idx, s.pc.len);
    } else {
      PopRemovesFirst(s.q);
      LeaveKeeps(s, Pop(s.q), s.pc.bytes, s.pc.ok);
    }
  }

  lemma {:induction false} CountWorkKeepsInv(s: Sys, ok: bool)
    requires Inv(s) && s.pc.Counting?
    ensures Inv(StepWork(s, ok))
  {
    hide Pending, Shown, Valid, Records, Wrapped;
  }

  lemma {:induction false} WorkKeepsInv(s: Sys, ok: bool)
    requires Inv(s)
    ensures Inv(StepWork(s, ok))
  {
    hide Fifo, Tally, Bounded, FlightInv, StepDrop;
    match s.pc
    case Idle => IdleWorkKeepsInv(s, ok);
    case Peeked(idx, len) => SubmitKeepsInv(s, idx, len, ok, SubmitFailed(idx, len));
    case SubmitFailed(idx, len) => ErrorWorkKeepsInv(s, ok);
    case Resubmit(idx, len) => SubmitKeepsInv(s, idx, len, ok, GiveUp(idx));
    case GiveUp(idx) => ErrorWorkKeepsInv(s, ok);
    case Draining(idx, len) => DrainWorkKeepsInv(s, ok);
    case Written(bytes, sent) => DrainWorkKeepsInv(s, ok);
    case Counting(len, sent) => CountWorkKeepsInv(s, ok);
  }

  lemma {:induction false} CompleteKeepsInv(s: Sys, rc: int)
    requires Inv(s)
    ensures Inv(StepComplete(s, rc))
  {
    hide Pending, Shown;
    if s.pc == Idle && Outstanding(s) {
      if Retries(s.q, rc) {
        RetryKeepsInv(s, rc);
      } else {
        PopRemovesFirst(s.q);
        RetriesIrrelevant(Pop(s.q), 0);
        LeaveKeeps(s, Completed(s.q, rc), Shown(s.q, s.urbIdx, s.urbLen), rc == 0);
      }
    }
  }

  lemma {:induction false} RetryKeepsInv(s: Sys, rc: int)
    requires Inv(s) && s.pc == Idle && Outstanding(s) && Retries(s.q, rc)
    ensures Inv(StepComplete(s, rc))
  {
    hide Pending, Shown;
    RetriesIrrelevant(s.q, s.q.retries + 1);
  }

  lemma {:induction false} StepKeepsInv(s: Sys, e: Event)
    requires Inv(s)
    ensures Inv(Step(s, e))
  {
    match e
    case Produce(eth, shift) => ProduceKeepsInv(s, eth, shift);
    case Work(ok) => WorkKeepsInv(s, ok);
    case Complete(rc) => CompleteKeepsInv(s, rc);
    case Lose => LoseKeepsInv(s);
    case Abort =>
    case Detach =>
  }

  lemma {:induction false} LoseKeepsInv(s: Sys)
    requires Inv(s)
    ensures Inv(Step(s, Lose))
  {
    hide Pending, Shown, Valid, Records, Wrapped;
  }

  lemma {:induction false} InitInv(flat: seq<byte>, lens: seq<nat>, attached: bool)
    requires |flat| == CAP * SLOT && |lens| == CAP
    ensures Inv(Init(flat, lens, attached))
  {
    var s := Init(flat, lens, attached);
    assert Records(s.done) + Pending(s.q) == Wrapped(s.accepted);
  }

  lemma {:induction false} RunKeepsInv(s: Sys, events: seq<Event>)
    requires Inv(s)
    ensures Inv(Run(s, events))
    decreases |events|
  {
    if events != [] {
      StepKeepsInv(s, events[0]);
      RunKeepsInv(Step(s, events[0]), events[1..]);
    }
  }

  // ------------------------------------------------------------- theorems

  /**
   Main result on order and conservation: in every reachable state the frames
   accepted are exactly those that left, in the order they left, followed by those
   still queued; every one of them is the wrapped form of what was handed in.
   */
  lemma {:induction false} LeavesInOrder(flat: seq<byte>, lens: seq<nat>, attached: bool, events: seq<Event>)
    requires |flat| == CAP * SLOT && |lens| == CAP
    ensures var s := Run(Init(flat, lens, attached), events);
            && Valid(s.q)
            && Records(s.done) + Pending(s.q) == Wrapped(s.accepted)
            && |s.accepted| == Delivered(s.done) + (|s.done| - Delivered(s.done)) + s.q.n
  {
    InitInv(flat, lens, attached);
    RunKeepsInv(Init(flat, lens, attached), events);
    var s := Run(Init(flat, lens, attached), events);
    assert |Records(s.done) + Pending(s.q)| == |s.accepted|;
  }

  /**
   Main result on the one asynchronous OUT: from its submission until it completes or is
   aborted its slot is still the head, and the pointer still shows the bytes that were
   submitted, whatever producers and the consumer have done since.
   */
  lemma {:induction false} InFlightUntouched(flat: seq<byte>, lens: seq<nat>, attached: bool, events: seq<Event>)
    requires |flat| == CAP * SLOT && |lens| == CAP
    ensures var s := Run(Init(flat, lens, attached), events);
            InFlight(s) ==>
              && s.attached && s.q.n > 0 && s.urbIdx == s.q.r && Length(s.q, s.q.r) == s.urbLen == |s.urb| > 0
              && Shown(s.q, s.urbIdx, s.urbLen) == s.urb
  {
    InitInv(flat, lens, attached);
    RunKeepsInv(Init(flat, lens, attached), events);
    var s := Run(Init(flat, lens, attached), events);
    assert InFlight(s) ==> Outstanding(s);
    if InFlight(s) {
      HeadShown(s, s.urbIdx, s.urbLen);
    }
  }

  /** The consumer never submits while an OUT is in flight, so at most one ever is. */
  lemma {:induction false} NeverBusyAtSubmit(s: Sys)
    requires Inv(s) && (s.pc.Peeked? || s.pc.Resubmit?)
    ensures !s.busy && s.pc.len > 0 && s.pc.idx == s.q.r && s.q.n > 0
  {
    HeadShown(s, s.pc.idx, s.pc.len);
  }

  /** No frame is submitted asynchronously more than three times, whatever the pipe answers. */
  lemma {:induction false} AtMostThreeTries(flat: seq<byte>, lens: seq<nat>, attached: bool, events: seq<Event>)
    requires |flat| == CAP * SLOT && |lens| == CAP
    ensures var s := Run(Init(flat, lens, attached), events);
            s.tries <= 3 && forall k :: 0 <= k < |s.done| ==> s.done[k].tries <= 3
  {
    InitInv(flat, lens, attached);
    RunKeepsInv(Init(flat, lens, attached), events);
  }

  /**
   The counters: once the consumer has no update outstanding, tx_frames counts the
   delivered frames, tx_bytes sums their wrapped lengths, and tx_errors counts the
   frames rejected and the frames dropped.
   */
  lemma {:induction false} CountersExact(flat: seq<byte>, lens: seq<nat>, attached: bool, events: seq<Event>)
    requires |flat| == CAP * SLOT && |lens| == CAP
    ensures var s := Run(Init(flat, lens, attached), events);
            !s.pc.Counting? ==>
              && s.txFrames == Delivered(s.done) && s.txBytes == DeliveredBytes(s.done)
              && s.txErrors == s.rejected + (|s.done| - s.txFrames)
  {
    InitInv(flat, lens, attached);
    RunKeepsInv(Init(flat, lens, attached), events);
  }

  // ------------------------------------------------------------- draining

  /** How far the consumer is from having nothing to do with the head. */
  function Rank(s: Sys): nat {
    if s.attached then
      match s.pc
      case Counting(_, _) => 11
      case Idle => if s.held then 6 else if s.busy then 5 else 10
      case Peeked(_, _) => 9
      case Resubmit(_, _) => 9
      case SubmitFailed(_, _) => 8
      case GiveUp(_) => 7
      case _ => 0
    else
      match s.pc
      case Counting(_, _) => 3
      case Idle => 2
      case Draining(_, _) => 1
      case _ => 0
  }

  /** Queued frames first, then retries left, then the consumer's place. */
  function Distance(s: Sys): nat
    requires s.q.retries <= MAX_RETRIES
  {
    64 * s.q.n + 16 * (MAX_RETRIES - s.q.retries) + Rank(s)
  }

  /** The state one consumer step can reach when it does anything at all. */
  predicate Moves(s: Sys, e: Event) {
    !e.Produce? && !e.Lose? && Step(s, e) != s
  }

  /**
   With producers quiet every consumer step that does something strictly decreases
   the distance: the queue gets shorter, or a retry is used up, or the head moves on.
   */
  lemma {:induction false} ConsumerDescends(s: Sys, e: Event)
    requires Inv(s) && Moves(s, e)
    ensures Inv(Step(s, e)) && Distance(Step(s, e)) < Distance(s)
    ensures Step(s, e).q.n <= s.q.n
  {
    StepKeepsInv(s, e);
    assert s.q.retries <= MAX_RETRIES && (s.held ==> s.attached && s.busy);
    if s.pc.Peeked? || s.pc.Resubmit? {
      NeverBusyAtSubmit(s);
    }
    hide Fifo, Tally, Bounded, FlightInv, Pending, Shown, Valid, Inv;
    match e
    case Work(ok) => WorkDescends(s, ok);
    case Complete(rc) =>
    case Abort =>
    case Detach =>
  }

  lemma {:induction false} WorkDescends(s: Sys, ok: bool)
    requires PcInv(s) && s.q.retries <= MAX_RETRIES && (s.held ==> s.attached && s.busy)
    requires s.pc.Peeked? || s.pc.Resubmit? ==> !s.busy && s.pc.len > 0
    requires StepWork(s, ok) != s && StepWork(s, ok).q.retries <= MAX_RETRIES
    ensures Distance(StepWork(s, ok)) < Distance(s) && StepWork(s, ok).q.n <= s.q.n
  {
    hide Pending, Shown, Valid;
  }

  /** While anything is queued some consumer step does something. */
  lemma {:induction false} ConsumerNotStuck(s: Sys)
    requires Inv(s) && s.q.n > 0
    ensures Moves(s, Work(true)) || Moves(s, Complete(0))
  {
    if s.pc.Peeked? || s.pc.Resubmit? {
      NeverBusyAtSubmit(s);
    }
  }

  ghost predicate AllMove(s: Sys, events: seq<Event>)
    decreases |events|
  {
    events == [] || (Moves(s, events[0]) && AllMove(Step(s, events[0]), events[1..]))
  }

  /** So from any reachable state the consumer alone can take only boundedly many steps. */
  lemma {:induction false} ConsumerRunsOut(s: Sys, events: seq<Event>)
    requires Inv(s) && AllMove(s, events)
    ensures Inv(Run(s, events)) && |events| + Distance(Run(s, events)) <= Distance(s)
    decreases |events|
  {
    if events != [] {
      ConsumerDescends(s, events[0]);
      ConsumerRunsOut(Step(s, events[0]), events[1..]);
    }
  }

  /**
   The ring empties: a consumer that keeps moving while producers are quiet reaches
   an empty queue within 8235 steps, and there is always a way to keep moving.
   */
  lemma {:induction false} RingEmpties(s: Sys, events: seq<Event>)
    requires Inv(s) && AllMove(s, events)
    ensures |events| <= 8235
    ensures var t := Run(s, events); t.q.n == 0 || Moves(t, Work(true)) || Moves(t, Complete(0))
  {
    ConsumerRunsOut(s, events);
    var t := Run(s, events);
    if t.q.n > 0 {
      ConsumerNotStuck(t);
    }
  }

  // ----------------------------------------------------------- end to end

  /** The frames that got through, in the order they were accepted. */
  function Through(sent: seq<Sent>, done: seq<Done>): seq<Sent>
    requires |done| <= |sent|
  {
    if done == [] then []
    else if done[0].ok then [sent[0]] + Through(sent[1..], done[1..])
    else Through(sent[1..], done[1..])
  }

  /** What the other end receives when it reads the delivered records back to back. */
  function Wire(done: seq<Done>): seq<byte> {
    if done == [] then [] else (if done[0].ok then done[0].record else []) + Wire(done[1..])
  }

  lemma {:induction false} WireIsWrapped(sent: seq<Sent>, done: seq<Done>)
    requires |done| <= |sent|
    requires forall k :: 0 <= k < |done| ==> done[k].record == Rndis.Wrap(sent[k].eth, sent[k].shift)
    ensures Wire(done) == WrapAll(Through(sent, done))
    ensures forall e :: e in Through(sent, done) ==> e in sent
  {
    if done != [] {
      hide Rndis.Wrap;
      WireIsWrapped(sent[1..], done[1..]);
      if done[0].ok {
        var t := Through(sent[1..], done[1..]);
        assert ([sent[0]] + t)[1..] == t;
      }
    }
  }

  /** What the ring takes is never empty and fits a slot. */
  lemma {:induction false} AcceptedFit(s: Sys, events: seq<Event>)
    requires forall e :: e in s.accepted ==> 1 <= |e.eth| <= 4052
    ensures forall e :: e in Run(s, events).accepted ==> 1 <= |e.eth| <= 4052
    decreases |events|
  {
    if events != [] {
      StepFits(s, events[0]);
      AcceptedFit(Step(s, events[0]), events[1..]);
    }
  }

  lemma {:induction false} StepFits(s: Sys, e: Event)
    requires forall x :: x in s.accepted ==> 1 <= |x.eth| <= 4052
    ensures forall x :: x in Step(s, e).accepted ==> 1 <= |x.eth| <= 4052
  {
    hide Push, Shown, Dropped, Completed;
    if e.Produce? && e.eth != [] {
      OnlyFullRejects(s.q, e.eth, e.shift);
    }
  }

  /**
   From the producers to the receiving end: whatever the interleaving and the failures,
   unwrapping the delivered records yields exactly the frames cut from the padded payloads
   that got through, in the order in which the ring accepted them; for frames of at most
   1518 bytes those are the padded frames themselves.
   */
  lemma {:induction false} EndToEnd(flat: seq<byte>, lens: seq<nat>, attached: bool, events: seq<Event>)
    requires |flat| == CAP * SLOT && |lens| == CAP
    ensures var s := Run(Init(flat, lens, attached), events);
            && |s.done| <= |s.accepted|
            && Rndis.Unwrap(Wire(s.done)) == CutFrames(Through(s.accepted, s.done))
            && ((forall e :: e in s.accepted ==> |e.eth| <= Rndis.ETH_MAX) ==>
                  Rndis.Unwrap(Wire(s.done)) == PaddedFrames(Through(s.accepted, s.done)))
  {
    var s := Run(Init(flat, lens, attached), events);
    LeavesInOrder(flat, lens, attached, events);
    AcceptedFit(Init(flat, lens, attached), events);
    hide Run, Valid, Rndis.Wrap, Rndis.Unwrap, PaddedFrames, CutFrames;
    forall k | 0 <= k < |s.done|
      ensures s.done[k].record == Rndis.Wrap(s.accepted[k].eth, s.accepted[k].shift)
    {
      assert (Records(s.done) + Pending(s.q))[k] == Wrapped(s.accepted)[k];
    }
    var sent := Through(s.accepted, s.done);
    WireIsWrapped(s.accepted, s.done);
    UnwrapAll(sent);
    if forall e :: e in s.accepted ==> |e.eth| <= Rndis.ETH_MAX {
      RoundTrip(sent);
    }
  }
}
