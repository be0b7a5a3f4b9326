/**
 The data path and the lease. One thread receives frames and closes the path when a lease is refused;
 the maintenance thread polls the client, then opens or closes the path. Their steps interleave freely.
 */
module DhcpPath {
  import opened Bytes
  import opened DhcpOptions
  import opened DhcpFrame
  import opened DhcpClient
  import DhcpRuns

  /**
   The maintenance thread between two ticks, after reading the path flag, and after the locked region that
   polls the client and copies its lease.
   */
  datatype Maint =
    | Resting
    | Sampled(leased: bool)
    | Looked(leased: bool, bound: bool, apply: bool, addr: Addr)

  /**
   The client, the path flag and the address last applied; whether the receiving thread has a refusal
   for which it has not closed the path yet; the maintenance thread. `stale` is history: the path was last
   opened without a lease, and neither a lease nor a closing has come since.
   */
  datatype Sys = Sys(c: Client, applied: bool, ip: Addr, pausing: bool, maint: Maint, stale: bool)

  function Start(c: Client, ip: Addr): Sys {
    Sys(c, false, ip, false, Resting, false)
  }

  /** Of the receiving thread: a frame handled under the lock, the path closed. Then the three parts of a tick. */
  datatype Event =
    | Handle(eth: seq<byte>, nowMs: nat)
    | Pause
    | Sample
    | Look(nowUs: nat, sentUs: nat, cap: nat)
    | Settle(ok: bool)

  function Step(s: Sys, e: Event): Sys {
    match e
    case Handle(eth, nowMs) =>
      if s.pausing then s
      else
        var (d, rc) := OnFrame(s.c, eth, nowMs);
        s.(c := d, pausing := rc < 0, stale := s.stale && !Active(d))
    case Pause => if s.pausing then s.(applied := false, pausing := false, stale := false) else s
    case Sample => if s.maint.Resting? then s.(maint := Sampled(s.applied)) else s
    case Look(nowUs, sentUs, cap) =>
      if s.maint.Sampled? then
        var d := WantTx(s.c, nowUs, sentUs, cap).0;
        s.(c := d, maint := Seen(d, s.maint.leased, s.ip))
      else s
    case Settle(ok) => if s.maint.Looked? then Settled(s, ok) else s
  }

  /** What the locked region finds: whether there is a lease, and whether it is to be applied. */
  function Seen(d: Client, leased: bool, ip: Addr): Maint {
    Looked(leased, Active(d), Active(d) && (!leased || ip != d.yiaddr), d.yiaddr)
  }

  /** The rest of the tick: the lease is applied, or the path is closed because there was none. */
  function Settled(s: Sys, ok: bool): Sys
    requires s.maint.Looked?
  {
    var m := s.maint;
    if m.apply && ok then s.(applied := true, ip := m.addr, maint := Resting, stale := !Active(s.c))
    else if m.leased && !m.bound then s.(applied := false, maint := Resting, stale := false)
    else s.(maint := Resting)
  }

  function Run(s: Sys, es: seq<Event>): Sys
    decreases |es|
  {
    if es == [] then s else Run(Step(s, es[0]), es[1..])
  }

  // ------------------------------------------------------- over any run

  predicate Inv(s: Sys) {
    && DhcpRuns.Inv(s.c)
    && (s.pausing ==> !Active(s.c))
    && (s.stale ==> s.applied && !Active(s.c))
    && (s.applied && !Active(s.c) ==>
          s.stale || s.pausing || (s.maint.Looked? && s.maint.leased && !s.maint.bound))
    && (s.applied && !s.maint.Resting? ==> s.maint.leased)
    && (s.maint.Looked? ==> (s.maint.apply ==> s.maint.bound) && (s.maint.bound ==> s.maint.leased || s.maint.apply))
  }

  lemma {:induction false} StepKeepsInv(s: Sys, e: Event)
    requires Inv(s)
    ensures Inv(Step(s, e))
  {
    hide OnFrame, WantTx, DhcpRuns.Inv, DhcpRuns.Step;
    match e
    case Handle(eth, nowMs) => HandleExact(s, eth, nowMs);
    case Look(nowUs, sentUs, cap) => LookExact(s, nowUs, sentUs, cap);
    case _ =>
  }

  lemma {:induction false} HandleExact(s: Sys, eth: seq<byte>, nowMs: nat)
    requires Inv(s)
    ensures var (d, rc) := OnFrame(s.c, eth, nowMs);
            && DhcpRuns.Inv(d)
            && (rc == 1 ==> Active(d)) && (rc == -1 ==> !Active(d)) && -1 <= rc <= 1
            && (rc == 0 ==> (Active(d) <==> Active(s.c)) && (Active(d) ==> d.yiaddr == s.c.yiaddr))
  {
    DhcpRuns.FrameKeepsInv(s.c, eth, nowMs);
    DhcpRuns.EventCodeExact(s.c, eth, nowMs);
    hide OnFrame;
  }

  lemma {:induction false} LookExact(s: Sys, nowUs: nat, sentUs: nat, cap: nat)
    requires Inv(s)
    ensures var d := WantTx(s.c, nowUs, sentUs, cap).0;
            DhcpRuns.Inv(d) && (Active(d) ==> Active(s.c) && d.yiaddr == s.c.yiaddr)
  {
    var e := DhcpRuns.Poll(nowUs, sentUs, cap);
    assert DhcpRuns.Step(s.c, e) == WantTx(s.c, nowUs, sentUs, cap).0;
    hide WantTx, DhcpRuns.Step, DhcpRuns.Inv;
    DhcpRuns.StepKeepsInv(s.c, e);
    DhcpRuns.PollKeepsAddress(s.c, nowUs, sentUs, cap);
  }

  lemma {:induction false} RunKeepsInv(s: Sys, es: seq<Event>)
    requires Inv(s)
    ensures Inv(Run(s, es))
    decreases |es|
  {
    if es != [] {
      hide Inv, Step;
      StepKeepsInv(s, es[0]);
      RunKeepsInv(Step(s, es[0]), es[1..]);
    }
  }

  /**
   Over any interleaving, once a refusal has closed the path and outside the second half of a tick, the path is
   open without a lease exactly if it was last opened that way.
   */
  lemma {:induction false} OpenWithoutLease(c: Client, ip: Addr, es: seq<Event>)
    requires DhcpRuns.Inv(c)
    ensures var s := Run(Start(c, ip), es);
            !s.pausing && !s.maint.Looked? ==> (s.applied && !Active(s.c) <==> s.stale)
  {
    hide DhcpRuns.Inv;
    RunKeepsInv(Start(c, ip), es);
  }

  // ------------------------------------------- what one tick leaves behind

  predicate Receiving(us: seq<Event>) {
    forall k :: 0 <= k < |us| ==> us[k].Handle? || us[k].Pause?
  }

  function Code(s: Sys, e: Event): int {
    if e.Handle? && !s.pausing then OnFrame(s.c, e.eth, e.nowMs).1 else 0
  }

  /** The last event code that reported something: 1 a lease, -1 a refusal, 0 if there was none. */
  function LastCode(s: Sys, us: seq<Event>): int
    decreases |us|
  {
    if us == [] then 0
    else
      var later := LastCode(Step(s, us[0]), us[1..]);
      if later != 0 then later else Code(s, us[0])
  }

  /** The receiving thread closed the path at some point. */
  predicate Closed(s: Sys, us: seq<Event>)
    decreases |us|
  {
    us != [] && ((us[0].Pause? && s.pausing) || Closed(Step(s, us[0]), us[1..]))
  }

  /** The receiving thread alone, for any number of steps. */
  lemma {:induction false} ReceivingExact(s: Sys, us: seq<Event>)
    requires Inv(s) && Receiving(us)
    ensures var t, code := Run(s, us), LastCode(s, us);
            && Inv(t) && t.maint == s.maint && t.ip == s.ip && -1 <= code <= 1
            && (t.applied <==> s.applied && !Closed(s, us))
            && (t.stale ==> s.stale)
            && (Active(t.c) <==> code == 1 || (code == 0 && Active(s.c)))
            && (code == 0 && Active(s.c) ==> t.c.yiaddr == s.c.yiaddr)
            && (!Closed(s, us) && (s.pausing || code == -1) ==> t.pausing)
    decreases |us|
  {
    if us != [] {
      var e, r := us[0], Step(s, us[0]);
      StepKeepsInv(s, e);
      ReceivingExact(r, us[1..]);
      ReceivingStep(s, e);
      hide Inv, Step, Code, Active;
    }
  }

  lemma {:induction false} ReceivingStep(s: Sys, e: Event)
    requires Inv(s) && (e.Handle? || e.Pause?)
    ensures var r, code := Step(s, e), Code(s, e);
            && r.maint == s.maint && r.ip == s.ip && -1 <= code <= 1
            && (r.applied <==> s.applied && !(e.Pause? && s.pausing))
            && (r.stale ==> s.stale)
            && (Active(r.c) <==> code == 1 || (code == 0 && Active(s.c)))
            && (code == 0 && Active(s.c) ==> r.c.yiaddr == s.c.yiaddr)
            && (r.pausing <==> code == -1 || (code == 0 && s.pausing && !e.Pause?))
  {
    if e.Handle? {
      HandleExact(s, e.eth, e.nowMs);
    }
    hide OnFrame, DhcpRuns.Inv;
  }

  /**
   The rest of a tick, whatever is received between its lock and its end: when the path is open, with which
   address, whether there is a lease, and whether the path has been opened without one.
   */
  lemma {:induction false} TickExact(s: Sys, nowUs: nat, sentUs: nat, cap: nat, us: seq<Event>)
    requires Inv(s) && s.maint.Sampled? && Receiving(us)
    ensures var k := Step(s, Look(nowUs, sentUs, cap));
            var u, code := Step(Run(k, us), Settle(true)), LastCode(k, us);
            && (u.applied <==> k.maint.apply || (k.maint.bound && s.applied && !Closed(k, us)))
            && u.ip == (if k.maint.apply then k.maint.addr else s.ip)
            && (Active(u.c) <==> code == 1 || (code == 0 && k.maint.bound))
            && (code == 0 && Active(u.c) ==> u.c.yiaddr == k.maint.addr)
            && (u.stale <==> k.maint.apply && code == -1)
  {
    var k := Step(s, Look(nowUs, sentUs, cap));
    StepKeepsInv(s, Look(nowUs, sentUs, cap));
    LookExact(s, nowUs, sentUs, cap);
    ReceivingExact(k, us);
    hide WantTx, DhcpRuns.Inv, Closed, LastCode, Run, Receiving;
  }

  /**
   After a tick, with no closing to come, the path is open without a lease exactly if the tick had a lease to
   apply and a refusal, with no lease after it, was received while it was being applied.
   */
  lemma {:induction false} RefusalReopens(s: Sys, nowUs: nat, sentUs: nat, cap: nat, us: seq<Event>)
    requires Inv(s) && s.maint.Sampled? && Receiving(us)
    ensures var k := Step(s, Look(nowUs, sentUs, cap));
            var u := Step(Run(k, us), Settle(true));
            !u.pausing ==> (u.applied && !Active(u.c) <==> k.maint.apply && LastCode(k, us) == -1)
  {
    var k := Step(s, Look(nowUs, sentUs, cap));
    TickExact(s, nowUs, sentUs, cap, us);
    StepKeepsInv(s, Look(nowUs, sentUs, cap));
    ReceivingExact(k, us);
    hide WantTx, Inv, Closed, LastCode, Run, Receiving, Active;
  }

  predicate Follows(s: Sys) {
    && (s.applied <==> Active(s.c))
    && (s.applied ==> s.ip == s.c.yiaddr)
  }

  /**
   A tick during which nothing is reported leaves the path open exactly if there is a lease, and with its
   address, whatever the path was before. The one exception: the path was closed between the reading
   of the flag and the lock, and the address last applied leased again.
   */
  lemma {:induction false} QuietTickFollows(s: Sys, nowUs: nat, sentUs: nat, cap: nat, us: seq<Event>)
    requires Inv(s) && s.maint.Sampled? && Receiving(us)
    requires LastCode(Step(s, Look(nowUs, sentUs, cap)), us) == 0
    ensures var k := Step(s, Look(nowUs, sentUs, cap));
            Follows(Step(Run(k, us), Settle(true))) <==> s.applied || !k.maint.bound || k.maint.apply
  {
    var k := Step(s, Look(nowUs, sentUs, cap));
    TickExact(s, nowUs, sentUs, cap, us);
    StepKeepsInv(s, Look(nowUs, sentUs, cap));
    if k.maint.bound {
      QuietNeverCloses(k, us);
    }
    hide WantTx, DhcpRuns.Inv, Closed, LastCode, Run, Receiving;
  }

  /** The receiving thread closes the path only for a refusal. */
  lemma {:induction false} QuietNeverCloses(s: Sys, us: seq<Event>)
    requires LastCode(s, us) == 0 && !s.pausing
    ensures !Closed(s, us)
    decreases |us|
  {
    if us != [] {
      hide OnFrame, WantTx;
      QuietNeverCloses(Step(s, us[0]), us[1..]);
    }
  }

  // ------------------------------------------------- the race is possible

  /** A refusal as a server sends it: the shortest frame with option 53 set to NAK. */
  function NakFrame(xid: Addr): (eth: seq<byte>)
    ensures |eth| == 286
  {
    var ip := Patch(Patch(Zeros(286), 12, [0x08, 0x00, 0x45]), 23, [17]);
    var bootp := Patch(Patch(Patch(ip, 37, [68]), 42, [2]), 46, xid);
    Patch(Patch(bootp, 278, COOKIE), 282, [MSG_TYPE, 1, NAK, END])
  }

  lemma {:induction false} NakRefuses(c: Client, nowMs: nat)
    requires Active(c)
    ensures OnFrame(c, NakFrame(c.xid), nowMs) == (Reset(c), -1)
  {
    var eth := NakFrame(c.xid);
    assert ReplyAt(c, eth) == Some(42);
    assert Tlvs(eth, 282) == [Tlv(MSG_TYPE, [NAK])] by {
      assert Tlvs(eth, 285) == [];
      assert Sub(eth, 284, 1) == [NAK];
    }
    hide NakFrame, ReplyAt, Tlvs;
    assert TakeOptions(c, 0, [Tlv(MSG_TYPE, [NAK])]) == (c, NAK);
  }

  lemma {:induction false} PollKeepsXid(c: Client, nowUs: nat, sentUs: nat, cap: nat)
    ensures WantTx(c, nowUs, sentUs, cap).0.xid == c.xid
  {
    hide Outgoing, NextBackoff;
  }

  lemma {:induction false} RunTwo(s: Sys, a: Event, b: Event)
    ensures Run(s, [a, b]) == Step(Step(s, a), b)
  {
    hide Step;
    assert [a, b][1..] == [b] && [b][1..] == [];
    assert Run(Step(Step(s, a), b), []) == Step(Step(s, a), b);
    assert Run(Step(s, a), [b]) == Step(Step(s, a), b);
  }

  lemma {:induction false} NakCloses(k: Sys, nowMs: nat)
    requires Active(k.c) && !k.pausing
    ensures Run(k, [Handle(NakFrame(k.c.xid), nowMs), Pause]) == k.(c := Reset(k.c), applied := false, stale := false)
  {
    NakRefuses(k.c, nowMs);
    hide OnFrame, NakFrame, Run, Reset, Active;
    RunTwo(k, Handle(NakFrame(k.c.xid), nowMs), Pause);
    ResetInactive(k.c);
  }

  lemma {:induction false} ResetInactive(c: Client)
    ensures !Active(Reset(c))
  {
  }

  lemma {:induction false} LookApplies(s: Sys, nowUs: nat, sentUs: nat, cap: nat)
    requires Inv(s) && s.maint.Sampled? && Step(s, Look(nowUs, sentUs, cap)).maint.apply
    ensures var k := Step(s, Look(nowUs, sentUs, cap));
            k.maint.Looked? && Active(k.c) && !k.pausing && k.c.xid == s.c.xid
  {
    LookExact(s, nowUs, sentUs, cap);
    PollKeepsXid(s.c, nowUs, sentUs, cap);
    hide WantTx, DhcpRuns.Inv;
  }

  /** Any lease about to be applied: one NAK in the gap, and the path is open without a lease. */
  lemma {:induction false} NakInTheGap(s: Sys, nowUs: nat, sentUs: nat, cap: nat, nowMs: nat)
    requires Inv(s) && s.maint.Sampled? && Step(s, Look(nowUs, sentUs, cap)).maint.apply
    ensures var us := [Handle(NakFrame(s.c.xid), nowMs), Pause];
            var u := Step(Run(Step(s, Look(nowUs, sentUs, cap)), us), Settle(true));
            u.applied && !Active(u.c) && !u.pausing && u.stale
  {
    var k := Step(s, Look(nowUs, sentUs, cap));
    LookApplies(s, nowUs, sentUs, cap);
    NakCloses(k, nowMs);
    ResetInactive(k.c);
    SettleApplies(Run(k, [Handle(NakFrame(s.c.xid), nowMs), Pause]));
    hide WantTx, OnFrame, NakFrame, Run, Inv, Reset, Active, Step;
  }

  lemma {:induction false} SettleApplies(t: Sys)
    requires t.maint.Looked? && t.maint.apply
    ensures Step(t, Settle(true)) ==
            t.(applied := true, ip := t.maint.addr, maint := Resting, stale := !Active(t.c))
  {
  }
}
