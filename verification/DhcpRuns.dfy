/** What every run of the client keeps, over any frames and any polling schedule. */
module DhcpRuns {
  import opened Bytes
  import opened DhcpOptions
  import opened DhcpFrame
  import opened DhcpClient

  // --------------------------------------------------------- lease timers

  /**
   Whatever the lease, T1 and T2 were, a finite lease ends up with 1 <= T1 < T2, the 32-bit
   increment never wraps, and T2 is within the lease exactly when the lease is 2 s or more.
   */
  lemma {:induction false} TimersOrdered(l: Lease)
    ensures var t := Timers(l);
            && t.secs == (if l.secs == 0 then 3600 else l.secs)
            && (t.secs == INFINITE ==> t.t1 == t.t2 == 0)
            && (t.secs != INFINITE ==> 1 <= t.t1 < t.t2 && (t.t2 <= t.secs <==> t.secs >= 2))
  {
  }

  /** Usable server values are kept; cleared ones become one half and seven eighths of the lease. */
  lemma {:induction false} TimersChosen(l: Lease)
    requires l.secs != 0 && l.secs != INFINITE
    ensures 0 < l.t1 < l.t2 < l.secs ==> Timers(l) == l
    ensures l.t1 == l.t2 == 0 && l.secs >= 8 ==>
              Timers(l) == Lease(l.secs, l.secs / 2, l.secs - l.secs / 8) && l.secs - l.secs / 8 < l.secs
  {
  }

  /**
   What an ACK fills in: a missing DNS server becomes the router the server named, never the
   DHCP server standing in for a router; everything the options gave is kept.
   */
  lemma {:induction false} AckFallbacks(c: Client, yi: Addr, nowMs: nat)
    ensures var n, m := c.net, Acknowledged(c, yi, nowMs).net;
            && (m.server, m.netmask, m.dns1) == (n.server, n.netmask, n.dns1)
            && (m.dnsN == 0 <==> n.dnsN == 0 && n.router == UNSET)
            && (n.dnsN != 0 ==> (m.dns0, m.dnsN) == (n.dns0, n.dnsN))
            && (n.dnsN == 0 && n.router != UNSET ==> (m.dns0, m.dnsN) == (n.router, 1))
            && m.router == (if n.router != UNSET then n.router else n.server)
  {
  }

  // ------------------------------------------------------------ invariant

  datatype Event = Received(eth: seq<byte>, nowMs: nat) | Poll(nowUs: nat, sentUs: nat, cap: nat)

  function Step(c: Client, e: Event): Client {
    match e
    case Received(eth, nowMs) => OnFrame(c, eth, nowMs).0
    case Poll(nowUs, sentUs, cap) => WantTx(c, nowUs, sentUs, cap).0
  }

  function Run(c: Client, es: seq<Event>): Client
    decreases |es|
  {
    if es == [] then c else Run(Step(c, es[0]), es[1..])
  }

  predicate Inv(c: Client) {
    && (c.state.Init? || c.state.Selecting? <==> c.yiaddr == UNSET)
    && 0 <= c.net.dnsN <= 2
    && 200 <= c.backoff <= 8000
  }

  /** Options change what is known of the network and the lease, never the state or the address. */
  lemma {:induction false} OptionsKeep(c: Client, ts: seq<Tlv>)
    requires 0 <= c.net.dnsN <= 2
    ensures var d := TakeOptions(c, 0, ts).0;
            && d == c.(net := d.net, lease := d.lease) && 0 <= d.net.dnsN <= 2
  {
    hide TakeOptions;
    LastOptionWins(c, 0, ts);
  }

  lemma {:induction false} StepKeepsInv(c: Client, e: Event)
    requires Inv(c)
    ensures Inv(Step(c, e))
  {
    hide OnFrame, Inv, Advance, Outgoing;
    match e
    case Received(eth, nowMs) => FrameKeepsInv(c, eth, nowMs);
    case Poll(nowUs, sentUs, cap) =>
      AdvanceKeepsInv(c, nowUs / 1000);
      SentKeepsInv(Advance(c, nowUs / 1000), sentUs);
  }

  lemma {:induction false} AdvanceKeepsInv(c: Client, nowMs: nat)
    requires Inv(c)
    ensures Inv(Advance(c, nowMs))
  {
    hide Age;
  }

  lemma {:induction false} SentKeepsInv(c: Client, sentUs: nat)
    requires Inv(c)
    ensures Inv(Sent(c, sentUs))
  {
  }

  lemma {:induction false} FrameKeepsInv(c: Client, eth: seq<byte>, nowMs: nat)
    requires Inv(c)
    ensures Inv(OnFrame(c, eth, nowMs).0)
  {
    hide TakeOptions, Timers, Tlvs;
    var at := ReplyAt(c, eth);
    hide ReplyAt;
    if at.Some? {
      OptionsKeep(c, Tlvs(eth, at.value + FIXED));
    }
  }

  /** State and address, the DNS count and the backoff, in every reachable client. */
  lemma {:induction false} Reachable(mac: Mac, xid: Addr, es: seq<Event>)
    ensures Inv(Run(Created(mac, xid), es))
  {
    RunKeepsInv(Created(mac, xid), es);
  }

  lemma {:induction false} RunKeepsInv(c: Client, es: seq<Event>)
    requires Inv(c)
    ensures Inv(Run(c, es))
    decreases |es|
  {
    if es != [] {
      hide Inv, Step;
      StepKeepsInv(c, es[0]);
      RunKeepsInv(Step(c, es[0]), es[1..]);
    }
  }

  // ----------------------------------------------------------- event codes

  /** The event code says exactly what changed. */
  lemma {:induction false} EventCodeExact(c: Client, eth: seq<byte>, nowMs: nat)
    requires 0 <= c.net.dnsN <= 2
    ensures var (d, rc) := OnFrame(c, eth, nowMs);
            && (rc == 1 <==> Active(d) && (!Active(c) || d.yiaddr != c.yiaddr))
            && (rc == -1 <==> d.state.Init? && (Active(c) || c.state.Requesting?))
            && (rc == 0 ==> (Active(d) <==> Active(c)) && (Active(c) ==> d.yiaddr == c.yiaddr))
            && -1 <= rc <= 1
  {
    hide TakeOptions, Timers, Tlvs;
    var at := ReplyAt(c, eth);
    hide ReplyAt;
    if at.Some? {
      OptionsKeep(c, Tlvs(eth, at.value + FIXED));
    }
  }

  function Address(c: Client): Option<Addr> {
    if Active(c) then Some(c.yiaddr) else None
  }

  /** The address as event codes alone tell it, a poll telling only whether the lease is still alive. */
  function Followed(c: Client, known: Option<Addr>, es: seq<Event>): Option<Addr>
    decreases |es|
  {
    if es == [] then known
    else
      var d := Step(c, es[0]);
      var next := match es[0]
                  case Received(eth, nowMs) =>
                    var rc := OnFrame(c, eth, nowMs).1;
                    if rc == 1 then Some(d.yiaddr) else if rc == -1 then None else known
                  case Poll(_, _, _) => if Active(d) then known else None;
      Followed(d, next, es[1..])
  }

  lemma {:induction false} PollKeepsAddress(c: Client, nowUs: nat, sentUs: nat, cap: nat)
    ensures var d := WantTx(c, nowUs, sentUs, cap).0;
            Active(d) ==> Active(c) && d.yiaddr == c.yiaddr
  {
  }

  /** Over any run, following the event codes yields the client's own address. */
  lemma {:induction false} EventsSuffice(c: Client, es: seq<Event>)
    requires Inv(c)
    ensures Followed(c, Address(c), es) == Address(Run(c, es))
    decreases |es|
  {
    if es != [] {
      hide OnFrame, WantTx;
      StepKeepsInv(c, es[0]);
      match es[0] {
        case Received(eth, nowMs) => EventCodeExact(c, eth, nowMs);
        case Poll(nowUs, sentUs, cap) => PollKeepsAddress(c, nowUs, sentUs, cap);
      }
      EventsSuffice(Step(c, es[0]), es[1..]);
    }
  }

  // --------------------------------------------------- the renewal ladder

  /** Poll times from `since` on, never going back. */
  predicate Schedule(es: seq<Event>, sinceUs: nat)
    decreases |es|
  {
    es != [] ==> es[0].Poll? && sinceUs <= es[0].nowUs && Schedule(es[1..], es[0].nowUs)
  }

  function LastTick(es: seq<Event>, sinceUs: nat): nat
    requires Schedule(es, sinceUs)
    decreases |es|
  {
    if es == [] then sinceUs else LastTick(es[1..], es[0].nowUs)
  }

  /** A client that has just been given a finite lease. */
  predicate Leased(c: Client) {
    c.state.Bound? && 1 <= c.lease.t1 < c.lease.t2 && 0 < c.lease.secs < INFINITE
  }

  /** An accepted ACK with a lease that is not infinite leaves such a client, whatever went before. */
  lemma {:induction false} AckLeases(c: Client, yi: Addr, nowMs: nat)
    ensures Leased(Acknowledged(c, yi, nowMs)) <==> c.lease.secs != INFINITE
  {
    TimersOrdered(c.lease);
  }

  /** The client of age `age` ms, from the lease alone. */
  predicate Rung(c: Client, d: Client, age: nat) {
    if age >= c.lease.secs * 1000 then !Active(d) && d.yiaddr == UNSET && !d.state.Requesting?
    else
      && (d.yiaddr, d.net, d.lease, d.boundMs) == (c.yiaddr, c.net, c.lease, c.boundMs)
      && d.state == if age >= c.lease.t2 * 1000 then Rebinding
                    else if age >= c.lease.t1 * 1000 then Renewing
                    else Bound
  }

  lemma {:induction false} PollClimbs(c: Client, d: Client, before: nat, nowUs: nat, sentUs: nat, cap: nat)
    requires Leased(c) && before <= Age(c, nowUs / 1000)
    requires Rung(c, d, before)
    ensures Rung(c, WantTx(d, nowUs, sentUs, cap).0, Age(c, nowUs / 1000))
  {
    hide NextBackoff;
  }

  /**
   The ladder does not depend on the polling schedule: after any polls, the state is the
   one its age at the last poll calls for, and the lease is held exactly while it is younger
   than its length.
   */
  lemma {:induction false} LadderFollowsAge(c: Client, d: Client, sinceUs: nat, es: seq<Event>)
    requires Leased(c) && Schedule(es, sinceUs)
    requires Rung(c, d, Age(c, sinceUs / 1000))
    ensures var age := Age(c, LastTick(es, sinceUs) / 1000);
            Rung(c, Run(d, es), age) && (Active(Run(d, es)) <==> age < c.lease.secs * 1000)
    decreases |es|
  {
    if es != [] {
      var t := es[0];
      hide Rung, WantTx;
      PollClimbs(c, d, Age(c, sinceUs / 1000), t.nowUs, t.sentUs, t.cap);
      LadderFollowsAge(c, WantTx(d, t.nowUs, t.sentUs, t.cap).0, t.nowUs, es[1..]);
    }
  }

  /** From the moment of the ACK. */
  lemma {:induction false} LadderFromAck(c: Client, es: seq<Event>)
    requires Leased(c) && Schedule(es, c.boundMs * 1000)
    ensures Rung(c, Run(c, es), Age(c, LastTick(es, c.boundMs * 1000) / 1000))
  {
    LadderFollowsAge(c, c, c.boundMs * 1000, es);
  }

  /** Every step up the ladder, and the fall at expiry, transmits at the same poll. */
  lemma {:induction false} ClimbingTransmits(c: Client, nowUs: nat, sentUs: nat, cap: nat)
    requires Active(c) && Advance(c, nowUs / 1000) != c && cap >= 342
    ensures WantTx(c, nowUs, sentUs, cap).1 == Outgoing(Advance(c, nowUs / 1000))
  {
  }

  /** A client with an infinite lease never transmits and never changes. */
  lemma {:induction false} InfiniteSilent(c: Client, es: seq<Event>, sinceUs: nat)
    requires Active(c) && c.lease.secs == INFINITE && Schedule(es, sinceUs)
    ensures Run(c, es) == c && Transmissions(c, es) == []
    decreases |es|
  {
    if es != [] {
      InfiniteSilent(c, es[1..], es[0].nowUs);
    }
  }

  // -------------------------------------------------------- retransmission

  /** The send times of a run, in order. */
  function Transmissions(c: Client, es: seq<Event>): seq<nat>
    decreases |es|
  {
    if es == [] then []
    else
      var e := es[0];
      (if e.Poll? && WantTx(c, e.nowUs, e.sentUs, e.cap).1 != [] then [e.sentUs] else [])
        + Transmissions(Step(c, e), es[1..])
  }

  /** Polls during which the ladder does not move, with a clock that is running and set. */
  predicate Quiet(c: Client, es: seq<Event>)
    decreases |es|
  {
    es != [] ==>
      && es[0].Poll? && Advance(c, es[0].nowUs / 1000) == c
      && 0 < es[0].sentUs && es[0].nowUs <= es[0].sentUs
      && Quiet(Step(c, es[0]), es[1..])
  }

  function Pow2(k: nat): nat {
    if k == 0 then 1 else 2 * Pow2(k - 1)
  }

  /** The backoff after k more transmissions. */
  function Backoff(b: int, k: nat): int
    decreases k
  {
    if k == 0 then b else Backoff(NextBackoff(b), k - 1)
  }

  /** Closed form: doubling, capped at 8 s. */
  lemma {:induction false} BackoffClosedForm(b: int, k: nat)
    requires 0 <= b <= 8000
    ensures Backoff(b, k) == if b * Pow2(k) < 8000 then b * Pow2(k) else 8000
    decreases k
  {
    if k == 0 {
      assert b * Pow2(0) == b;
    } else {
      var p := Pow2(k - 1);
      BackoffClosedForm(NextBackoff(b), k - 1);
      PowPositive(k - 1);
      DoubleFirst(b, p);
    }
  }

  lemma {:induction false} DoubleFirst(b: nat, p: nat)
    requires p >= 1
    ensures b * (2 * p) == (2 * b) * p
    ensures b >= 4000 ==> b * (2 * p) >= 8000 && 8000 * p >= 8000
  {
    if b >= 4000 {
      assert b * (2 * p) >= 4000 * (2 * p);
    }
  }

  lemma {:induction false} PowPositive(k: nat)
    ensures Pow2(k) >= 1
    decreases k
  {
    if k > 0 {
      PowPositive(k - 1);
    }
  }

  /** After a quiet run the backoff is given by the number of transmissions alone. */
  lemma {:induction false} QuietBackoff(c: Client, es: seq<Event>)
    requires Quiet(c, es)
    ensures Run(c, es).backoff == Backoff(c.backoff, |Transmissions(c, es)|)
    decreases |es|
  {
    if es != [] {
      QuietBackoff(Step(c, es[0]), es[1..]);
    }
  }

  /** Times ts, in microseconds, are at least the successive backoffs apart, starting with b after the first. */
  predicate Spaced(ts: seq<nat>, b: int)
    decreases |ts|
  {
    |ts| >= 2 ==> ts[1] / 1000 >= ts[0] / 1000 + b && Spaced(ts[1..], NextBackoff(b))
  }

  /** Consecutive transmissions of a quiet run are at least the then-current backoff apart. */
  lemma {:induction false} QuietSpacing(c: Client, es: seq<Event>)
    requires Quiet(c, es)
    ensures var ts := Transmissions(c, es);
            && Spaced(ts, NextBackoff(c.backoff))
            && (c.lastTx != 0 && ts != [] ==> ts[0] / 1000 >= c.lastTx / 1000 + c.backoff)
    decreases |es|
  {
    if es != [] {
      var e, d := es[0], Step(c, es[0]);
      QuietSpacing(d, es[1..]);
      var rest := Transmissions(d, es[1..]);
      if WantTx(c, e.nowUs, e.sentUs, e.cap).1 != [] {
        assert Transmissions(c, es) == [e.sentUs] + rest;
        assert ([e.sentUs] + rest)[1..] == rest;
      } else {
        assert Transmissions(c, es) == [] + rest == rest;
      }
    }
  }

  /** What the growing backoffs from b on save against a steady 8 s. */
  function Deficit(b: int): (d: int)
    requires 400 <= b <= 8000
    ensures 0 <= d <= 27600
    ensures b >= 800 ==> d <= 20000
    ensures b >= 1600 ==> d <= 12800
    ensures b >= 3200 ==> d <= 6400
    ensures b >= 6400 ==> d <= 1600
    decreases 8000 - b
  {
    if b == 8000 then 0 else 8000 - b + Deficit(NextBackoff(b))
  }

  lemma {:induction false} SpacedSpan(ts: seq<nat>, b: int)
    requires Spaced(ts, b) && ts != [] && 400 <= b <= 8000
    ensures 8000 * (|ts| - 1) <= ts[|ts| - 1] / 1000 - ts[0] / 1000 + Deficit(b)
    decreases |ts|
  {
    if |ts| >= 2 {
      SpacedSpan(ts[1..], NextBackoff(b));
    }
  }

  /** So a window of w ms in which the ladder does not move holds at most 1 + (w + 27600) / 8000 transmissions. */
  lemma {:induction false} TransmissionsInWindow(c: Client, es: seq<Event>, w: nat)
    requires Inv(c) && Quiet(c, es) && Transmissions(c, es) != []
    requires var ts := Transmissions(c, es); ts[|ts| - 1] / 1000 <= ts[0] / 1000 + w
    ensures |Transmissions(c, es)| <= 1 + (w + 27600) / 8000
  {
    hide Transmissions, Quiet, Spaced, Deficit;
    QuietSpacing(c, es);
    SpacedSpan(Transmissions(c, es), NextBackoff(c.backoff));
  }
}
