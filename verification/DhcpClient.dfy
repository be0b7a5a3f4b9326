/**
 The DHCPv4 client (RFC 2131): a six-state machine driven by received frames and
 by polls that may send one message. Clock readings are parameters, in microseconds
 since the epoch; addresses are kept as their four bytes, never as numbers.
 */
module DhcpClient {
  import opened Bytes
  import opened DhcpOptions
  import opened DhcpFrame

  datatype State = Init | Selecting | Requesting | Bound | Renewing | Rebinding

  const DISCOVER: byte := 1
  const OFFER: byte := 2
  const REQUEST: byte := 3
  const ACK: byte := 5
  const NAK: byte := 6
  const INFINITE: u32 := 0xFFFF_FFFF
  const DEFAULT_LEASE: u32 := 3600
  const COOKIE: seq<byte> := [0x63, 0x82, 0x53, 0x63]
  const FIXED: nat := 240

  /** What the options of a reply say about the network, as last seen. */
  datatype Net = Net(server: Addr, netmask: Addr, router: Addr, dns0: Addr, dns1: Addr, dnsN: int)

  /** Lease, T1 and T2 in seconds. */
  datatype Lease = Lease(secs: u32, t1: u32, t2: u32)

  datatype Client = Client(
    mac: Mac,
    xid: Addr,
    state: State,
    yiaddr: Addr,
    net: Net,
    lease: Lease,
    boundMs: nat,
    lastTx: nat,
    backoff: int)

  function Created(mac: Mac, xid: Addr): Client {
    Client(mac, xid, Init, UNSET, Net(UNSET, [255, 255, 255, 0], UNSET, UNSET, UNSET, 0), Lease(0, 0, 0), 0, 0, 500)
  }

  predicate Active(c: Client) {
    c.state.Bound? || c.state.Renewing? || c.state.Rebinding?
  }

  function Reset(c: Client): Client {
    c.(state := Init, yiaddr := UNSET, net := c.net.(server := UNSET), lease := Lease(0, 0, 0),
       boundMs := 0, lastTx := 0, backoff := 500)
  }

  // ------------------------------------------------------------- timers

  function FirstT1(t1: u32, secs: u32): u32 {
    if t1 == 0 || t1 >= secs then secs / 2 else t1
  }

  function FirstT2(t1: u32, t2: u32, secs: u32): u32 {
    if t2 == 0 || t2 <= t1 || t2 >= secs then secs - secs / 8 else t2
  }

  /** T1 and T2 from the options or as one half and seven eighths of the lease, in 32-bit arithmetic. */
  function Timers(l: Lease): Lease {
    var secs := if l.secs == 0 then DEFAULT_LEASE else l.secs;
    if secs == INFINITE then Lease(secs, 0, 0)
    else
      var a := FirstT1(l.t1, secs);
      var b := FirstT2(a, l.t2, secs);
      var a' := if a == 0 then 1 else a;
      Lease(secs, a', if b <= a' then (a' + 1) % U32 else b)
  }

  function Age(c: Client, nowMs: nat): nat {
    if nowMs >= c.boundMs then nowMs - c.boundMs else 0
  }

  /** The renewal ladder: expiry, then T2, then T1. */
  function Advance(c: Client, nowMs: nat): Client {
    if !Active(c) || c.lease.secs == INFINITE then c
    else
      var age := Age(c, nowMs);
      if c.lease.secs != 0 && age >= c.lease.secs * 1000 then Reset(c)
      else if !c.state.Rebinding? && c.lease.t2 != 0 && age >= c.lease.t2 * 1000 then
        c.(state := Rebinding, backoff := 1000, lastTx := 0)
      else if c.state.Bound? && c.lease.t1 != 0 && age >= c.lease.t1 * 1000 then
        c.(state := Renewing, backoff := 1000, lastTx := 0)
      else c
  }

  // ----------------------------------------------------------- messages

  predicate Extending(c: Client) {
    c.state.Renewing? || c.state.Rebinding?
  }

  const PARAMETERS: seq<byte> := [1, 3, 6, 28, 51, 58, 59]

  function OptionList(c: Client, msg: byte): (ts: seq<Tlv>)
    ensures forall k :: 0 <= k < |ts| ==> Encodable(ts[k])
  {
    [Tlv(MSG_TYPE, [msg]), Tlv(PARAM_REQ, PARAMETERS)]
      + (if msg == REQUEST && c.yiaddr != UNSET && !Extending(c) then
           [Tlv(REQUESTED_IP, c.yiaddr)] + (if c.net.server != UNSET then [Tlv(SERVER, c.net.server)] else [])
         else [])
  }

  /** The fixed BOOTP fields, in the order they are written, over n zero bytes. */
  function FixedPart(c: Client, n: nat): (b: seq<byte>)
    requires n >= 300
    ensures |b| == n
  {
    var b0 := Patch(Patch(Zeros(n), 0, [1, 1, 6]), 4, c.xid);
    var b1 := if Extending(c) then Patch(b0, 12, c.yiaddr) else b0;
    var b2 := if c.state.Renewing? then b1 else Patch(b1, 10, [0x80]);
    Patch(Patch(b2, 28, c.mac), 236, COOKIE)
  }

  function OptionField(c: Client, msg: byte): (b: seq<byte>)
    ensures |b| <= 25
  {
    OptionFieldLength(c, msg);
    Written(OptionList(c, msg)) + [END]
  }

  lemma {:induction false} OptionFieldLength(c: Client, msg: byte)
    ensures |Written(OptionList(c, msg))| <= 24
  {
    var kind, wanted := Tlv(MSG_TYPE, [msg]), Tlv(PARAM_REQ, PARAMETERS);
    var addr, server := Tlv(REQUESTED_IP, c.yiaddr), Tlv(SERVER, c.net.server);
    WrittenSnoc([], kind);
    WrittenSnoc([kind], wanted);
    WrittenSnoc([kind, wanted], addr);
    WrittenSnoc([kind, wanted, addr], server);
    assert OptionList(c, msg) == [kind, wanted] || OptionList(c, msg) == [kind, wanted, addr]
        || OptionList(c, msg) == [kind, wanted, addr, server];
    assert [] + [kind] == [kind] && [kind] + [wanted] == [kind, wanted];
    assert [kind, wanted] + [addr] == [kind, wanted, addr];
    assert [kind, wanted, addr] + [server] == [kind, wanted, addr, server];
  }

  /** A buffer of n bytes with the message in it. */
  function MessageBuffer(c: Client, msg: byte, n: nat): (b: seq<byte>)
    requires n >= 300
    ensures |b| == n
  {
    Patch(FixedPart(c, n), FIXED, OptionField(c, msg))
  }

  /** The message itself: always 300 bytes. */
  function Message(c: Client, msg: byte): (m: seq<byte>)
    ensures |m| == 300
  {
    MessageBuffer(c, msg, 300)
  }

  // --------------------------------------------------------- polling

  function MessageKind(c: Client): byte {
    if c.state.Requesting? || Extending(c) then REQUEST else DISCOVER
  }

  function Source(c: Client): Addr {
    if Extending(c) then c.yiaddr else UNSET
  }

  function Destination(c: Client): Addr {
    if c.state.Renewing? && c.net.server != UNSET then c.net.server else BROADCAST
  }

  function Outgoing(c: Client): (f: seq<byte>)
    ensures |f| == 342
  {
    Frame(c.mac, Source(c), Destination(c), Message(c, MessageKind(c)))
  }

  function NextBackoff(b: int): int {
    if b < 4000 then b * 2 else 8000
  }

  /** The guards of a poll after the ladder has been advanced. */
  predicate MaySend(c: Client, nowMs: nat, cap: nat) {
    && !c.state.Bound?
    && !(c.lease.secs == INFINITE && Active(c))
    && (c.lastTx == 0 || nowMs >= c.lastTx / 1000 + c.backoff)
    && cap >= 342
  }

  function Sent(c: Client, sentUs: nat): Client {
    c.(lastTx := sentUs, state := if c.state.Init? then Selecting else c.state, backoff := NextBackoff(c.backoff))
  }

  /** One poll: the new client, and the frame to send or nothing. */
  function WantTx(c: Client, nowUs: nat, sentUs: nat, cap: nat): (r: (Client, seq<byte>)) {
    var d := Advance(c, nowUs / 1000);
    if MaySend(d, nowUs / 1000, cap) then (Sent(d, sentUs), Outgoing(d)) else (d, [])
  }

  // ------------------------------------------------- received messages

  /** One option taken into the client, and the message type seen so far. */
  function TakeOption(c: Client, msg: byte, t: Tlv): (r: (Client, byte)) {
    var n := |t.value|;
    if t.tag == MSG_TYPE && n >= 1 then (c, t.value[0])
    else if n < 4 then (c, msg)
    else
      var a := Sub(t.value, 0, 4);
      if t.tag == SERVER then (c.(net := c.net.(server := a)), msg)
      else if t.tag == SUBNET then (c.(net := c.net.(netmask := a)), msg)
      else if t.tag == ROUTER then (c.(net := c.net.(router := a)), msg)
      else if t.tag == LEASE then (c.(lease := c.lease.(secs := RdBe32(t.value, 0))), msg)
      else if t.tag == T1 then (c.(lease := c.lease.(t1 := RdBe32(t.value, 0))), msg)
      else if t.tag == T2 then (c.(lease := c.lease.(t2 := RdBe32(t.value, 0))), msg)
      else if t.tag == DNS then
        (if n >= 8 then c.(net := c.net.(dns0 := a, dns1 := Sub(t.value, 4, 4), dnsN := 2))
         else c.(net := c.net.(dns0 := a, dnsN := 1)), msg)
      else (c, msg)
  }

  function TakeOptions(c: Client, msg: byte, ts: seq<Tlv>): (r: (Client, byte))
    decreases |ts|
  {
    if ts == [] then (c, msg)
    else var r := TakeOption(c, msg, ts[0]); TakeOptions(r.0, r.1, ts[1..])
  }

  function AddrOr(v: Option<seq<byte>>, at: nat, otherwise: Addr): Addr
    requires v.Some? ==> |v.value| >= at + 4
  {
    match v case Some(b) => Sub(b, at, 4) case None => otherwise
  }

  function WordOr(v: Option<seq<byte>>, otherwise: u32): u32
    requires v.Some? ==> |v.value| >= 4
  {
    match v case Some(b) => RdBe32(b, 0) case None => otherwise
  }

  /** What a list of options means: the last well-sized option of each known tag. */
  function NetFrom(n: Net, ts: seq<Tlv>): Net {
    Net(AddrOr(Last(ts, SERVER, 4), 0, n.server),
        AddrOr(Last(ts, SUBNET, 4), 0, n.netmask),
        AddrOr(Last(ts, ROUTER, 4), 0, n.router),
        AddrOr(Last(ts, DNS, 4), 0, n.dns0),
        AddrOr(Last(ts, DNS, 8), 4, n.dns1),
        match Last(ts, DNS, 4) case None => n.dnsN case Some(v) => if |v| >= 8 then 2 else 1)
  }

  function LeaseFrom(l: Lease, ts: seq<Tlv>): Lease {
    Lease(WordOr(Last(ts, LEASE, 4), l.secs), WordOr(Last(ts, T1, 4), l.t1), WordOr(Last(ts, T2, 4), l.t2))
  }

  function KindFrom(msg: byte, ts: seq<Tlv>): byte {
    match Last(ts, MSG_TYPE, 1) case None => msg case Some(v) => v[0]
  }

  function Meaning(c: Client, msg: byte, ts: seq<Tlv>): (r: (Client, byte)) {
    (c.(net := NetFrom(c.net, ts), lease := LeaseFrom(c.lease, ts)), KindFrom(msg, ts))
  }

  /** Taking options one by one, in order, gives the last well-sized value of each known tag. */
  lemma {:induction false} LastOptionWins(c: Client, msg: byte, ts: seq<Tlv>)
    ensures TakeOptions(c, msg, ts) == Meaning(c, msg, ts)
    decreases |ts|
  {
    if ts != [] {
      var r := TakeOption(c, msg, ts[0]);
      LastOptionWins(r.0, r.1, ts[1..]);
      MeaningStep(c, msg, ts[0], ts[1..]);
      assert ts == [ts[0]] + ts[1..];
    }
  }

  /** What one option does, field by field. */
  function NewAddr(t: Tlv, tag: byte, least: nat, at: nat, was: Addr): Addr
    requires at + 4 <= least
  {
    if t.tag == tag && |t.value| >= least then Sub(t.value, at, 4) else was
  }

  function NewWord(t: Tlv, tag: byte, was: u32): u32 {
    if t.tag == tag && |t.value| >= 4 then RdBe32(t.value, 0) else was
  }

  lemma {:induction false} TakeOptionFields(c: Client, msg: byte, t: Tlv)
    ensures TakeOption(c, msg, t) ==
      (c.(net := Net(NewAddr(t, SERVER, 4, 0, c.net.server), NewAddr(t, SUBNET, 4, 0, c.net.netmask),
                     NewAddr(t, ROUTER, 4, 0, c.net.router), NewAddr(t, DNS, 4, 0, c.net.dns0),
                     NewAddr(t, DNS, 8, 4, c.net.dns1),
                     if t.tag == DNS && |t.value| >= 4 then if |t.value| >= 8 then 2 else 1 else c.net.dnsN),
          lease := Lease(NewWord(t, LEASE, c.lease.secs), NewWord(t, T1, c.lease.t1), NewWord(t, T2, c.lease.t2))),
       if t.tag == MSG_TYPE && |t.value| >= 1 then t.value[0] else msg)
  {
    hide RdBe32;
  }

  lemma {:induction false} AddrStep(t: Tlv, rest: seq<Tlv>, tag: byte, least: nat, at: nat, was: Addr)
    requires at + 4 <= least
    ensures AddrOr(Last([t] + rest, tag, least), at, was)
         == AddrOr(Last(rest, tag, least), at, NewAddr(t, tag, least, at, was))
  {
    LastStep(t, rest, tag, least);
  }

  lemma {:induction false} WordStep(t: Tlv, rest: seq<Tlv>, tag: byte, was: u32)
    ensures WordOr(Last([t] + rest, tag, 4), was) == WordOr(Last(rest, tag, 4), NewWord(t, tag, was))
  {
    hide RdBe32;
    LastStep(t, rest, tag, 4);
  }

  lemma {:induction false} MeaningStep(c: Client, msg: byte, t: Tlv, rest: seq<Tlv>)
    ensures Meaning(c, msg, [t] + rest) == Meaning(TakeOption(c, msg, t).0, TakeOption(c, msg, t).1, rest)
  {
    TakeOptionFields(c, msg, t);
    hide Last, RdBe32, AddrOr, WordOr, NewAddr, NewWord, TakeOption;
    AddrStep(t, rest, SERVER, 4, 0, c.net.server);
    AddrStep(t, rest, SUBNET, 4, 0, c.net.netmask);
    AddrStep(t, rest, ROUTER, 4, 0, c.net.router);
    AddrStep(t, rest, DNS, 4, 0, c.net.dns0);
    AddrStep(t, rest, DNS, 8, 4, c.net.dns1);
    WordStep(t, rest, LEASE, c.lease.secs);
    WordStep(t, rest, T1, c.lease.t1);
    WordStep(t, rest, T2, c.lease.t2);
    LastStep(t, rest, DNS, 4);
    LastStep(t, rest, MSG_TYPE, 1);
  }

  /** Where the BOOTP message starts in a frame, if the frame is a DHCP reply to this client. */
  function ReplyAt(c: Client, eth: seq<byte>): (at: Option<nat>)
    ensures at.Some? ==> at.value + FIXED <= |eth|
  {
    if |eth| < 14 + 20 + 8 + FIXED || eth[12] != 0x08 || eth[13] != 0x00 || eth[14] / 16 != 4 then None
    else
      var ihl := eth[14] % 16 * 4;
      var at := 14 + ihl + 8;
      if ihl < 20 || at + FIXED > |eth| || eth[23] != 17 || Be16(eth[14 + ihl + 2], eth[14 + ihl + 3]) != 68 then None
      else if eth[at] != 2 || Sub(eth, at + 4, 4) != c.xid || Sub(eth, at + 236, 4) != COOKIE then None
      else Some(at)
  }

  function Offered(c: Client, yi: Addr): Client {
    c.(yiaddr := yi, state := Requesting, backoff := 200, lastTx := 0)
  }

  function WithFallbacks(n: Net): Net {
    var m := if n.dnsN == 0 && n.router != UNSET then n.(dns0 := n.router, dnsN := 1) else n;
    if m.router == UNSET && m.server != UNSET then m.(router := m.server) else m
  }

  function Acknowledged(c: Client, yi: Addr, nowMs: nat): Client {
    c.(yiaddr := yi, net := WithFallbacks(c.net), lease := Timers(c.lease), boundMs := nowMs,
       state := Bound, backoff := 500, lastTx := 0)
  }

  /** The reaction to a parsed message, and the event reported for it. */
  function React(c: Client, msg: byte, yi: Addr, nowMs: nat): (r: (Client, int)) {
    if msg == OFFER && yi != UNSET then
      if Active(c) then (c, 0) else (Offered(c, yi), 0)
    else if msg == ACK && yi != UNSET then
      (Acknowledged(c, yi, nowMs), if !Active(c) || c.yiaddr != yi then 1 else 0)
    else if msg == NAK then
      (Reset(c), if Active(c) || c.state.Requesting? then -1 else 0)
    else (c, 0)
  }

  function OnFrame(c: Client, eth: seq<byte>, nowMs: nat): (r: (Client, int)) {
    var at := ReplyAt(c, eth);
    if at.None? then (c, 0)
    else
      var r := TakeOptions(c, 0, Tlvs(eth, at.value + FIXED));
      React(r.0, r.1, Sub(eth, at.value + 16, 4), nowMs)
  }
}
