/** The client as the program keeps it: one structure whose fields are updated in place. */
module DhcpMachine {
  import opened Bytes
  import opened DhcpOptions
  import opened DhcpFrame
  import opened DhcpClient

  /** Appends one option unless it would reach the end of the option area at a[base..base + cap]. */
  method AppendOpt(a: array<byte>, base: nat, off: nat, cap: nat, t: Tlv) returns (next: nat)
    requires |t.value| < 256 && base + cap <= a.Length
    modifies a
    ensures next == if off + 2 + |t.value| >= cap then off else off + 2 + |t.value|
    ensures a[..] == if next == off then old(a[..]) else Patch(old(a[..]), base + off, TlvBytes(t))
  {
    var n := |t.value|;
    if off + 2 + n >= cap {
      return off;
    }
    ghost var was := a[..];
    Copy(a, base + off, [t.tag, n]);
    Copy(a, base + off + 2, t.value);
    PatchJoin(was, base + off, [t.tag, n], t.value);
    return off + 2 + n;
  }

  /** Appends to an area that holds the options ts over b so far, and has room for one more. */
  method AddOption(a: array<byte>, off: nat, cap: nat, t: Tlv, ghost b: seq<byte>, ghost ts: seq<Tlv>)
    returns (next: nat)
    requires a.Length == 240 + cap == |b| && off == |Written(ts)| && off + 2 + |t.value| < cap && |t.value| < 256
    requires a[..] == Patch(b, 240, Written(ts))
    modifies a
    ensures next == |Written(ts + [t])| == off + 2 + |t.value|
    ensures a[..] == Patch(b, 240, Written(ts + [t]))
  {
    hide Written, TlvBytes;
    next := AppendOpt(a, 240, off, cap, t);
    WrittenSnoc(ts, t);
    PatchJoin(b, 240, Written(ts), TlvBytes(t));
  }

  class Dhcp {
    const mac: Mac
    const xid: Addr
    var state: State
    var yiaddr: Addr
    var net: Net
    var lease: Lease
    var boundMs: nat
    var lastTx: nat
    var backoffMs: int

    function Value(): Client
      reads this
    {
      Client(mac, xid, state, yiaddr, net, lease, boundMs, lastTx, backoffMs)
    }

    constructor (mac: Mac, xid: Addr)
      ensures Value() == Created(mac, xid)
    {
      this.mac, this.xid := mac, xid;
      state, yiaddr, net, lease := Init, UNSET, Net(UNSET, [255, 255, 255, 0], UNSET, UNSET, UNSET, 0), Lease(0, 0, 0);
      boundMs, lastTx, backoffMs := 0, 0, 500;
    }

    method ResetSelect()
      modifies this
      ensures Value() == Reset(old(Value()))
    {
      state := Init;
      yiaddr := UNSET;
      net := net.(server := UNSET);
      lease := Lease(0, 0, 0);
      boundMs := 0;
      backoffMs := 500;
      lastTx := 0;
    }

    method ApplyLeaseTimers(nowMs: nat)
      modifies `boundMs, `lease
      ensures boundMs == nowMs && lease == Timers(old(lease))
    {
      boundMs := nowMs;
      if lease.secs == 0 {
        lease := lease.(secs := 3600);
      }
      if lease.secs == 0xFFFF_FFFF {
        lease := lease.(t1 := 0, t2 := 0);
        return;
      }
      if lease.t1 == 0 || lease.t1 >= lease.secs {
        lease := lease.(t1 := lease.secs / 2);
      }
      if lease.t2 == 0 || lease.t2 <= lease.t1 || lease.t2 >= lease.secs {
        lease := lease.(t2 := lease.secs - lease.secs / 8);
      }
      if lease.t1 == 0 {
        lease := lease.(t1 := 1);
      }
      if lease.t2 <= lease.t1 {
        lease := lease.(t2 := (lease.t1 + 1) % U32);
      }
    }

    method AdvanceRenewState(nowMs: nat)
      modifies this
      ensures Value() == Advance(old(Value()), nowMs)
    {
      if state != Bound && state != Renewing && state != Rebinding {
        return;
      }
      if lease.secs == 0xFFFF_FFFF {
        return;
      }
      var age := if nowMs >= boundMs then nowMs - boundMs else 0;
      var leaseMs, t1Ms, t2Ms := lease.secs * 1000, lease.t1 * 1000, lease.t2 * 1000;
      if leaseMs != 0 && age >= leaseMs {
        ResetSelect();
        return;
      }
      if state != Rebinding && t2Ms != 0 && age >= t2Ms {
        state := Rebinding;
        backoffMs := 1000;
        lastTx := 0;
        return;
      }
      if state == Bound && t1Ms != 0 && age >= t1Ms {
        state := Renewing;
        backoffMs := 1000;
        lastTx := 0;
      }
    }

    /** Writes the message into the caller's buffer; refuses a buffer under 300 bytes. */
    method BuildBootp(msg: byte, bootp: array<byte>) returns (len: nat)
      modifies bootp
      ensures len == if bootp.Length < 300 then 0 else 300
      ensures bootp[..] == if len == 0 then old(bootp[..]) else MessageBuffer(Value(), msg, bootp.Length)
    {
      hide FixedPart, OptionField;
      var cap := bootp.Length;
      if cap < 300 {
        return 0;
      }
      WriteFixed(bootp);
      var off := WriteOptions(msg, bootp);
      len := 240 + off;
      if len < 300 {
        len := 300;
      }
    }

    /** Options from byte 240 on, closed with END; in 60 bytes or more none of them is refused. */
    method WriteOptions(msg: byte, bootp: array<byte>) returns (off: nat)
      requires bootp.Length >= 300
      modifies bootp
      ensures off == |OptionField(Value(), msg)|
      ensures bootp[..] == Patch(old(bootp[..]), 240, OptionField(Value(), msg))
    {
      var oc := bootp.Length - 240;
      ghost var b, ts := bootp[..], [];
      off := 0;
      assert Written(ts) == [];
      assert Patch(b, 240, Written(ts)) == b;
      off := AddOption(bootp, off, oc, Tlv(MSG_TYPE, [msg]), b, ts);
      ts := ts + [Tlv(MSG_TYPE, [msg])];
      off := AddOption(bootp, off, oc, Tlv(PARAM_REQ, PARAMETERS), b, ts);
      ts := ts + [Tlv(PARAM_REQ, PARAMETERS)];
      if msg == 3 && yiaddr != UNSET && state != Renewing && state != Rebinding {
        off := AddOption(bootp, off, oc, Tlv(REQUESTED_IP, yiaddr), b, ts);
        ts := ts + [Tlv(REQUESTED_IP, yiaddr)];
        if net.server != UNSET {
          off := AddOption(bootp, off, oc, Tlv(SERVER, net.server), b, ts);
          ts := ts + [Tlv(SERVER, net.server)];
        }
      }
      assert ts == OptionList(Value(), msg);
      hide Written;
      if off < oc {
        Copy(bootp, 240 + off, [255]);
        PatchJoin(b, 240, Written(ts), [255]);
        off := off + 1;
      }
    }

    method WriteFixed(bootp: array<byte>)
      requires bootp.Length >= 300
      modifies bootp
      ensures bootp[..] == FixedPart(Value(), bootp.Length)
    {
      var i := 0;
      while i < bootp.Length
        invariant 0 <= i <= bootp.Length
        invariant forall k :: 0 <= k < i ==> bootp[k] == 0
      {
        bootp[i] := 0;
        i := i + 1;
      }
      assert bootp[..] == Zeros(bootp.Length);
      Copy(bootp, 0, [1, 1, 6]);
      Copy(bootp, 4, xid);
      if state == Renewing || state == Rebinding {
        Copy(bootp, 12, yiaddr);
      }
      if state != Renewing {
        Copy(bootp, 10, [0x80]);
      }
      Copy(bootp, 28, mac);
      Copy(bootp, 236, COOKIE);
    }

    /** A poll: advances the ladder, and writes a frame of n bytes if one is due and fits. */
    method WantTx(eth: array?<byte>, cap: nat, nowUs: nat, sentUs: nat) returns (n: nat)
      requires eth != null ==> cap <= eth.Length
      modifies this, if eth == null then {} else {eth}
      ensures eth == null ==> n == 0 && Value() == old(Value())
      ensures eth != null ==>
        var r := DhcpClient.WantTx(old(Value()), nowUs, sentUs, cap);
        && Value() == r.0 && n == |r.1|
        && eth[..] == if n == 0 then old(eth[..]) else Patch(old(eth[..]), 0, r.1)
    {
      hide Advance, Frame, MessageBuffer, NextBackoff;
      n := 0;
      if eth == null {
        return;
      }
      var now := nowUs / 1000;
      AdvanceRenewState(now);
      if state == Bound {
        return;
      }
      if lease.secs == 0xFFFF_FFFF && Active(Value()) {
        return;
      }
      if lastTx != 0 {
        if now < lastTx / 1000 + backoffMs {
          return;
        }
      }
      var msg: byte := 1;
      if state == Requesting || state == Renewing || state == Rebinding {
        msg := 3;
      }
      var bootp := new byte[548];
      var blen := BuildBootp(msg, bootp);
      MessagePrefix(Value(), msg, 548);
      var src, dst := UNSET, BROADCAST;
      if state == Renewing || state == Rebinding {
        src := yiaddr;
      }
      if state == Renewing && net.server != UNSET {
        dst := net.server;
      }
      n := Encapsulate(mac, src, dst, bootp[..blen], eth, cap);
      if n == 0 {
        return;
      }
      lastTx := sentUs;
      if state == Init {
        state := Selecting;
      }
      backoffMs := NextBackoff(backoffMs);
    }

    /** Takes the options of o[from..] into the client and returns the message type, 0 if none. */
    method ParseOptions(o: seq<byte>, from: nat) returns (msg: byte)
      requires from <= |o|
      modifies this
      ensures (Value(), msg) == TakeOptions(old(Value()), 0, Tlvs(o, from))
    {
      msg := 0;
      var i := from;
      while i < |o|
        invariant from <= i <= |o|
        invariant TakeOptions(Value(), msg, Tlvs(o, i)) == TakeOptions(old(Value()), 0, Tlvs(o, from))
      {
        var t := o[i];
        if t == 0 {
          i := i + 1;
          continue;
        }
        if t == 255 || i + 1 >= |o| {
          return;
        }
        var n := o[i + 1];
        if i + 2 + n > |o| {
          return;
        }
        msg := ParseOption(Tlv(t, Sub(o, i + 2, n)), msg);
        i := i + 2 + n;
      }
    }

    method ParseOption(t: Tlv, soFar: byte) returns (msg: byte)
      modifies this
      ensures (Value(), msg) == TakeOption(old(Value()), soFar, t)
    {
      var tag, n, v := t.tag, |t.value|, t.value;
      msg := soFar;
      if tag == 53 && n >= 1 {
        msg := v[0];
      } else if tag == 54 && n >= 4 {
        net := net.(server := Sub(v, 0, 4));
      } else if tag == 1 && n >= 4 {
        net := net.(netmask := Sub(v, 0, 4));
      } else if tag == 3 && n >= 4 {
        net := net.(router := Sub(v, 0, 4));
      } else if tag == 51 && n >= 4 {
        lease := lease.(secs := RdBe32(v, 0));
      } else if tag == 58 && n >= 4 {
        lease := lease.(t1 := RdBe32(v, 0));
      } else if tag == 59 && n >= 4 {
        lease := lease.(t2 := RdBe32(v, 0));
      } else if tag == 6 && n >= 4 {
        net := net.(dns0 := Sub(v, 0, 4), dnsN := 1);
        if n >= 8 {
          net := net.(dns1 := Sub(v, 4, 4), dnsN := 2);
        }
      }
    }

    /** A received frame: 1 for a new address, -1 for a refusal, 0 otherwise. */
    method OnFrame(eth: seq<byte>, nowMs: nat) returns (rc: int)
      modifies this
      ensures (Value(), rc) == DhcpClient.OnFrame(old(Value()), eth, nowMs)
    {
      hide TakeOptions, Timers, Tlvs;
      if |eth| < 14 + 20 + 8 + 240 || eth[12] != 0x08 || eth[13] != 0x00 {
        return 0;
      }
      if eth[14] / 16 != 4 {
        return 0;
      }
      var ihl := eth[14] % 16 * 4;
      if ihl < 20 || 14 + ihl + 8 + 240 > |eth| {
        return 0;
      }
      if eth[14 + 9] != 17 {
        return 0;
      }
      var dport := Be16(eth[14 + ihl + 2], eth[14 + ihl + 3]);
      if dport != 68 {
        return 0;
      }
      var bootp := 14 + ihl + 8;
      if eth[bootp] != 2 || Sub(eth, bootp + 4, 4) != xid || Sub(eth, bootp + 236, 4) != COOKIE {
        return 0;
      }
      var msg := ParseOptions(eth, bootp + 240);
      var newYi := Sub(eth, bootp + 16, 4);
      rc := OnMessage(msg, newYi, nowMs);
    }

    method OnMessage(msg: byte, newYi: Addr, nowMs: nat) returns (rc: int)
      modifies this
      ensures (Value(), rc) == React(old(Value()), msg, newYi, nowMs)
    {
      hide Timers;
      if msg == 2 && newYi != UNSET {
        if Active(Value()) {
          return 0;
        }
        yiaddr := newYi;
        state := Requesting;
        backoffMs := 200;
        lastTx := 0;
        return 0;
      }
      if msg == 5 && newYi != UNSET {
        var wasActive := Active(Value());
        var oldIp := yiaddr;
        yiaddr := newYi;
        if net.dnsN == 0 && net.router != UNSET {
          net := net.(dns0 := net.router, dnsN := 1);
        }
        if net.router == UNSET && net.server != UNSET {
          net := net.(router := net.server);
        }
        ApplyLeaseTimers(nowMs);
        state := Bound;
        backoffMs := 500;
        lastTx := 0;
        if !wasActive {
          return 1;
        }
        return if oldIp != yiaddr then 1 else 0;
      }
      if msg == 6 {
        var had := Active(Value()) || state == Requesting;
        ResetSelect();
        return if had then -1 else 0;
      }
      return 0;
    }
  }

  /** The first 300 bytes of the buffer do not depend on its size. */
  lemma {:induction false} MessagePrefix(c: Client, msg: byte, n: nat)
    requires n >= 300
    ensures MessageBuffer(c, msg, n)[..300] == Message(c, msg)
  {
    hide OptionField;
  }
}
