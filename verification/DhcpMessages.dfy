/** What the client's messages say to a server, and that they follow its state (section 4.3.6 of RFC 2131). */
module DhcpMessages {
  import opened Bytes
  import opened DhcpOptions
  import opened DhcpFrame
  import opened DhcpClient
  import DhcpRuns
  import InetChecksum
  import InetChecksumLaws

  /** Reading a built message back gives the option list it was built from. */
  lemma {:induction false} MessageOptions(c: Client, msg: byte)
    ensures Tlvs(Message(c, msg), FIXED) == OptionList(c, msg)
  {
    hide OptionList, FixedPart, Written;
    var ts := OptionList(c, msg);
    OptionFieldLength(c, msg);
    assert Agree(Message(c, msg), FIXED, Written(ts) + [END], 0, |Written(ts)| + 1);
    WrittenParsed(Message(c, msg), FIXED, ts);
  }

  /** Parsing a built message returns its type, for any client that reads it. */
  lemma {:induction false} TypeRoundTrip(c: Client, msg: byte, reader: Client)
    ensures TakeOptions(reader, 0, Tlvs(Message(c, msg), FIXED)).1 == msg
  {
    hide TakeOptions, Tlvs, Message;
    MessageOptions(c, msg);
    LastOptionWins(reader, 0, OptionList(c, msg));
    LastInList(c, msg);
  }

  lemma {:induction false} LastInList(c: Client, msg: byte)
    ensures var ts := OptionList(c, msg);
            && Last(ts, MSG_TYPE, 1) == Some([msg])
            && Last(ts, REQUESTED_IP, 4) ==
               (if msg == REQUEST && c.yiaddr != UNSET && !Extending(c) then Some(c.yiaddr) else None)
            && Last(ts, SERVER, 4) ==
               (if msg == REQUEST && c.yiaddr != UNSET && !Extending(c) && c.net.server != UNSET
                then Some(c.net.server) else None)
  {
    hide Last;
    var kind, wanted := Tlv(MSG_TYPE, [msg]), Tlv(PARAM_REQ, PARAMETERS);
    var tail := OptionList(c, msg)[2..];
    assert OptionList(c, msg) == [kind] + ([wanted] + tail);
    LastThrough(kind, wanted, tail, MSG_TYPE, 1);
    LastThrough(kind, wanted, tail, REQUESTED_IP, 4);
    LastThrough(kind, wanted, tail, SERVER, 4);
    LastOfTail(c, msg, tail);
  }

  lemma {:induction false} LastThrough(a: Tlv, b: Tlv, tail: seq<Tlv>, tag: byte, least: nat)
    ensures Last([a] + ([b] + tail), tag, least) ==
      if Last(tail, tag, least).Some? then Last(tail, tag, least)
      else if b.tag == tag && |b.value| >= least then Some(b.value)
      else if a.tag == tag && |a.value| >= least then Some(a.value)
      else None
  {
    hide Last;
    LastStep(a, [b] + tail, tag, least);
    LastStep(b, tail, tag, least);
  }

  lemma {:induction false} LastOfTail(c: Client, msg: byte, tail: seq<Tlv>)
    requires tail == OptionList(c, msg)[2..]
    ensures Last(tail, MSG_TYPE, 1) == None
    ensures Last(tail, REQUESTED_IP, 4) ==
            if msg == REQUEST && c.yiaddr != UNSET && !Extending(c) then Some(c.yiaddr) else None
    ensures Last(tail, SERVER, 4) ==
            if msg == REQUEST && c.yiaddr != UNSET && !Extending(c) && c.net.server != UNSET
            then Some(c.net.server) else None
  {
    var addr, server := Tlv(REQUESTED_IP, c.yiaddr), Tlv(SERVER, c.net.server);
    if msg == REQUEST && c.yiaddr != UNSET && !Extending(c) {
      if c.net.server != UNSET {
        assert tail == [addr] + [server] && [server] == [server] + [];
        LastThrough(addr, server, [], MSG_TYPE, 1);
        LastThrough(addr, server, [], REQUESTED_IP, 4);
        LastThrough(addr, server, [], SERVER, 4);
      } else {
        assert tail == [addr] + [];
        LastStep(addr, [], MSG_TYPE, 1);
        LastStep(addr, [], REQUESTED_IP, 4);
        LastStep(addr, [], SERVER, 4);
      }
    } else {
      assert tail == [];
    }
  }

  /** The fixed fields: ciaddr while extending a lease, the broadcast flag except when renewing by unicast. */
  lemma {:induction false} FixedFields(c: Client, msg: byte)
    ensures var m := Message(c, msg);
            && m[0] == 1 && m[1] == 1 && m[2] == 6
            && m[10] == (if c.state.Renewing? then 0 else 0x80)
            && Sub(m, 4, 4) == c.xid
            && Sub(m, 12, 4) == (if Extending(c) then c.yiaddr else UNSET)
            && Sub(m, 16, 4) == UNSET
            && Sub(m, 28, 6) == c.mac && Sub(m, 236, 4) == COOKIE
  {
    hide OptionField;
  }

  /**
   What a reachable client sends in each state: DISCOVER while it has no offer; a selecting
   REQUEST with options 50 and, if the server is known, 54; and an extending REQUEST with
   ciaddr and neither option.
   */
  lemma {:induction false} MessageFollowsState(c: Client)
    requires DhcpRuns.Inv(c) && !c.state.Bound?
    ensures var m, ts := Message(c, MessageKind(c)), Tlvs(Message(c, MessageKind(c)), FIXED);
            && Last(ts, MSG_TYPE, 1) == Some([if c.state.Init? || c.state.Selecting? then DISCOVER else REQUEST])
            && Last(ts, REQUESTED_IP, 4) == (if c.state.Requesting? then Some(c.yiaddr) else None)
            && Last(ts, SERVER, 4) ==
               (if c.state.Requesting? && c.net.server != UNSET then Some(c.net.server) else None)
            && Sub(m, 12, 4) == (if c.state.Renewing? || c.state.Rebinding? then c.yiaddr else UNSET)
            && (m[10] == 0x80 <==> !c.state.Renewing?)
  {
    hide Tlvs, Message, Last;
    MessageOptions(c, MessageKind(c));
    LastInList(c, MessageKind(c));
    FixedFields(c, MessageKind(c));
  }

  /** The frame around it: source, destination and the message, with checksums that verify. */
  lemma {:induction false} FrameCarries(c: Client)
    ensures var f := Outgoing(c);
            && f[12] == 0x08 && f[13] == 0x00 && f[23] == 17
            && Sub(f, 26, 4) == Source(c) && Sub(f, 30, 4) == Destination(c)
            && Be16(f[34], f[35]) == 68 && Be16(f[36], f[37]) == 67
            && Sub(f, 42, 300) == Message(c, MessageKind(c))
    ensures var p := Sub(Outgoing(c), 14, 328);
            InetChecksum.Accepted(p) && InetChecksumLaws.HeaderVerifies(p) && InetChecksumLaws.L4Verifies(p)
  {
    var src, dst, m := Source(c), Destination(c), Message(c, MessageKind(c));
    hide Source, Destination, Message;
    DatagramVerifies(src, dst, m);
    DatagramHolds(src, dst, m);
    var d, f := Datagram(src, dst, m), Outgoing(c);
    hide Datagram, Outgoing, InetChecksumLaws.HeaderVerifies, InetChecksumLaws.L4Verifies, InetChecksum.Accepted;
    assert f == EthHeader(c.mac) + d;
    assert Sub(f, 14, 328) == d;
    assert forall k :: 0 <= k < 328 ==> f[14 + k] == d[k];
    assert Sub(f, 26, 4) == Sub(d, 12, 4) && Sub(f, 30, 4) == Sub(d, 16, 4);
    assert Sub(f, 42, 300) == Sub(d, 28, 300);
  }

  lemma {:induction false} DatagramHolds(src: Addr, dst: Addr, bootp: seq<byte>)
    ensures var d := Datagram(src, dst, bootp);
            && d[9] == 17 && Sub(d, 12, 4) == src && Sub(d, 16, 4) == dst
            && Be16(d[20], d[21]) == 68 && Be16(d[22], d[23]) == 67
            && Sub(d, 28, |bootp|) == bootp
  {
    hide InetChecksum.Checksum, UdpChecksum, InetChecksum.PutBe16, InetChecksum.L4Field;
    var p, d := Blank(src, dst, bootp), Datagram(src, dst, bootp);
    assert forall k :: 0 <= k < |bootp| ==> d[28 + k] == bootp[k];
  }

  /**
   A reply whose option field is any options with pads between them, closed by END and followed
   by anything, is taken as the last well-sized option of each known tag.
   */
  lemma {:induction false} ReplyIsUnderstood(c: Client, eth: seq<byte>, nowMs: nat, items: seq<Item>)
    requires ReplyAt(c, eth).Some? && forall k :: 0 <= k < |items| ==> Encodable(items[k].option)
    requires Agree(eth, ReplyAt(c, eth).value + FIXED, Layout(items) + [END], 0, |Layout(items)| + 1)
    ensures var at := ReplyAt(c, eth).value; var (d, msg) := Meaning(c, 0, OptionsOf(items));
            OnFrame(c, eth, nowMs) == React(d, msg, Sub(eth, at + 16, 4), nowMs)
  {
    var at := ReplyAt(c, eth).value;
    hide ReplyAt, Layout, TakeOptions, Meaning, React;
    AgreeParts(eth, at + FIXED, Layout(items), [END]);
    LayoutParsed(eth, at + FIXED, items);
    assert eth[at + FIXED + |Layout(items)|] == END;
    assert OptionsOf(items) + [] == OptionsOf(items);
    LastOptionWins(c, 0, OptionsOf(items));
  }

  lemma {:induction false} OfferTaken(c: Client, eth: seq<byte>, nowMs: nat)
    requires ReplyAt(c, eth).Some? && !Active(c)
    requires var at := ReplyAt(c, eth).value;
             KindFrom(0, Tlvs(eth, at + FIXED)) == OFFER && Sub(eth, at + 16, 4) != UNSET
    ensures var at := ReplyAt(c, eth).value; var ts := Tlvs(eth, at + FIXED);
            OnFrame(c, eth, nowMs).0
              == Offered(c.(net := NetFrom(c.net, ts), lease := LeaseFrom(c.lease, ts)), Sub(eth, at + 16, 4))
  {
    hide ReplyAt, Tlvs, TakeOptions, NetFrom, LeaseFrom, KindFrom, Sub, Offered;
    LastOptionWins(c, 0, Tlvs(eth, ReplyAt(c, eth).value + FIXED));
  }

  lemma {:induction false} RequestSent(d: Client, nowUs: nat, sentUs: nat, cap: nat)
    requires d.state.Requesting? && d.lastTx == 0 && d.yiaddr != UNSET && cap >= 342
    ensures var f := WantTx(d, nowUs, sentUs, cap).1;
            |f| == 342 &&
            var sent := Tlvs(Sub(f, 42, 300), FIXED);
            && Last(sent, MSG_TYPE, 1) == Some([REQUEST])
            && Last(sent, REQUESTED_IP, 4) == Some(d.yiaddr)
            && (d.net.server != UNSET ==> Last(sent, SERVER, 4) == Some(d.net.server))
  {
    assert WantTx(d, nowUs, sentUs, cap).1 == Outgoing(d) && MessageKind(d) == REQUEST && !Extending(d);
    hide WantTx, Outgoing, Tlvs, Last, OptionList, Message;
    FrameCarries(d);
    MessageOptions(d, REQUEST);
    LastInList(d, REQUEST);
  }

  /**
   An accepted OFFER is answered at the next poll that has room, whenever that is, by a REQUEST
   for the offered address; it names the server if the offer carried a non-zero option 54.
   */
  lemma {:induction false} OfferIsRequested(c: Client, eth: seq<byte>, nowMs: nat, nowUs: nat, sentUs: nat, cap: nat)
    requires ReplyAt(c, eth).Some? && !Active(c) && cap >= 342
    requires var at := ReplyAt(c, eth).value;
             KindFrom(0, Tlvs(eth, at + FIXED)) == OFFER && Sub(eth, at + 16, 4) != UNSET
    ensures var at := ReplyAt(c, eth).value; var ts := Tlvs(eth, at + FIXED);
            var (_, f) := WantTx(OnFrame(c, eth, nowMs).0, nowUs, sentUs, cap);
            |f| == 342 &&
            var sent := Tlvs(Sub(f, 42, 300), FIXED);
            && Last(sent, MSG_TYPE, 1) == Some([REQUEST])
            && Last(sent, REQUESTED_IP, 4) == Some(Sub(eth, at + 16, 4))
            && (Last(ts, SERVER, 4).Some? && Sub(Last(ts, SERVER, 4).value, 0, 4) != UNSET ==>
                  Last(sent, SERVER, 4) == Some(Sub(Last(ts, SERVER, 4).value, 0, 4)))
  {
    var d := OnFrame(c, eth, nowMs).0;
    hide WantTx, OnFrame, ReplyAt, Tlvs, Last, LeaseFrom, KindFrom;
    OfferTaken(c, eth, nowMs);
    RequestSent(d, nowUs, sentUs, cap);
  }
}
