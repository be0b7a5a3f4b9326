/** The option field of a DHCP message (section 2 of RFC 2132): writing, parsing, and what parsing keeps. */
module DhcpOptions {
  import opened Bytes

  const PAD: byte := 0
  const SUBNET: byte := 1
  const ROUTER: byte := 3
  const DNS: byte := 6
  const REQUESTED_IP: byte := 50
  const LEASE: byte := 51
  const MSG_TYPE: byte := 53
  const SERVER: byte := 54
  const PARAM_REQ: byte := 55
  const T1: byte := 58
  const T2: byte := 59
  const END: byte := 255

  datatype Tlv = Tlv(tag: byte, value: seq<byte>)

  predicate Encodable(t: Tlv) {
    t.tag != PAD && t.tag != END && |t.value| < 256
  }

  function TlvBytes(t: Tlv): (b: seq<byte>)
    ensures |b| == |t.value| + 2
  {
    [t.tag, |t.value| % 256] + t.value
  }

  /** The options found from position i on: pads are skipped, END or a cut-off option stops. */
  function Tlvs(o: seq<byte>, i: nat): seq<Tlv>
    requires i <= |o|
    decreases |o| - i
  {
    if i == |o| then []
    else if o[i] == PAD then Tlvs(o, i + 1)
    else if o[i] == END || i + 1 == |o| then []
    else
      var n := o[i + 1];
      if i + 2 + n > |o| then [] else [Tlv(o[i], Sub(o, i + 2, n))] + Tlvs(o, i + 2 + n)
  }

  // ------------------------------------------------- parsing inverts writing

  /** An option list as a server may lay it out: options with any number of pads before each. */
  datatype Item = Item(pads: nat, option: Tlv)

  function ItemBytes(x: Item): seq<byte> {
    Zeros(x.pads) + TlvBytes(x.option)
  }

  function Layout(items: seq<Item>): seq<byte> {
    if items == [] then []
    else ItemBytes(items[0]) + Layout(items[1..])
  }

  function OptionsOf(items: seq<Item>): (ts: seq<Tlv>)
    ensures |ts| == |items| && forall k :: 0 <= k < |items| ==> ts[k] == items[k].option
  {
    if items == [] then [] else [items[0].option] + OptionsOf(items[1..])
  }

  lemma {:induction false} PadsSkipped(o: seq<byte>, i: nat, j: nat)
    requires i <= j <= |o| && forall k :: i <= k < j ==> o[k] == PAD
    ensures Tlvs(o, i) == Tlvs(o, j)
    decreases j - i
  {
    if i < j {
      PadsSkipped(o, i + 1, j);
    }
  }

  lemma {:induction false} AgreeParts(o: seq<byte>, i: nat, a: seq<byte>, b: seq<byte>)
    requires Agree(o, i, a + b, 0, |a| + |b|)
    ensures Agree(o, i, a, 0, |a|) && Agree(o, i + |a|, b, 0, |b|)
  {
    forall k | i <= k < i + |a| ensures o[k] == a[k - i + 0] {
      assert (a + b)[k - i] == a[k - i];
    }
    forall k | i + |a| <= k < i + |a| + |b| ensures o[k] == b[k - (i + |a|) + 0] {
      assert o[k] == (a + b)[k - i + 0];
    }
  }

  lemma {:induction false} OptionAt(o: seq<byte>, i: nat, t: Tlv)
    requires Encodable(t) && Agree(o, i, TlvBytes(t), 0, |TlvBytes(t)|)
    ensures Tlvs(o, i) == [t] + Tlvs(o, i + |TlvBytes(t)|)
  {
    var n, b := |t.value|, TlvBytes(t);
    assert |b| == n + 2 && b[0] == t.tag && b[1] == n && i + 2 + n <= |o|;
    assert o[i] == b[0] && o[i + 1] == b[1];
    assert Sub(o, i + 2, n) == t.value by {
      forall k | 0 <= k < n ensures Sub(o, i + 2, n)[k] == t.value[k] {
        assert o[i + 2 + k] == b[2 + k];
      }
    }
    hide TlvBytes, Agree, Sub;
  }

  lemma {:induction false} ItemAt(o: seq<byte>, i: nat, x: Item)
    requires Encodable(x.option) && Agree(o, i, ItemBytes(x), 0, |ItemBytes(x)|)
    ensures Tlvs(o, i) == [x.option] + Tlvs(o, i + |ItemBytes(x)|)
  {
    AgreeParts(o, i, Zeros(x.pads), TlvBytes(x.option));
    PadsSkipped(o, i, i + x.pads);
    OptionAt(o, i + x.pads, x.option);
  }

  lemma {:induction false} LayoutStep(o: seq<byte>, i: nat, items: seq<Item>)
    requires items != [] && Encodable(items[0].option)
    requires Agree(o, i, Layout(items), 0, |Layout(items)|)
    ensures var next := i + |ItemBytes(items[0])|;
            && i + |Layout(items)| == next + |Layout(items[1..])| <= |o|
            && Agree(o, next, Layout(items[1..]), 0, |Layout(items[1..])|)
            && Tlvs(o, i) == [items[0].option] + Tlvs(o, next)
  {
    hide Tlvs, ItemBytes, Encodable;
    AgreeParts(o, i, ItemBytes(items[0]), Layout(items[1..]));
    ItemAt(o, i, items[0]);
  }

  /** Where a list of options is laid out, the parser reads exactly that list and goes on behind it. */
  lemma {:induction false} LayoutParsed(o: seq<byte>, i: nat, items: seq<Item>)
    requires forall k :: 0 <= k < |items| ==> Encodable(items[k].option)
    requires Agree(o, i, Layout(items), 0, |Layout(items)|)
    ensures Tlvs(o, i) == OptionsOf(items) + Tlvs(o, i + |Layout(items)|)
    decreases |items|
  {
    hide Tlvs, ItemBytes, Encodable;
    if items == [] {
      assert OptionsOf(items) + Tlvs(o, i) == Tlvs(o, i);
    } else {
      hide Layout, Agree;
      LayoutStep(o, i, items);
      LayoutParsed(o, i + |ItemBytes(items[0])|, items[1..]);
      Assoc([items[0].option], OptionsOf(items[1..]), Tlvs(o, i + |Layout(items)|));
    }
  }

  /**
   Parsing inverts writing: for any options with pads between them, terminated by END
   and followed by any bytes, or ending with the buffer, exactly the options are found.
   */
  lemma {:induction false} ParseLayout(items: seq<Item>, junk: seq<byte>)
    requires forall k :: 0 <= k < |items| ==> Encodable(items[k].option)
    ensures Tlvs(Layout(items) + [END] + junk, 0) == OptionsOf(items)
    ensures Tlvs(Layout(items), 0) == OptionsOf(items)
  {
    var o := Layout(items) + [END] + junk;
    LayoutParsed(o, 0, items);
    assert o[|Layout(items)|] == END;
    assert OptionsOf(items) + [] == OptionsOf(items);
    LayoutParsed(Layout(items), 0, items);
  }

  // -------------------------------------------------- options back to back

  function Written(ts: seq<Tlv>): seq<byte> {
    if ts == [] then [] else TlvBytes(ts[0]) + Written(ts[1..])
  }

  lemma {:induction false} WrittenSnoc(ts: seq<Tlv>, t: Tlv)
    ensures Written(ts + [t]) == Written(ts) + TlvBytes(t)
  {
    hide TlvBytes;
    if ts == [] {
      assert (ts + [t])[1..] == [];
      assert Written(ts + [t]) == TlvBytes(t) + [];
    } else {
      WrittenSnoc(ts[1..], t);
      assert (ts + [t])[1..] == ts[1..] + [t];
      Assoc(TlvBytes(ts[0]), Written(ts[1..]), TlvBytes(t));
    }
  }

  function Unpadded(ts: seq<Tlv>): (items: seq<Item>)
    ensures |items| == |ts| && forall k :: 0 <= k < |ts| ==> items[k] == Item(0, ts[k])
  {
    seq(|ts|, k requires 0 <= k < |ts| => Item(0, ts[k]))
  }

  lemma {:induction false} WrittenIsLayout(ts: seq<Tlv>)
    ensures Layout(Unpadded(ts)) == Written(ts)
  {
    if ts != [] {
      hide TlvBytes;
      WrittenIsLayout(ts[1..]);
      assert Unpadded(ts)[1..] == Unpadded(ts[1..]);
      assert ItemBytes(Item(0, ts[0])) == TlvBytes(ts[0]);
    }
  }

  /** Options written back to back and closed with END are read back as they are. */
  lemma {:induction false} WrittenParsed(o: seq<byte>, i: nat, ts: seq<Tlv>)
    requires forall k :: 0 <= k < |ts| ==> Encodable(ts[k])
    requires Agree(o, i, Written(ts) + [END], 0, |Written(ts)| + 1)
    ensures Tlvs(o, i) == ts
  {
    hide Layout, Written;
    WrittenIsLayout(ts);
    AgreeParts(o, i, Written(ts), [END]);
    LayoutParsed(o, i, Unpadded(ts));
    assert o[i + |Written(ts)|] == END;
    assert OptionsOf(Unpadded(ts)) == ts;
  }

  // ------------------------------------------------------ last value wins

  /** The value of the last option with this tag that is long enough. */
  function Last(ts: seq<Tlv>, tag: byte, least: nat): (v: Option<seq<byte>>)
    ensures v.Some? ==> |v.value| >= least
  {
    if ts == [] then None
    else if Last(ts[1..], tag, least).Some? then Last(ts[1..], tag, least)
    else if ts[0].tag == tag && |ts[0].value| >= least then Some(ts[0].value)
    else None
  }

  lemma {:induction false} LastStep(t: Tlv, rest: seq<Tlv>, tag: byte, least: nat)
    ensures Last([t] + rest, tag, least) ==
      if Last(rest, tag, least).Some? then Last(rest, tag, least)
      else if t.tag == tag && |t.value| >= least then Some(t.value)
      else None
  {
    assert ([t] + rest)[1..] == rest;
  }

  /** What `Last` returns, by position: a well-sized option of the tag with no later one. */
  lemma {:induction false} LastMeans(ts: seq<Tlv>, tag: byte, least: nat)
    ensures match Last(ts, tag, least)
            case Some(v) =>
              exists k :: 0 <= k < |ts| && ts[k] == Tlv(tag, v)
                && forall j :: k < j < |ts| ==> ts[j].tag != tag || |ts[j].value| < least
            case None => forall j :: 0 <= j < |ts| ==> ts[j].tag != tag || |ts[j].value| < least
  {
    if ts != [] {
      var rest := ts[1..];
      LastMeans(rest, tag, least);
      match Last(rest, tag, least)
      case Some(v) =>
        var k :| 0 <= k < |rest| && rest[k] == Tlv(tag, v)
          && forall j :: k < j < |rest| ==> rest[j].tag != tag || |rest[j].value| < least;
        assert ts[k + 1] == Tlv(tag, v);
        forall j | k + 1 < j < |ts| ensures ts[j].tag != tag || |ts[j].value| < least {
          assert ts[j] == rest[j - 1];
        }
      case None =>
        forall j | 0 < j < |ts| ensures ts[j].tag != tag || |ts[j].value| < least {
          assert ts[j] == rest[j - 1];
        }
        if ts[0].tag == tag && |ts[0].value| >= least {
          assert ts[0] == Tlv(tag, ts[0].value);
        }
    }
  }
}
