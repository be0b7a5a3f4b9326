/** Octets, byte order and the few sequence facts that every other module uses. */
module Bytes {

  datatype Option<+T> = None | Some(value: T)

  type byte = x: int | 0 <= x < 256
  type u32 = x: int | 0 <= x < 0x1_0000_0000

  const U32: nat := 0x1_0000_0000

  function Zeros(n: nat): (z: seq<byte>)
    ensures |z| == n && forall k :: 0 <= k < n ==> z[k] == 0
  {
    seq(n, _ => 0)
  }

  /** The len bytes of b from `off` on, that is b[off..off + len]. */
  function Sub(b: seq<byte>, off: nat, len: nat): (s: seq<byte>)
    requires off + len <= |b|
    ensures |s| == len && forall k :: 0 <= k < len ==> s[k] == b[off + k]
  {
    seq(len, k requires 0 <= k < len => b[off + k])
  }

  /** The bytes of `a` from i on and of `b` from j on agree for n positions. */
  ghost predicate Agree(a: seq<byte>, i: nat, b: seq<byte>, j: nat, n: nat) {
    i + n <= |a| && j + n <= |b| && forall k :: i <= k < i + n ==> a[k] == b[k - i + j]
  }

  lemma {:induction false} AgreeTail(a: seq<byte>, i: nat, b: seq<byte>, j: nat, n: nat, d: nat)
    requires Agree(a, i, b, j, n) && d <= n
    ensures Agree(a, i + d, b, j + d, n - d)
  {
  }

  lemma {:induction false} AgreeSub(a: seq<byte>, i: nat, b: seq<byte>, j: nat, n: nat)
    requires Agree(a, i, b, j, n)
    ensures Sub(a, i, n) == Sub(b, j, n)
  {
  }

  /** Little-endian 32-bit fields, as RNDIS uses. */
  function Le32(v: u32): (b: seq<byte>)
    ensures |b| == 4
  {
    [v % 256, v / 256 % 256, v / 65536 % 256, v / 16777216]
  }

  function RdLe32(b: seq<byte>, at: nat): (v: nat)
    requires at + 4 <= |b|
    ensures v < U32
  {
    b[at] + 256 * (b[at + 1] as int) + 65536 * (b[at + 2] as int) + 16777216 * (b[at + 3] as int)
  }

  lemma {:induction false} Le32RoundTrip(v: u32, pre: seq<byte>, post: seq<byte>)
    ensures RdLe32(pre + Le32(v) + post, |pre|) == v
  {
    var b := pre + Le32(v) + post;
    assert b[|pre|] == v % 256 && b[|pre| + 1] == v / 256 % 256;
    assert b[|pre| + 2] == v / 65536 % 256 && b[|pre| + 3] == v / 16777216;
    assert v == v % 256 + 256 * (v / 256);
    assert v / 256 == v / 256 % 256 + 256 * (v / 65536);
    assert v / 65536 == v / 65536 % 256 + 256 * (v / 16777216);
  }

  /** Network-order fields, as IP and DHCP use. */
  function Be16(hi: byte, lo: byte): (v: nat)
    ensures v < 65536
  {
    256 * hi + lo
  }

  function RdBe32(b: seq<byte>, at: nat): (v: nat)
    requires at + 4 <= |b|
    ensures v < U32
  {
    16777216 * (b[at] as int) + 65536 * (b[at + 1] as int) + 256 * (b[at + 2] as int) + b[at + 3]
  }

  /** Regrouping, for the sequence proofs that need it spelt out. */
  lemma {:induction false} Assoc<T>(a: seq<T>, b: seq<T>, c: seq<T>)
    ensures (a + b) + c == a + (b + c)
  {
  }

  /** b with v written from position `at` on. */
  function Patch(b: seq<byte>, at: nat, v: seq<byte>): (r: seq<byte>)
    requires at + |v| <= |b|
    ensures |r| == |b|
    ensures forall k :: 0 <= k < |b| ==> r[k] == if at <= k < at + |v| then v[k - at] else b[k]
  {
    seq(|b|, k requires 0 <= k < |b| => if at <= k < at + |v| then v[k - at] else b[k])
  }

  /** Two adjacent writes are one. */
  lemma {:induction false} PatchJoin(b: seq<byte>, at: nat, u: seq<byte>, v: seq<byte>)
    requires at + |u| + |v| <= |b|
    ensures Patch(Patch(b, at, u), at + |u|, v) == Patch(b, at, u + v)
  {
  }

  /** A write inside an earlier one changes what that one wrote. */
  lemma {:induction false} PatchOver(b: seq<byte>, s: seq<byte>, at: nat, v: seq<byte>)
    requires |s| <= |b| && at + |v| <= |s|
    ensures Patch(Patch(b, 0, s), at, v) == Patch(b, 0, Patch(s, at, v))
  {
  }

  lemma {:induction false} PatchBehind(s: seq<byte>, at: nat, v: seq<byte>, pre: seq<byte>, post: seq<byte>)
    requires at + |v| <= |s|
    ensures pre + Patch(s, at, v) == Patch(pre + s, |pre| + at, v)
    ensures Patch(s, at, v) + post == Patch(s + post, at, v)
  {
  }

  lemma {:induction false} MiddleAgrees(s: seq<byte>, pre: seq<byte>, post: seq<byte>,
                                        pre': seq<byte>, post': seq<byte>)
    ensures Agree(pre + s + post, |pre|, pre' + s + post', |pre'|, |s|)
  {
    var a, b := pre + s + post, pre' + s + post';
    forall k | |pre| <= k < |pre| + |s| ensures a[k] == b[k - |pre| + |pre'|] {
      assert a[k] == s[k - |pre|] == b[k - |pre| + |pre'|];
    }
  }

  method Copy(a: array<byte>, at: nat, v: seq<byte>)
    requires at + |v| <= a.Length
    modifies a
    ensures a[..] == Patch(old(a[..]), at, v)
  {
    var i := 0;
    while i < |v|
      invariant 0 <= i <= |v|
      invariant forall k :: 0 <= k < a.Length ==> a[k] == if at <= k < at + i then v[k - at] else old(a[k])
    {
      a[at + i] := v[i];
      i := i + 1;
    }
  }

  /** Flattening a list of byte strings. */
  function Concat(parts: seq<seq<byte>>): seq<byte> {
    if parts == [] then [] else parts[0] + Concat(parts[1..])
  }
}
