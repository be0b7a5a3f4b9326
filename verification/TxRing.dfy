/**
 The USB transmit ring: 128 slots of 4096 bytes, filled by any number of producer
 threads and emptied by one consumer. This module holds the operations done inside
 the locked regions, as functions on the ring's fields and as the in-place code.
 */
module TxRing {
  import opened Bytes
  import Rndis

  const CAP: nat := 128
  const SLOT: nat := 4096
  const MAX_RETRIES: nat := 2

  /** The fields the lock protects: slot bytes, slot lengths, read and write index, count, retries. */
  datatype Ring = Ring(flat: seq<byte>, lens: seq<nat>, r: nat, w: nat, n: nat, retries: nat)

  predicate Shape(q: Ring) {
    |q.flat| == CAP * SLOT && |q.lens| == CAP && q.r < CAP && q.w < CAP && q.n <= CAP
  }

  /** Index of the k-th queued slot. */
  function At(q: Ring, k: nat): nat {
    (q.r + k) % CAP
  }

  predicate Valid(q: Ring) {
    && Shape(q)
    && q.w == (q.r + q.n) % CAP
    && q.retries <= MAX_RETRIES
    && forall k :: 0 <= k < q.n ==> 0 < q.lens[At(q, k)] <= SLOT
  }

  /** The record held by slot i. */
  function Record(q: Ring, i: nat): seq<byte>
    requires Shape(q) && i < CAP && q.lens[i] <= SLOT
  {
    Sub(q.flat, i * SLOT, q.lens[i])
  }

  /** The queue the ring stands for, oldest record first. */
  function Pending(q: Ring): (records: seq<seq<byte>>)
    requires Valid(q)
    ensures |records| == q.n
    ensures forall k :: 0 <= k < q.n ==> records[k] == Record(q, At(q, k))
  {
    seq(q.n, k requires 0 <= k < q.n => Record(q, At(q, k)))
  }

  // ------------------------------------------------------------- producers

  predicate Fits(eth: seq<byte>, shift: nat) {
    eth != [] && Rndis.WrapLen(|eth|, shift) <= SLOT
  }

  predicate Accepts(q: Ring, eth: seq<byte>, shift: nat) {
    q.n < CAP && Fits(eth, shift)
  }

  /** Storing a record in the slot at w. */
  function Store(q: Ring, rec: seq<byte>): (q': Ring)
    requires Shape(q) && |rec| <= SLOT
    ensures |q'.flat| == CAP * SLOT
    ensures forall k :: 0 <= k < |rec| ==> q'.flat[q.w * SLOT + k] == rec[k]
    ensures forall k :: 0 <= k < CAP * SLOT && !(q.w * SLOT <= k < q.w * SLOT + |rec|) ==> q'.flat[k] == q.flat[k]
  {
    q.(flat := q.flat[..q.w * SLOT] + rec + q.flat[q.w * SLOT + |rec|..],
       lens := q.lens[q.w := |rec|],
       w := (q.w + 1) % CAP,
       n := q.n + 1)
  }

  function Push(q: Ring, eth: seq<byte>, shift: nat): Ring
    requires Shape(q)
  {
    if Accepts(q, eth, shift) then Store(q, Rndis.Wrap(eth, shift)) else q
  }

  // ------------------------------------------------------------- consumer

  function Pop(q: Ring): Ring
    requires q.n > 0
  {
    q.(r := (q.r + 1) % CAP, n := q.n - 1)
  }

  /** A completed asynchronous write: retry on failure while retries last, else drop the head. */
  predicate Retries(q: Ring, rc: int) {
    rc != 0 && q.retries < MAX_RETRIES && q.n > 0
  }

  function Completed(q: Ring, rc: int): Ring {
    if Retries(q, rc) then q.(retries := q.retries + 1)
    else if q.n > 0 then Pop(q).(retries := 0)
    else q.(retries := 0)
  }

  /** A failed submission of slot idx may be tried once more. */
  predicate MayResubmit(q: Ring, idx: nat) {
    q.retries < MAX_RETRIES && q.n > 0 && q.r == idx
  }

  /** Giving up on slot idx after failed submissions. */
  function Dropped(q: Ring, idx: nat): Ring {
    if q.n > 0 && q.r == idx then Pop(q).(retries := 0) else q.(retries := 0)
  }

  // -------------------------------------------------- the ring is a queue

  lemma {:induction false} SlotsDisjoint(i: nat, j: nat)
    requires i != j
    ensures i * SLOT + SLOT <= j * SLOT || j * SLOT + SLOT <= i * SLOT
  {
  }

  lemma {:induction false} IndexDistinct(r: nat, j: nat, k: nat)
    requires j < k <= CAP && k - j < CAP
    ensures (r + j) % CAP != (r + k) % CAP
  {
  }

  /** A producer touches no queued slot: neither its length nor its bytes. */
  lemma {:induction false} StoreKeepsSlot(q: Ring, rec: seq<byte>, i: nat)
    requires Shape(q) && q.n < CAP && |rec| <= SLOT && i < CAP && i != q.w && q.lens[i] <= SLOT
    ensures Shape(Store(q, rec)) && Store(q, rec).lens[i] == q.lens[i]
    ensures Record(Store(q, rec), i) == Record(q, i)
  {
    var q' := Store(q, rec);
    SlotsDisjoint(i, q.w);
    forall j | i * SLOT <= j < i * SLOT + SLOT ensures q'.flat[j] == q.flat[j] {
      assert !(q.w * SLOT <= j < q.w * SLOT + |rec|);
    }
  }

  /** The slot a producer fills comes right after the queued ones and is none of them. */
  lemma {:induction false} StoreIndices(q: Ring)
    requires Valid(q) && q.n < CAP
    ensures At(q, q.n) == q.w && (q.w + 1) % CAP == At(q, q.n + 1)
    ensures forall k :: 0 <= k < q.n ==> At(q, k) != q.w
  {
    WrapAdd(q.r + q.n, 1);
    forall k | 0 <= k < q.n ensures At(q, k) != q.w {
      IndexDistinct(q.r, k, q.n);
    }
  }

  lemma {:induction false} SameReadIndex(a: Ring, b: Ring)
    requires a.r == b.r
    ensures forall k: nat :: At(a, k) == At(b, k)
  {
  }

  /** Accepting a record appends it to the queue. */
  lemma {:induction false} StoreAppends(q: Ring, rec: seq<byte>)
    requires Valid(q) && q.n < CAP && 0 < |rec| <= SLOT
    ensures Valid(Store(q, rec)) && Pending(Store(q, rec)) == Pending(q) + [rec]
  {
    var q' := Store(q, rec);
    StoreValid(q, rec);
    StoreIndices(q);
    SameReadIndex(q, q');
    hide At;
    forall k | 0 <= k < q'.n ensures Pending(q')[k] == (Pending(q) + [rec])[k] {
      if k < q.n {
        StoreKeepsSlot(q, rec, At(q, k));
      } else {
        assert Record(q', q.w) == rec;
      }
    }
  }

  lemma {:induction false} StoreValid(q: Ring, rec: seq<byte>)
    requires Valid(q) && q.n < CAP && 0 < |rec| <= SLOT
    ensures Valid(Store(q, rec))
  {
    var q' := Store(q, rec);
    StoreIndices(q);
    SameReadIndex(q, q');
    hide At;
    assert q'.w == (q.r + (q.n + 1)) % CAP by {
      WrapAdd(q.r + q.n, 1);
    }
    forall k | 0 <= k < q'.n ensures 0 < q'.lens[At(q', k)] <= SLOT {
      assert At(q', k) == At(q, k);
    }
  }

  lemma {:induction false} WrapAdd(a: nat, b: nat)
    ensures (a % CAP + b) % CAP == (a + b) % CAP
  {
    var k := a / CAP;
    assert a + b == (a % CAP + b) + CAP * k;
    ModMultiple(a % CAP + b, k);
  }

  lemma {:induction false} ModMultiple(x: nat, k: nat)
    ensures (x + CAP * k) % CAP == x % CAP
  {
    var q, r := x / CAP, x % CAP;
    assert x + CAP * k == CAP * (q + k) + r;
  }

  lemma {:induction false} PopIndices(q: Ring)
    requires Shape(q) && q.n > 0
    ensures At(q, 0) == q.r && (Pop(q).r + Pop(q).n) % CAP == (q.r + q.n) % CAP
    ensures forall k: nat :: At(Pop(q), k) == At(q, k + 1)
  {
    WrapAdd(q.r + 1, q.n - 1);
    forall k: nat ensures At(Pop(q), k) == At(q, k + 1) {
      WrapAdd(q.r + 1, k);
    }
  }

  /** Popping removes the oldest record. */
  lemma {:induction false} PopRemovesFirst(q: Ring)
    requires Valid(q) && q.n > 0
    ensures Valid(Pop(q)) && Pending(Pop(q)) == Pending(q)[1..]
    ensures 0 < q.lens[q.r] <= SLOT && Pending(q)[0] == Record(q, q.r)
  {
    var q' := Pop(q);
    PopIndices(q);
    hide At;
    assert q.lens[At(q, 0)] > 0;
    forall k | 0 <= k < q'.n ensures 0 < q'.lens[At(q', k)] <= SLOT {
      assert At(q', k) == At(q, k + 1);
    }
    assert Valid(q');
    forall k | 0 <= k < q'.n ensures Pending(q')[k] == Pending(q)[1..][k] {
      assert At(q', k) == At(q, k + 1);
      assert Record(q', At(q', k)) == Record(q, At(q, k + 1));
    }
  }

  /** What is queued does not depend on the retry counter. */
  lemma {:induction false} RetriesIrrelevant(q: Ring, m: nat)
    requires Valid(q) && m <= MAX_RETRIES
    ensures Valid(q.(retries := m)) && Pending(q.(retries := m)) == Pending(q)
  {
    var q' := q.(retries := m);
    SameReadIndex(q, q');
    hide At;
    assert forall k :: 0 <= k < q.n ==> q.lens[At(q, k)] == q'.lens[At(q', k)];
    assert forall k :: 0 <= k < q.n ==> Pending(q')[k] == Pending(q)[k];
  }

  /** One locked region of a producer. */
  lemma {:induction false} PushSpec(q: Ring, eth: seq<byte>, shift: nat)
    requires Valid(q)
    ensures Valid(Push(q, eth, shift))
    ensures Pending(Push(q, eth, shift))
         == if Accepts(q, eth, shift) then Pending(q) + [Rndis.Wrap(eth, shift)] else Pending(q)
  {
    if Accepts(q, eth, shift) {
      StoreAppends(q, Rndis.Wrap(eth, shift));
    }
  }

  /**
   For every frame of at most 2048 bytes, which is all the engine builds, a full
   ring is the only rejection; in general the limit is 4052 bytes.
   */
  lemma {:induction false} OnlyFullRejects(q: Ring, eth: seq<byte>, shift: nat)
    requires eth != []
    ensures Accepts(q, eth, shift) <==> q.n < CAP && |eth| <= 4052
    ensures |eth| <= 2048 ==> (Accepts(q, eth, shift) <==> q.n < CAP)
  {
    Rndis.FitsSlotIff(|eth|, shift);
  }
}
