/** One ring between a single producer and a single consumer. Both rings of the emulator
    are instances: the user produces and the submitter consumes SQEs, the submitter
    produces and the user consumes CQEs. Each side works on its own cached copies of the
    two indices, which may lag behind or run ahead of the shared ones. */
module Spsc {
  import opened Words

  /** The shared memory: the slots, the mask, and the two shared indices. */
  datatype Ring<T> = Ring(slots: seq<T>, mask: u32, head: u32, tail: u32)

  /** The indices one side has cached. */
  datatype View = View(head: u32, tail: u32)

  /** The ring together with what the producer and the consumer have cached. */
  datatype Chan<T> = Chan(ring: Ring<T>, prod: View, cons: View)

  predicate Shaped<T>(r: Ring<T>) {
    IsPow2(|r.slots|) && |r.slots| <= 0x8000_0000 && r.mask == |r.slots| - 1
  }

  // ----- the concrete steps; each touches at most one shared word -----

  function ProdLen<T>(c: Chan<T>): u32 { WrappingSub(c.prod.tail, c.prod.head) }

  function ConsLen<T>(c: Chan<T>): u32 { WrappingSub(c.cons.tail, c.cons.head) }

  function Put<T>(c: Chan<T>, x: T): (d: Chan<T>)
    requires Shaped(c.ring)
    ensures Shaped(d.ring) && |d.ring.slots| == |c.ring.slots|
  {
    c.(ring := c.ring.(slots := c.ring.slots[And(c.prod.tail, c.ring.mask) := x]),
       prod := c.prod.(tail := WrappingAdd(c.prod.tail, 1)))
  }

  function Publish<T>(c: Chan<T>): Chan<T> { c.(ring := c.ring.(tail := c.prod.tail)) }

  function SeeHead<T>(c: Chan<T>): Chan<T> { c.(prod := c.prod.(head := c.ring.head)) }

  function ReloadTail<T>(c: Chan<T>): Chan<T> { c.(prod := c.prod.(tail := c.ring.tail)) }

  function Peek<T>(c: Chan<T>): T
    requires Shaped(c.ring)
  {
    c.ring.slots[And(c.cons.head, c.ring.mask)]
  }

  function Take<T>(c: Chan<T>): Chan<T> {
    c.(cons := c.cons.(head := WrappingAdd(c.cons.head, 1)))
  }

  function Release<T>(c: Chan<T>): Chan<T> { c.(ring := c.ring.(head := c.cons.head)) }

  function SeeTail<T>(c: Chan<T>): Chan<T> { c.(cons := c.cons.(tail := c.ring.tail)) }

  function ReloadHead<T>(c: Chan<T>): Chan<T> { c.(cons := c.cons.(head := c.ring.head)) }

  // ----- the same history on unbounded positions -----

  /** `log` is everything ever put; the other fields are the positions of the shared
      indices (head, tail), of the producer's cached head, and of the consumer's cached
      head and tail. The producer's cached tail is |log|. */
  datatype Trace<T> = Trace(log: seq<T>, pHead: nat, head: nat, cHead: nat, cTail: nat, tail: nat)

  ghost predicate Ordered<T>(n: nat, t: Trace<T>) {
    t.pHead <= t.head <= t.cHead <= t.cTail <= t.tail <= |t.log| <= t.pHead + n
  }

  ghost predicate Indexed<T>(c: Chan<T>, t: Trace<T>) {
    && c.ring.head == Wrap(t.head) && c.ring.tail == Wrap(t.tail)
    && c.prod == View(Wrap(t.pHead), Wrap(|t.log|))
    && c.cons == View(Wrap(t.cHead), Wrap(t.cTail))
  }

  /** The last `n` items put are the ones the slots hold. */
  ghost predicate Stored<T>(c: Chan<T>, t: Trace<T>)
    requires |c.ring.slots| > 0
  {
    forall i: nat | i < |t.log| <= i + |c.ring.slots| ::
      c.ring.slots[i % |c.ring.slots|] == t.log[i]
  }

  ghost predicate Inv<T>(c: Chan<T>, t: Trace<T>) {
    && Shaped(c.ring)
    && Ordered(|c.ring.slots|, t)
    && Indexed(c, t)
    && Stored(c, t)
  }

  // ----- what every step keeps -----

  /** The wrapped difference of the cached indices is the true number of items. */
  lemma Lengths<T>(c: Chan<T>, t: Trace<T>)
    requires Inv(c, t)
    ensures ProdLen(c) == |t.log| - t.pHead <= |c.ring.slots|
    ensures ConsLen(c) == t.cTail - t.cHead <= |c.ring.slots|
    ensures c.cons.head == c.cons.tail <==> t.cHead == t.cTail
  {
    WrapDistance(|t.log|, t.pHead);
    WrapDistance(t.cTail, t.cHead);
  }

  /** A put that the full check let through overwrites only a slot the consumer has
      released, and appends to the queue. */
  lemma PutInv<T>(c: Chan<T>, t: Trace<T>, x: T)
    requires Inv(c, t) && |t.log| < t.pHead + |c.ring.slots|
    ensures Inv(Put(c, x), t.(log := t.log + [x]))
    ensures forall i | t.head <= i < |t.log| :: i % |c.ring.slots| != |t.log| % |c.ring.slots|
  {
    var n, at := |c.ring.slots|, |t.log|;
    SlotOfPosition(at, n);
    WrapSucc(at);
    forall i: nat | i < at < i + n ensures i % n != at % n { DistinctSlots(i, at, n); }
  }

  /** What the consumer reads is the item at its position, never an unwritten slot. */
  lemma PeekInv<T>(c: Chan<T>, t: Trace<T>)
    requires Inv(c, t) && t.cHead < t.cTail
    ensures Peek(c) == t.log[t.cHead]
    ensures Inv(Take(c), t.(cHead := t.cHead + 1))
  {
    SlotOfPosition(t.cHead, |c.ring.slots|);
    WrapSucc(t.cHead);
  }

  /** Every item the producer may still look back on sits in the slot its index selects. */
  lemma SlotHolds<T>(c: Chan<T>, t: Trace<T>, at: nat)
    requires Inv(c, t) && t.pHead <= at < |t.log|
    ensures And(Wrap(at), c.ring.mask) < |c.ring.slots| && c.ring.slots[And(Wrap(at), c.ring.mask)] == t.log[at]
  {
    SlotOfPosition(at, |c.ring.slots|);
  }

  lemma PublishInv<T>(c: Chan<T>, t: Trace<T>)
    requires Inv(c, t)
    ensures Inv(Publish(c), t.(tail := |t.log|))
  {
  }

  lemma SeeHeadInv<T>(c: Chan<T>, t: Trace<T>)
    requires Inv(c, t)
    ensures Inv(SeeHead(c), t.(pHead := t.head))
  {
  }

  lemma ReleaseInv<T>(c: Chan<T>, t: Trace<T>)
    requires Inv(c, t)
    ensures Inv(Release(c), t.(head := t.cHead))
  {
  }

  lemma SeeTailInv<T>(c: Chan<T>, t: Trace<T>)
    requires Inv(c, t)
    ensures Inv(SeeTail(c), t.(cTail := t.tail))
  {
  }

  /** Reloading an index that its only writer has already published changes nothing. */
  lemma ReloadsAreStable<T>(c: Chan<T>, t: Trace<T>)
    requires Inv(c, t)
    ensures t.tail == |t.log| ==> ReloadTail(c) == c
    ensures t.head == t.cHead ==> ReloadHead(c) == c
  {
  }

  /** A zero-filled ring is a valid start. */
  lemma InitInv<T>(r: Ring<T>)
    requires Shaped(r) && r.head == r.tail == 0
    ensures Inv(Chan(r, View(0, 0), View(0, 0)), Trace([], 0, 0, 0, 0, 0))
  {
  }

  // ----- several items at once -----

  /** Pushing entries one at a time, stopping at the first refusal. */
  function PushEach<T>(c: Chan<T>, xs: seq<T>): (r: (Chan<T>, bool))
    requires Shaped(c.ring)
    decreases |xs|
  {
    if xs == [] then (c, true)
    else if ProdLen(c) == |c.ring.slots| then (c, false)
    else PushEach(Put(c, xs[0]), xs[1..])
  }

  /** The unchecked loop of `push_multiple`. */
  function PutAll<T>(c: Chan<T>, xs: seq<T>): Chan<T>
    requires Shaped(c.ring)
    decreases |xs|
  {
    if xs == [] then c else PutAll(Put(c, xs[0]), xs[1..])
  }

  /** `push_multiple`: one capacity check, then the unchecked loop. */
  function PushMultiple<T>(c: Chan<T>, xs: seq<T>): (Chan<T>, bool)
    requires Shaped(c.ring)
  {
    if |c.ring.slots| - ProdLen(c) < |xs| then (c, false) else (PutAll(c, xs), true)
  }

  /** `push_multiple` succeeds iff every single push would, and then leaves the same
      state; otherwise it changes nothing. Its capacity check never underflows. */
  lemma {:induction false} PushMultipleIsFold<T>(c: Chan<T>, t: Trace<T>, xs: seq<T>)
    requires Inv(c, t)
    ensures ProdLen(c) <= |c.ring.slots|
    ensures PushMultiple(c, xs).1 == PushEach(c, xs).1 == (|t.log| - t.pHead + |xs| <= |c.ring.slots|)
    ensures PushMultiple(c, xs).1 ==>
      PushMultiple(c, xs).0 == PushEach(c, xs).0 && Inv(PushMultiple(c, xs).0, t.(log := t.log + xs))
    ensures !PushMultiple(c, xs).1 ==> PushMultiple(c, xs).0 == c
    decreases |xs|
  {
    Lengths(c, t);
    if xs == [] {
      assert t.log + xs == t.log;
    } else if ProdLen(c) < |c.ring.slots| {
      PutInv(c, t, xs[0]);
      var t' := t.(log := t.log + [xs[0]]);
      PushMultipleIsFold(Put(c, xs[0]), t', xs[1..]);
      Lengths(Put(c, xs[0]), t');
      assert t'.log + xs[1..] == t.log + xs;
    }
  }

  /** `k` calls of `next`: the items returned and the state after. */
  function Nexts<T>(c: Chan<T>, k: nat): (r: (seq<T>, Chan<T>))
    requires Shaped(c.ring)
    decreases k
  {
    if k == 0 || c.cons.head == c.cons.tail then ([], c)
    else var (xs, d) := Nexts(Take(c), k - 1); ([Peek(c)] + xs, d)
  }

  function Min(a: nat, b: nat): nat { if a <= b then a else b }

  lemma NextsUnfold<T>(c: Chan<T>, k: nat)
    requires Shaped(c.ring)
    ensures k == 0 || c.cons.head == c.cons.tail ==> Nexts(c, k) == ([], c)
    ensures k > 0 && c.cons.head != c.cons.tail ==>
      Nexts(c, k) == ([Peek(c)] + Nexts(Take(c), k - 1).0, Nexts(Take(c), k - 1).1)
  {
  }

  /** `k` calls of `next` return the oldest min(k, len) items in order, wherever the
      indices wrap; so exhausting the iterator takes exactly `len` calls. */
  lemma {:induction false} NextsAreThePrefix<T>(c: Chan<T>, t: Trace<T>, k: nat, m: nat)
    requires Inv(c, t) && m == Min(k, t.cTail - t.cHead)
    ensures Nexts(c, k).0 == t.log[t.cHead..t.cHead + m]
    ensures Inv(Nexts(c, k).1, t.(cHead := t.cHead + m))
    ensures m == Min(k, ConsLen(c))
    ensures (Nexts(c, k).1.cons.head == c.cons.tail) == (k >= ConsLen(c))
    decreases k
  {
    hide Stored, Indexed, And, Shaped, ConsLen, Nexts;
    Lengths(c, t);
    NextsUnfold(c, k);
    if k > 0 && t.cHead < t.cTail {
      PeekInv(c, t);
      var d, t' := Take(c), t.(cHead := t.cHead + 1);
      Lengths(d, t');
      NextsAreThePrefix(d, t', k - 1, m - 1);
      assert [t.log[t.cHead]] + t.log[t.cHead + 1..t.cHead + m] == t.log[t.cHead..t.cHead + m];
    }
  }

  lemma {:induction false} NextsKeepRing<T>(c: Chan<T>, k: nat)
    requires Shaped(c.ring)
    ensures Nexts(c, k).1.ring == c.ring
    decreases k
  {
    NextsUnfold(c, k);
    if k > 0 && c.cons.head != c.cons.tail { NextsKeepRing(Take(c), k - 1); }
  }

  /** `fill` on a buffer of size k is k calls of `next`: any queue state that is `m` items
      further along in the same ring, m being the smaller of k and the length, is the state
      those calls leave. */
  lemma FillIsNexts<T>(c: Chan<T>, t: Trace<T>, k: nat, m: nat, d: Chan<T>)
    requires Inv(c, t) && m == Min(k, t.cTail - t.cHead)
    requires d.ring == c.ring && Inv(d, t.(cHead := t.cHead + m))
    ensures Nexts(c, k) == (t.log[t.cHead..t.cHead + m], d)
  {
    hide Nexts, Stored, And;
    NextsAreThePrefix(c, t, k, m);
    NextsKeepRing(c, k);
  }
}
