/** The completion ring of a running emulator as the bytes it is made of. The submitter posts
    through a stride; readers see entries of their own type. */
module ErasedRings {
  import opened Words
  import opened Entries
  import opened Effects
  import opened Spsc
  import opened Batch
  import opened Machine
  import opened Safety
  import opened Guarantees
  import opened CqeLayouts

  /** The action writes a completion into the ring. */
  predicate Posts(s: Sys, a: Action) { a.SubStep? && s.sub.Decide? && ProdLen(s.cq) < |s.cq.ring.slots| }

  /** The bytes one action leaves: those of a slot are written when a completion is posted,
      and nothing else in the emulator writes the array. */
  ghost function BytesAfter(b: seq<byte>, stride: nat, s: Sys, a: Action): (r: seq<byte>)
    requires IsStride(stride) && WellShaped(s) && Enabled(s, a) && |b| == |s.cq.ring.slots| * stride
    ensures |r| == |b|
  {
    if Posts(s, a) then
      var i := And(s.cq.prod.tail, s.cq.ring.mask);
      SlotFits(i, |s.cq.ring.slots|, stride);
      Patch(b, i * stride, CqeBytes(CqeOf(s.sub.todo[0])) + seq(stride - 16, _ => 0))
    else b
  }

  /** The array along a run, from all zeroes. */
  ghost function RingBytes(s0: Sys, stride: nat, acts: seq<Action>): (b: seq<byte>)
    requires IsStride(stride) && WellShaped(s0) && Legal(s0, acts)
    ensures |b| == |s0.cq.ring.slots| * stride
    decreases |acts|
  {
    if acts == [] then seq(|s0.cq.ring.slots| * stride, _ => 0)
    else
      var n := |acts| - 1;
      BytesAfter(RingBytes(s0, stride, acts[..n]), stride, Exec(s0, acts[..n]), acts[n])
  }

  /** The bytes, read as entries, are the completions of the ring, extended by zeroes. */
  ghost predicate Shows(b: seq<byte>, stride: nat, slots: seq<Cqe>) {
    && IsStride(stride) && |b| == |slots| * stride
    && Typed(b, stride, |slots|) == seq(|slots|, i requires 0 <= i < |slots| => EntryFor(slots[i], stride))
  }

  lemma PostShows(b: seq<byte>, stride: nat, slots: seq<Cqe>, i: nat, c: Cqe)
    requires Shows(b, stride, slots) && i < |slots|
    ensures i * stride + stride <= |b|
    ensures Shows(Patch(b, i * stride, CqeBytes(c) + seq(stride - 16, _ => 0)), stride, slots[i := c])
  {
    hide Typed, Patch, CqeBytes;
    PatchIsUpdate(b, stride, |slots|, i, c);
  }

  lemma OnlyPostsWrite(s: Sys, a: Action)
    requires WellShaped(s) && Enabled(s, a)
    ensures Do(s, a).cq.ring.slots ==
      if Posts(s, a) then s.cq.ring.slots[And(s.cq.prod.tail, s.cq.ring.mask) := CqeOf(s.sub.todo[0])]
      else s.cq.ring.slots
  {
    hide And, IsPow2, Advance, StepEffect, Suppressed, Peek, Or32, WrappingSub, WrappingAdd;
  }

  /** In every run the bytes are those of the typed ring. */
  lemma {:induction false} BytesShowRing(n: nat, k: nat, mem: Mem, acts: seq<Action>, stride: nat)
    requires IsStride(stride) && Sizes(n, k) && Legal(Start(n, k, mem), acts)
    ensures Shows(RingBytes(Start(n, k, mem), stride, acts), stride, Exec(Start(n, k, mem), acts).cq.ring.slots)
    decreases |acts|
  {
    hide Do, And, IsPow2, Typed, Patch, CqeBytes;
    var s0 := Start(n, k, mem);
    if acts == [] {
      ZeroesShow(k, stride);
    } else {
      var m := |acts| - 1;
      var s, a, b := Exec(s0, acts[..m]), acts[m], RingBytes(s0, stride, acts[..m]);
      BytesShowRing(n, k, mem, acts[..m], stride);
      OnlyPostsWrite(s, a);
      if Posts(s, a) {
        PostShows(b, stride, s.cq.ring.slots, And(s.cq.prod.tail, s.cq.ring.mask), CqeOf(s.sub.todo[0]));
      }
    }
  }

  lemma ZeroesShow(k: nat, stride: nat)
    requires IsStride(stride)
    ensures Shows(seq(k * stride, _ => 0), stride, seq(k, _ => ZERO_CQE))
  {
    hide EntryOf;
    var b := seq(k * stride, _ => 0);
    forall i | 0 <= i < k ensures Typed(b, stride, k)[i] == EntryFor(ZERO_CQE, stride) {
      SlotFits(i, k, stride);
      ZeroEntry(stride);
      assert SlotBytes(b, stride, k, i) == seq(stride, _ => 0);
    }
  }

  lemma ShowsAt(b: seq<byte>, stride: nat, slots: seq<Cqe>, i: nat)
    requires Shows(b, stride, slots) && i < |slots|
    ensures EntryOf(SlotBytes(b, stride, |slots|, i)) == EntryFor(slots[i], stride)
  {
    hide EntryOf, SlotBytes, EntryFor;
    assert Typed(b, stride, |slots|)[i] == EntryFor(slots[i], stride);
  }

  lemma NextReaped(s: Sys, p: Past)
    requires Safety.Inv(s, p) && p.cq.cHead < p.cq.cTail
    ensures And(s.cq.cons.head, s.cq.ring.mask) < |s.cq.ring.slots| && p.cq.cHead < |PostedCqes(p.verdicts)|
    ensures s.cq.ring.slots[And(s.cq.cons.head, s.cq.ring.mask)] == PostedCqes(p.verdicts)[p.cq.cHead]
  {
    hide PostedCqes, Accounts, Chains, Stored, IsPow2, SubOk, And;
    PeekInv(s.cq, p.cq);
  }

  /** So in every reachable state, whatever the user pops next, read through its own entry
      type out of the bytes, has the base fields that were posted for it and, on a ring of
      32-byte entries, a zero `big_cqe`. */
  lemma ReapedAsPosted(n: nat, k: nat, mem: Mem, acts: seq<Action>, stride: nat)
    requires IsStride(stride) && Sizes(n, k) && Legal(Start(n, k, mem), acts)
    ensures var s, p := Exec(Start(n, k, mem), acts), History(Start(n, k, mem), acts);
      var slot := And(s.cq.cons.head, s.cq.ring.mask);
      p.cq.cHead < p.cq.cTail ==>
        && slot < k && p.cq.cHead < |PostedCqes(p.verdicts)|
        && EntryOf(SlotBytes(RingBytes(Start(n, k, mem), stride, acts), stride, k, slot))
          == Entry(PostedCqes(p.verdicts)[p.cq.cHead], if stride == 32 then [0, 0] else [])
  {
    hide Do, And, Shows, EntryOf, SlotBytes, RingBytes, PostedCqes, Safety.Inv, Exec, History, Legal, IsPow2;
    var s, p := Exec(Start(n, k, mem), acts), History(Start(n, k, mem), acts);
    Safe(n, k, mem, acts);
    BytesShowRing(n, k, mem, acts, stride);
    if p.cq.cHead < p.cq.cTail {
      NextReaped(s, p);
      ShowsAt(RingBytes(Start(n, k, mem), stride, acts), stride, s.cq.ring.slots, And(s.cq.cons.head, s.cq.ring.mask));
    }
  }
}
