/** What the invariant means to a user of the emulator, for every reachable state. */
module Guarantees {
  import opened Words
  import opened Entries
  import opened Effects
  import opened Batch
  import opened Spsc
  import opened Machine
  import opened Safety

  /** The state and history some legal schedule leads to. */
  ghost predicate Reached(s: Sys, p: Past) {
    exists n: nat, k: nat, mem: Mem, acts: seq<Action> :: ReachedBy(s, p, n, k, mem, acts)
  }

  ghost predicate ReachedBy(s: Sys, p: Past, n: nat, k: nat, mem: Mem, acts: seq<Action>) {
    && Sizes(n, k) && Legal(Start(n, k, mem), acts)
    && s == Exec(Start(n, k, mem), acts) && p == History(Start(n, k, mem), acts)
  }

  lemma ReachedIsSafe(s: Sys, p: Past)
    requires Reached(s, p)
    ensures Safety.Inv(s, p)
  {
    var n, k, mem, acts :| ReachedBy(s, p, n, k, mem, acts);
    Safe(n, k, mem, acts);
  }

  // ----- the rings -----

  /** What single-producer single-consumer safety means for one ring: the cached and shared
      indices are the wrapped images of ordered positions no further apart than the ring,
      and every item not yet released sits alone in its slot, intact. */
  ghost predicate SafeRing<T>(c: Chan<T>, t: Trace<T>) {
    var n := |c.ring.slots|;
    && 0 < n <= 0x8000_0000
    && t.pHead <= t.head <= t.cHead <= t.cTail <= t.tail <= |t.log| <= t.pHead + n
    && c.prod == View(Wrap(t.pHead), Wrap(|t.log|)) && c.cons == View(Wrap(t.cHead), Wrap(t.cTail))
    && c.ring.head == Wrap(t.head) && c.ring.tail == Wrap(t.tail)
    && WrappingSub(c.prod.tail, c.prod.head) == |t.log| - t.pHead
    && WrappingSub(c.ring.tail, c.ring.head) == t.tail - t.head
    && WrappingSub(c.cons.tail, c.cons.head) == t.cTail - t.cHead
    && (forall i: nat | t.head <= i < |t.log| ::
          && And(Wrap(i), c.ring.mask) == i % n
          && c.ring.slots[i % n] == t.log[i]
          && forall j: nat | i < j < |t.log| :: i % n != j % n)
  }

  lemma RingIsSafe<T>(c: Chan<T>, t: Trace<T>)
    requires Spsc.Inv(c, t)
    ensures SafeRing(c, t)
  {
    var n := |c.ring.slots|;
    Lengths(c, t);
    WrapDistance(t.tail, t.head);
    forall i: nat | t.head <= i < |t.log|
      ensures And(Wrap(i), c.ring.mask) == i % n && c.ring.slots[i % n] == t.log[i]
      ensures forall j: nat | i < j < |t.log| :: i % n != j % n
    {
      SlotOfPosition(i, n);
      forall j: nat | i < j < |t.log| ensures i % n != j % n { DistinctSlots(i, j, n); }
    }
  }

  /** Both rings are safe in every reachable state, for runs of any length. */
  lemma RingsAreSafe(s: Sys, p: Past)
    requires Reached(s, p)
    ensures SafeRing(s.sq, p.sq) && SafeRing(s.cq, p.cq)
  {
    ReachedIsSafe(s, p);
    RingIsSafe(s.sq, p.sq);
    RingIsSafe(s.cq, p.cq);
  }

  // ----- end to end -----

  /** The CQEs these completions ask for. */
  ghost function Visible(cds: seq<CompletionData>): seq<Cqe> {
    if cds == [] then []
    else
      var n := |cds| - 1;
      Visible(cds[..n]) + if Suppressed(cds[n]) then [] else [CqeOf(cds[n])]
  }

  /** What was posted is what was asked for, minus what was dropped. */
  lemma {:induction false} PostedIsVisible(vs: seq<Verdict>)
    requires forall i | 0 <= i < |vs| :: vs[i].fate == Skipped <==> vs[i].cd.skipSuccess && vs[i].cd.result >= 0
    ensures |PostedCqes(vs)| + Count(vs, Dropped) == |Visible(Judged(vs))|
    ensures |PostedCqes(vs)| == Count(vs, Posted)
    ensures Count(vs, Posted) + Count(vs, Dropped) + Count(vs, Skipped) == |vs|
    ensures Count(vs, Dropped) == 0 ==> PostedCqes(vs) == Visible(Judged(vs))
  {
    if vs != [] {
      var n := |vs| - 1;
      PostedIsVisible(vs[..n]);
      assert Judged(vs)[..n] == Judged(vs[..n]);
    }
  }

  /** The ring half: what the user has reaped and what is still in the ring are, together
      and in order, the completions posted; those are the visible ones of the completions
      judged, all of them if none was dropped. */
  lemma RingHalf(s: Sys, p: Past)
    requires Protocol(s, p) && Ledger(s, p)
    ensures |p.reaped| <= |p.cq.log|
    ensures p.reaped + p.cq.log[|p.reaped|..] == PostedCqes(p.verdicts)
    ensures Count(p.verdicts, Dropped) == 0 ==>
      p.reaped + p.cq.log[|p.reaped|..] == Visible(Judged(p.verdicts))
    ensures forall v | v in p.verdicts :: v.fate == Skipped <==> v.cd.skipSuccess && v.cd.result >= 0
  {
    hide Stored, Indexed, IsPow2, SubOk, PostedCqes, Count, Judged, Visible;
    PostedIsVisible(p.verdicts);
    assert p.cq.log[..p.cq.cHead] + p.cq.log[p.cq.cHead..] == p.cq.log;
  }

  /** The accounting half: the completions judged or about to be are those of the flushed
      batches, and the batches are the SQEs consumed, all in order. */
  lemma AccountingHalf(s: Sys, p: Past)
    requires Protocol(s, p) && Accounts(s, p) && Chains(s, p)
    ensures p.flushed <= |p.joined| <= |p.born| && p.sq.head <= |p.sq.log|
    ensures Judged(p.verdicts) + Todo(s.sub) == Completions(p.joined[..p.flushed])
    ensures Submitted(p.born) == p.sq.log[..p.sq.head]
    ensures forall i | 0 <= i < |p.joined| :: JoinedOk(p.born[i], p.joined[i])
  {
    hide Stored, Indexed, IsPow2, SubOk, Submitted, Completions, Judged, JoinedOk, ThreadMatches;
  }

  /** End to end: what the user has reaped and what is still in the ring are, together and
      in order, the posted completions of the flushed batches; the batches are, together
      and in order, the SQEs the submitter consumed; every batch obeyed the link rule; and
      when nothing was dropped the user loses nothing. */
  lemma EndToEnd(s: Sys, p: Past)
    requires Reached(s, p)
    ensures |p.reaped| <= |p.cq.log| && p.flushed <= |p.joined| <= |p.born| && p.sq.head <= |p.sq.log|
    ensures p.reaped + p.cq.log[|p.reaped|..] == PostedCqes(p.verdicts)
    ensures Judged(p.verdicts) + Todo(s.sub) == Completions(p.joined[..p.flushed])
    ensures Submitted(p.born) == p.sq.log[..p.sq.head]
    ensures forall i | 0 <= i < |p.joined| :: JoinedOk(p.born[i], p.joined[i])
    ensures Count(p.verdicts, Dropped) == 0 ==>
      p.reaped + p.cq.log[|p.reaped|..] == Visible(Judged(p.verdicts))
    ensures forall v | v in p.verdicts :: v.fate == Skipped <==> v.cd.skipSuccess && v.cd.result >= 0
  {
    hide Reached, Protocol, Ledger, Accounts, Chains, PostedCqes, Count, Judged, Visible, Completions, Submitted,
      JoinedOk, Todo;
    ReachedIsSafe(s, p);
    RingHalf(s, p);
    AccountingHalf(s, p);
  }

  /** When exactly a completion is dropped: the ring is full of completions the user has not
      released, as the head loaded for this very completion shows it. That head never runs
      ahead of the user. */
  lemma DroppedIffFull(s: Sys, p: Past)
    requires Reached(s, p) && s.sub.Decide?
    ensures p.cq.pHead <= p.cq.head && s.sub.todo != []
    ensures TrackSub(s, p).verdicts == p.verdicts +
      [Verdict(s.sub.todo[0], if |p.cq.log| - p.cq.pHead == |s.cq.ring.slots| then Dropped else Posted)]
  {
    hide Stored, Indexed, IsPow2, Accounts, Ledger, Chains, ProdLen;
    ReachedIsSafe(s, p);
    Lengths(s.cq, p.cq);
  }

  // ----- conservation -----

  ghost function Load(ts: seq<Thread>): nat {
    if ts == [] then 0 else Load(ts[..|ts| - 1]) + |ts[|ts| - 1].sqes|
  }

  lemma {:induction false} SplitLoad(bs: seq<Born>, js: seq<seq<CompletionData>>, ts: seq<Thread>)
    requires |bs| == |js| + |ts|
    requires forall i | 0 <= i < |ts| :: ts[i].sqes == bs[|js| + i].sqes
    ensures |Submitted(bs)| == |Submitted(bs[..|js|])| + Load(ts)
    decreases |ts|
  {
    if ts == [] {
      assert bs[..|js|] == bs;
    } else {
      var n := |bs| - 1;
      SplitLoad(bs[..n], js, ts[..|ts| - 1]);
      assert bs[..n][..|js|] == bs[..|js|];
    }
  }

  lemma {:induction false} JoinedSizes(bs: seq<Born>, js: seq<seq<CompletionData>>, k: nat)
    requires k <= |js| <= |bs|
    requires forall i | 0 <= i < |js| :: |js[i]| == |bs[i].sqes|
    ensures |Submitted(bs[..k])| == |Completions(js[..k])|
  {
    if k > 0 {
      assert bs[..k][..k - 1] == bs[..k - 1] && js[..k][..k - 1] == js[..k - 1];
      JoinedSizes(bs, js, k - 1);
    }
  }

  lemma BatchSizes(s: Sys, p: Past)
    requires Matched(s, p) && Chains(s, p)
    ensures |Submitted(p.born)| == |Completions(p.joined)| + Load(s.threads)
  {
    hide Submitted, Completions, LinkRun, ThreadOk;
    forall i | 0 <= i < |s.threads| ensures s.threads[i].sqes == p.born[|p.joined| + i].sqes {
      assert ThreadMatches(s.threads[i], p.born[|p.joined| + i]);
    }
    forall i | 0 <= i < |p.joined| ensures |p.joined[i]| == |p.born[i].sqes| {
      assert JoinedOk(p.born[i], p.joined[i]);
    }
    SplitLoad(p.born, p.joined, s.threads);
    JoinedSizes(p.born, p.joined, |p.joined|);
    assert p.joined[..|p.joined|] == p.joined;
  }

  lemma {:induction false} CompletionsAppend(js: seq<seq<CompletionData>>, ks: seq<seq<CompletionData>>)
    ensures Completions(js + ks) == Completions(js) + Completions(ks)
    decreases |ks|
  {
    if ks == [] {
      assert js + ks == js;
    } else {
      var n := |ks| - 1;
      CompletionsAppend(js, ks[..n]);
      CompletionsSnoc(js + ks[..n], ks[n]);
      assert js + ks == (js + ks[..n]) + [ks[n]];
    }
  }

  lemma NoCompletions()
    ensures Completions([]) == []
  {
  }

  /** The results thrown away with the ring: those of the batches joined by dropping it. */
  ghost function Discarded(p: Past): seq<CompletionData>
    requires p.flushed <= |p.joined|
  {
    Completions(p.joined[p.flushed..])
  }

  /** Nothing is lost and nothing is doubled: every consumed SQE is reaped, in the ring,
      dropped, skipped, waiting in the flush, in a batch not yet joined, or in a batch whose
      results went with the ring. Until the ring is dropped there are none of the last. The
      overflow counter is the number of drops modulo 2^32, and the flag tells whether there
      were any. */
  lemma Conservation(s: Sys, p: Past)
    requires Reached(s, p)
    ensures p.flushed <= |p.joined| && (!s.sub.Closing? && !s.sub.Closed? ==> Discarded(p) == [])
    ensures p.sq.head == |p.reaped| + (|p.cq.log| - p.cq.cHead)
      + Count(p.verdicts, Dropped) + Count(p.verdicts, Skipped)
      + |Todo(s.sub)| + Load(s.threads) + |Discarded(p)|
    ensures s.overflow == Wrap(Count(p.verdicts, Dropped))
    ensures !s.sub.SetFlag? ==> s.sqFlags == if Count(p.verdicts, Dropped) > 0 then 2 else 0
    ensures s.sub.SetFlag? ==> Count(p.verdicts, Dropped) > 0
  {
    hide Stored, Indexed, IsPow2, Submitted, Completions, LinkRun, ThreadMatches, PostedCqes, Count;
    ReachedIsSafe(s, p);
    PostedIsVisible(p.verdicts);
    BatchSizes(s, p);
    CompletionsAppend(p.joined[..p.flushed], p.joined[p.flushed..]);
    assert p.joined[..p.flushed] + p.joined[p.flushed..] == p.joined;
    NoCompletions();
    assert |Submitted(p.born)| == p.sq.head;
    assert |Judged(p.verdicts) + Todo(s.sub)| == |p.verdicts| + |Todo(s.sub)|;
  }

  /** When a flush returns, no batch is pending and every SQE consumed so far has its
      verdict: posted, counted as overflow, or skipped because it succeeded silently. */
  lemma FlushCompletes(s: Sys, p: Past)
    requires Reached(s, p) && s.sub.Join? && Enabled(s, SubStep) && DoSub(s).sub.Idle?
    ensures s.threads == []
    ensures |p.verdicts| == p.sq.head
    ensures Judged(p.verdicts) == Completions(p.joined) && |p.joined| == |p.born|
    ensures forall v | v in p.verdicts :: v.fate == Skipped <==> v.cd.skipSuccess && v.cd.result >= 0
  {
    ReachedIsSafe(s, p);
    Conservation(s, p);
    PostedIsVisible(p.verdicts);
    assert Judged(p.verdicts) + [] == Judged(p.verdicts);
    assert p.joined[..p.flushed] == p.joined;
  }

  /** A flush is never stuck on anything but an unfinished thread, and neither is a drop;
      once the ring is closed every batch ever spawned has been joined, once, in order. */
  lemma OnlyThreadsBlock(s: Sys, p: Past)
    requires Reached(s, p) && !s.sub.Idle? && !s.sub.Closed?
    ensures Enabled(s, SubStep) || (s.threads != [] && Enabled(s, RunSqe(0)))
  {
    hide Stored, Indexed, IsPow2, Submitted, Completions, LinkRun, ThreadMatches, PostedCqes, Count, Judged, Suppressed;
    ReachedIsSafe(s, p);
  }

  lemma ClosedJoinedAll(s: Sys, p: Past)
    requires Reached(s, p) && s.sub.Closing? && Enabled(s, SubStep) && DoSub(s).sub.Closed?
    ensures |p.joined| == |p.born|
    ensures forall i | 0 <= i < |p.born| :: JoinedOk(p.born[i], p.joined[i])
  {
    ReachedIsSafe(s, p);
  }

  // ----- when nothing overflows -----

  predicate InFlush(sub: Sub) {
    sub.Join? || sub.Post? || sub.CqTail? || sub.CqHead? || sub.Decide? || sub.StoreTail? || sub.SetFlag?
  }

  /** The CQEs still in the ring, the completions being posted and the SQEs in unjoined
      batches fit the completion queue. */
  ghost predicate Fits(s: Sys, p: Past) {
    |p.cq.log| - p.cq.head + |Todo(s.sub)| + Load(s.threads) <= |s.cq.ring.slots|
  }

  /** Every flush of the run starts with room for everything it may post. */
  ghost predicate Roomy(s0: Sys, acts: seq<Action>)
    requires WellShaped(s0) && s0.threads == [] && Legal(s0, acts)
    decreases |acts|
  {
    acts == [] || (
      var n := |acts| - 1;
      && Roomy(s0, acts[..n])
      && (!InFlush(Exec(s0, acts[..n]).sub) && InFlush(Exec(s0, acts).sub) ==>
            Fits(Exec(s0, acts), History(s0, acts))))
  }

  /** While a flush that started with room runs, the room lasts, also as the stale head
      the submitter has loaded shows it. */
  ghost predicate RoomKept(s: Sys, p: Past) {
    && Count(p.verdicts, Dropped) == 0
    && (InFlush(s.sub) ==> Fits(s, p))
    && (s.sub.Decide? ==> |p.cq.log| - p.cq.pHead + |s.sub.todo| <= |s.cq.ring.slots|)
  }

  lemma {:induction false} LoadPop(ts: seq<Thread>)
    requires ts != []
    ensures Load(ts) == |ts[0].sqes| + Load(ts[1..])
  {
    if |ts| > 1 {
      LoadPop(ts[..|ts| - 1]);
      assert ts[..|ts| - 1][1..] == ts[1..][..|ts| - 2];
    }
  }

  lemma {:induction false} LoadSame(ts: seq<Thread>, us: seq<Thread>)
    requires |ts| == |us| && forall i | 0 <= i < |ts| :: ts[i].sqes == us[i].sqes
    ensures Load(ts) == Load(us)
  {
    if ts != [] { LoadSame(ts[..|ts| - 1], us[..|us| - 1]); }
  }

  lemma RoomJoinStep(s: Sys, p: Past)
    requires Safety.Inv(s, p) && RoomKept(s, p) && Enabled(s, SubStep)
    requires s.sub.Join?
    ensures RoomKept(DoSub(s), TrackSub(s, p))
  {
    hide Stored, Indexed, IsPow2, And, Or32, Plan, Dispatch, Advance, Judged, Completions, Submitted, Suppressed,
      Peek, LinkRun, PostedCqes, Count, ConsLen, JoinedOk;
    if s.threads != [] {
      LoadPop(s.threads);
      assert ThreadMatches(s.threads[0], p.born[|p.joined|]);
    }
  }

  lemma RoomVerdictStep(s: Sys, p: Past)
    requires Safety.Inv(s, p) && RoomKept(s, p) && Enabled(s, SubStep)
    requires s.sub.Post? || s.sub.Decide?
    ensures RoomKept(DoSub(s), TrackSub(s, p))
  {
    hide Stored, Indexed, IsPow2, And, Or32, Plan, Dispatch, Advance, Judged, Completions, Submitted, Suppressed,
      Peek, LinkRun, PostedCqes, Count, ConsLen, JoinedOk;
    Lengths(s.cq, p.cq);
    if s.sub.todo != [] {
      VerdictSnoc(p.verdicts, Verdict(s.sub.todo[0], Skipped));
      VerdictSnoc(p.verdicts, Verdict(s.sub.todo[0], Posted));
    }
  }

  lemma RoomOtherStep(s: Sys, p: Past)
    requires Safety.Inv(s, p) && RoomKept(s, p) && Enabled(s, SubStep)
    requires !s.sub.Join? && !s.sub.Post? && !s.sub.Decide?
    requires !InFlush(s.sub) && InFlush(DoSub(s).sub) ==> Fits(DoSub(s), TrackSub(s, p))
    ensures RoomKept(DoSub(s), TrackSub(s, p))
  {
    hide Safety.Accounts, Safety.Ledger, Safety.Chains, Stored, Indexed, IsPow2, And, Or32, Plan, Dispatch, Peek, Count;
  }

  lemma RoomStep(s: Sys, p: Past, a: Action)
    requires Safety.Inv(s, p) && RoomKept(s, p) && Enabled(s, a)
    requires Safety.Inv(Do(s, a), Track(s, p, a))
    requires !InFlush(s.sub) && InFlush(Do(s, a).sub) ==> Fits(Do(s, a), Track(s, p, a))
    ensures RoomKept(Do(s, a), Track(s, p, a))
  {
    hide Stored, Indexed, IsPow2, And, Or32, Plan, Dispatch, Advance, Judged, Completions, Submitted, Suppressed,
      Peek, LinkRun, PostedCqes, Count, ConsLen, ProdLen, DoSub, TrackSub, Safety.Accounts, Safety.Ledger, Safety.Chains, SubOk;
    match a
    case SubStep =>
      match s.sub {
        case Join => RoomJoinStep(s, p);
        case Post(_) => RoomVerdictStep(s, p);
        case Decide(_) => RoomVerdictStep(s, p);
        case _ => RoomOtherStep(s, p);
      }
    case RunSqe(i) => RunKeepsLoad(s, i);
    case _ =>
  }

  lemma RunKeepsLoad(s: Sys, i: nat)
    requires i < |s.threads| && !Done(s.threads[i])
    ensures Load(s.threads[i := Advance(s.threads[i], s.mem)]) == Load(s.threads)
  {
    LoadSame(s.threads[i := Advance(s.threads[i], s.mem)], s.threads);
  }

  /** If the completion queue has room for everything each time a flush starts, nothing is
      ever dropped: the counter stays 0 and the flag clear. */
  lemma {:induction false} NoOverflow(n: nat, k: nat, mem: Mem, acts: seq<Action>)
    requires Sizes(n, k) && Legal(Start(n, k, mem), acts) && Roomy(Start(n, k, mem), acts)
    ensures var s, p := Exec(Start(n, k, mem), acts), History(Start(n, k, mem), acts);
      RoomKept(s, p) && s.overflow == 0 && s.sqFlags == 0
    decreases |acts|
  {
    var s0 := Start(n, k, mem);
    Safe(n, k, mem, acts);
    if acts != [] {
      var m := |acts| - 1;
      NoOverflow(n, k, mem, acts[..m]);
      Safe(n, k, mem, acts[..m]);
      RoomStep(Exec(s0, acts[..m]), History(s0, acts[..m]), acts[m]);
    }
  }

  /** With the default completion queue, twice the submission queue, two batches started
      from a drained ring always fit. */
  lemma TwoBatchesFit(s: Sys, p: Past)
    requires Reached(s, p) && |s.cq.ring.slots| == 2 * |s.sq.ring.slots|
    requires |s.threads| <= 2 && Todo(s.sub) == [] && p.cq.head == |p.cq.log|
    ensures Fits(s, p)
  {
    ReachedIsSafe(s, p);
    forall i | 0 <= i < |s.threads| ensures |s.threads[i].sqes| <= |s.sq.ring.slots| {
      assert ThreadMatches(s.threads[i], p.born[|p.joined| + i]);
    }
    if |s.threads| == 2 { assert s.threads[..1] == [s.threads[0]]; }
    if |s.threads| > 0 { LoadPop(s.threads); }
    if |s.threads| == 2 { LoadPop(s.threads[1..]); assert Load(s.threads[1..][1..]) == 0; }
  }
}
