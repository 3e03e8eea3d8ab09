/** The completion stream under concurrency: what the user reaps does not depend on how the
    background threads were scheduled. */
module Streams {
  import opened Words
  import opened Entries
  import opened Effects
  import opened Batch
  import opened Spsc
  import opened Machine
  import opened Safety
  import opened Guarantees
  import opened Schedules

  /** What every batch would have recorded, run whole at the moment it was submitted. */
  ghost function Foretold(bs: seq<Born>): seq<seq<CompletionData>> {
    seq(|bs|, i requires 0 <= i < |bs| => Results(bs[i].sqes, Foreseen(bs[i])))
  }

  lemma {:induction false} CompletionsTake(js: seq<seq<CompletionData>>, k: nat)
    requires k <= |js|
    ensures Completions(js[..k]) <= Completions(js)
    decreases |js|
  {
    if k < |js| {
      CompletionsTake(js[..|js| - 1], k);
      assert js[..|js| - 1][..k] == js[..k];
    } else {
      assert js[..k] == js;
    }
  }

  /** The part of a reference the flushes have dealt with, and what they made of it. */
  ghost predicate Streamed(s: Sys, p: Past, reference: seq<seq<CompletionData>>) {
    var all := Completions(reference);
    && |p.verdicts| <= |all| && Judged(p.verdicts) == all[..|p.verdicts|]
    && |p.cq.log| + Count(p.verdicts, Dropped) == |Visible(all[..|p.verdicts|])|
    && (Count(p.verdicts, Dropped) == 0 ==> p.cq.log == Visible(all[..|p.verdicts|]))
    && (s.sub.Idle? && s.threads == [] ==> |p.verdicts| == |all|)
  }

  lemma StreamOf(s: Sys, p: Past, reference: seq<seq<CompletionData>>)
    requires Reached(s, p) && |p.joined| <= |reference| && p.joined == reference[..|p.joined|]
    requires s.threads == [] ==> p.joined == reference
    ensures Streamed(s, p, reference)
  {
    hide Stored, Indexed, Completions, Chains, PostedCqes, Visible, Count;
    ReachedIsSafe(s, p);
    PostedIsVisible(p.verdicts);
    var all := Completions(reference);
    assert p.joined[..p.flushed] == reference[..p.flushed];
    CompletionsTake(reference, p.flushed);
    var done := Judged(p.verdicts);
    assert done <= done + Todo(s.sub) <= all;
    assert |done| == |p.verdicts| && done == all[..|p.verdicts|];
    if s.sub.Idle? && s.threads == [] {
      assert reference[..p.flushed] == reference && done + [] == done;
    }
  }

  /** In every quiet run the posted stream is, batch after batch, what each would have
      recorded run whole at its submission, without the silent successes; completions
      dropped on a full queue are all that can be missing. */
  lemma StreamIsAtomic(n: nat, k: nat, mem: Mem, acts: seq<Action>)
    requires Sizes(n, k) && Legal(Start(n, k, mem), acts) && QuietRun(Start(n, k, mem), acts)
    ensures var s, p := Exec(Start(n, k, mem), acts), History(Start(n, k, mem), acts);
      Streamed(s, p, Foretold(p.born))
  {
    hide Do, Track, Legal, Exec, History, Streamed, Results, Foreseen;
    var s0 := Start(n, k, mem);
    var s, p := Exec(s0, acts), History(s0, acts);
    assert ReachedBy(s, p, n, k, mem, acts);
    ResultsAreAtomic(s0, acts);
    var reference := Foretold(p.born);
    assert p.joined == reference[..|p.joined|];
    StreamOf(s, p, reference);
  }

  /** Two isolated runs of the same submissions and user writes that end with nothing
      pending, and neither of which dropped anything, posted the same CQEs in the same
      order and left the same memory, whatever their schedules and flushes. */
  lemma StreamsAgree(n: nat, k: nat, mem: Mem, acts: seq<Action>, acts': seq<Action>)
    requires Sizes(n, k)
    requires Legal(Start(n, k, mem), acts) && IsolatedRun(Start(n, k, mem), acts)
    requires Legal(Start(n, k, mem), acts') && IsolatedRun(Start(n, k, mem), acts')
    requires Exec(Start(n, k, mem), acts).threads == [] && Exec(Start(n, k, mem), acts).sub.Idle?
    requires Exec(Start(n, k, mem), acts').threads == [] && Exec(Start(n, k, mem), acts').sub.Idle?
    requires Script(Start(n, k, mem), acts) == Script(Start(n, k, mem), acts')
    requires Count(History(Start(n, k, mem), acts).verdicts, Dropped) == 0
    requires Count(History(Start(n, k, mem), acts').verdicts, Dropped) == 0
    ensures History(Start(n, k, mem), acts).cq.log == History(Start(n, k, mem), acts').cq.log
    ensures Exec(Start(n, k, mem), acts).mem == Exec(Start(n, k, mem), acts').mem
  {
    hide Do, Track, Legal, Exec, History, Script, Replay, IsolatedRun;
    SchedulesAgree(Start(n, k, mem), acts, acts');
    StreamAtRest(n, k, mem, acts);
    StreamAtRest(n, k, mem, acts');
  }

  lemma StreamAtRest(n: nat, k: nat, mem: Mem, acts: seq<Action>)
    requires Sizes(n, k) && Legal(Start(n, k, mem), acts)
    requires Exec(Start(n, k, mem), acts).threads == [] && Exec(Start(n, k, mem), acts).sub.Idle?
    ensures var p := History(Start(n, k, mem), acts);
      Count(p.verdicts, Dropped) == 0 ==> p.cq.log == Visible(Completions(p.joined))
  {
    hide Do, Track, Legal, Exec, History, Visible, Completions, Count;
    var s, p := Exec(Start(n, k, mem), acts), History(Start(n, k, mem), acts);
    assert ReachedBy(s, p, n, k, mem, acts);
    assert p.joined[..|p.joined|] == p.joined;
    StreamOf(s, p, p.joined);
    var all := Completions(p.joined);
    assert all[..|all|] == all;
  }

  // ----- runs that need no condition -----

  /** Operations that depend on descriptors in memory: vectored, message and accept. */
  const DESCRIBED: set<u8> := {1, 2, 9, 10, 13, 48, 60, 61}

  /** Operations that write user memory. */
  const WRITING: set<u8> := {1, 4, 10, 13, 21, 22, 27, 43, 44, 49, 50, 59, 60, 62}

  ghost predicate Avoids(qs: seq<Sqe>, ops: set<u8>) { forall q | q in qs :: q.opcode !in ops }

  /** Nothing submitted in the run has one of these opcodes. */
  ghost predicate RunAvoids(s0: Sys, acts: seq<Action>, ops: set<u8>)
    requires WellShaped(s0) && Legal(s0, acts)
  {
    forall e | e in Script(s0, acts) && e.Submits? :: Avoids(e.sqes, ops)
  }

  lemma OwnFields(q: Sqe, m: Mem)
    ensures q.opcode !in DESCRIBED ==> Dispatch(q, m).deps == {}
  {
    hide Range, Zeros, AsI32, And, Scatter, Gather, RecvMsg, SendMsg, ReadU32, Store;
  }

  lemma NoStores(q: Sqe, m: Mem)
    ensures q.opcode !in WRITING ==> Dispatch(q, m).writes == map[]
  {
    hide Range, Zeros, AsI32, And, Gather, RecvMsg, Scatter;
    if q.opcode in {9, 48} { SendsNothing(q.addr, m); }
  }

  lemma SendsNothing(h: u64, m: Mem)
    ensures SendMsg(h, m).writes == map[]
  {
  }

  lemma {:induction false} PlanAvoiding(m: Mem, qs: seq<Sqe>, cancel: bool)
    ensures Avoids(qs, DESCRIBED) ==> DepsOf(Plan(m, qs, cancel)) == {}
    ensures Avoids(qs, WRITING) ==> WritesOf(Plan(m, qs, cancel)) == map[]
    decreases |qs|
  {
    hide Dispatch, NextCancel;
    if qs != [] {
      var e := EffectOf(qs[0], cancel, m);
      OwnFields(qs[0], m);
      NoStores(qs[0], m);
      assert qs[0] in qs;
      assert Plan(m, qs, cancel)[1..] == Plan(m + e.writes, qs[1..], NextCancel(qs[0], cancel, e.res));
      PlanAvoiding(m + e.writes, qs[1..], NextCancel(qs[0], cancel, e.res));
    }
  }

  lemma RestAvoiding(t: Thread, m: Mem)
    ensures Avoids(t.sqes, DESCRIBED) ==> DepsOf(Rest(t, m)) == {}
    ensures Avoids(t.sqes, WRITING) ==> WritesOf(Rest(t, m)) == map[]
    ensures Avoids(t.sqes, WRITING) && !Done(t) ==> StepEffect(t, m).writes == map[]
  {
    hide Plan, Dispatch;
    if !Done(t) {
      PlanAvoiding(m, t.sqes[t.pc..], t.cancel);
      NoStores(t.sqes[t.pc], m);
      assert t.sqes[t.pc] in t.sqes;
    }
  }

  /** Whatever is spawned was submitted. */
  lemma {:induction false} ThreadsFromScript(s0: Sys, acts: seq<Action>, ops: set<u8>)
    requires WellShaped(s0) && s0.threads == [] && Legal(s0, acts) && RunAvoids(s0, acts, ops)
    ensures forall t | t in Exec(s0, acts).threads :: Avoids(t.sqes, ops)
    decreases |acts|
  {
    hide Do, Avoids;
    if acts != [] {
      var n := |acts| - 1;
      assert Script(s0, acts[..n]) <= Script(s0, acts);
      assert forall e | e in Script(s0, acts[..n]) :: e in Script(s0, acts);
      ThreadsFromScript(s0, acts[..n], ops);
      var s, a := Exec(s0, acts[..n]), acts[n];
      if Spawns(s, a) { assert Submits(s.sub.snap) in Script(s0, acts); }
      ThreadsAfter(s, a, ops);
    }
  }

  lemma ThreadsAfter(s: Sys, a: Action, ops: set<u8>)
    requires WellShaped(s) && Enabled(s, a) && forall t | t in s.threads :: Avoids(t.sqes, ops)
    requires Spawns(s, a) ==> Avoids(s.sub.snap, ops)
    ensures forall t | t in Do(s, a).threads :: Avoids(t.sqes, ops)
  {
    hide Avoids, And, IsPow2, StepEffect, Suppressed, Peek, Or32, WrappingSub, WrappingAdd;
  }

  /** So a run that submits no operation with descriptors is quiet, whatever it does. */
  lemma {:induction false} SelfContainedIsQuiet(s0: Sys, acts: seq<Action>)
    requires WellShaped(s0) && s0.threads == [] && Legal(s0, acts) && RunAvoids(s0, acts, DESCRIBED)
    ensures QuietRun(s0, acts)
    decreases |acts|
  {
    hide Do, Avoids, DepsOf, Plan;
    if acts != [] {
      var n := |acts| - 1;
      assert forall e | e in Script(s0, acts[..n]) :: e in Script(s0, acts);
      SelfContainedIsQuiet(s0, acts[..n]);
      ThreadsFromScript(s0, acts[..n], DESCRIBED);
      var s := Exec(s0, acts[..n]);
      forall j | 0 <= j < |s.threads| ensures DepsOf(Rest(s.threads[j], s.mem)) == {} {
        RestAvoiding(s.threads[j], s.mem);
      }
    }
  }

  /** And one that submits nothing that writes is isolated as well: user code may write
      anything at any time. */
  lemma {:induction false} ReadOnlyIsIsolated(s0: Sys, acts: seq<Action>)
    requires WellShaped(s0) && s0.threads == [] && Legal(s0, acts)
    requires RunAvoids(s0, acts, DESCRIBED) && RunAvoids(s0, acts, WRITING)
    ensures IsolatedRun(s0, acts)
    decreases |acts|
  {
    hide Do, Avoids, DepsOf, WritesOf, Plan, StepEffect, Rest;
    if acts != [] {
      var n := |acts| - 1;
      assert forall e | e in Script(s0, acts[..n]) :: e in Script(s0, acts);
      ReadOnlyIsIsolated(s0, acts[..n]);
      ThreadsFromScript(s0, acts[..n], DESCRIBED);
      ThreadsFromScript(s0, acts[..n], WRITING);
      var s := Exec(s0, acts[..n]);
      forall j | 0 <= j < |s.threads|
        ensures DepsOf(Rest(s.threads[j], s.mem)) == {} && WritesOf(Rest(s.threads[j], s.mem)) == map[]
      {
        RestAvoiding(s.threads[j], s.mem);
      }
    }
  }

  /** Hence, with no condition on who writes what when: under every schedule the CQE stream
      of operations without descriptors is that of running each batch whole at its submission. */
  lemma SelfContainedStream(n: nat, k: nat, mem: Mem, acts: seq<Action>)
    requires Sizes(n, k) && Legal(Start(n, k, mem), acts) && RunAvoids(Start(n, k, mem), acts, DESCRIBED)
    ensures var s, p := Exec(Start(n, k, mem), acts), History(Start(n, k, mem), acts);
      Streamed(s, p, Foretold(p.born))
  {
    hide Do, Track, Legal, Exec, History, Script, Streamed, QuietRun, RunAvoids;
    SelfContainedIsQuiet(Start(n, k, mem), acts);
    StreamIsAtomic(n, k, mem, acts);
  }
}
