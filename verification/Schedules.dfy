/** Independence of the schedule: however the background threads interleave with each
    other, with the queues and with user code, the completions are those of running every
    batch at once when it is submitted, as long as nobody writes descriptors a pending
    batch still has to read; and if the footprints are disjoint so is the final memory. */
module Schedules {
  import opened Words
  import opened Entries
  import opened Effects
  import opened Batch
  import opened Spsc
  import opened Machine
  import opened Safety

  /** What a thread would still do if it ran to its end now. */
  ghost function Rest(t: Thread, m: Mem): seq<Effect> {
    if Done(t) then [] else Plan(m, t.sqes[t.pc..], t.cancel)
  }

  /** The addresses an action writes. */
  ghost function Written(s: Sys, a: Action): set<int>
    requires Enabled(s, a)
  {
    match a
    case RunSqe(i) => StepEffect(s.threads[i], s.mem).writes.Keys
    case UserWrite(bytes) => bytes.Keys
    case _ => {}
  }

  predicate Moves(a: Action, j: int) { a.RunSqe? && a.i == j }

  /** The action writes no descriptor that another live batch is still to read. */
  ghost predicate Quiet(s: Sys, a: Action)
    requires Enabled(s, a)
  {
    forall j | 0 <= j < |s.threads| && !Moves(a, j) ::
      Written(s, a) !! DepsOf(Rest(s.threads[j], s.mem))
  }

  ghost predicate QuietRun(s0: Sys, acts: seq<Action>)
    requires WellShaped(s0) && Legal(s0, acts)
    decreases |acts|
  {
    acts == [] || (
      var n := |acts| - 1;
      QuietRun(s0, acts[..n]) && Quiet(Exec(s0, acts[..n]), acts[n]))
  }

  // ----- results -----

  ghost function Foreseen(b: Born): seq<Effect> { Plan(b.birth, b.sqes, false) }

  /** The thread has recorded what was foreseen at its birth and will do the rest of it. */
  ghost predicate OnTrack(t: Thread, b: Born, m: Mem) {
    && t.sqes == b.sqes && t.pc <= |t.sqes|
    && Rest(t, m) == Foreseen(b)[t.pc..]
    && t.results == Results(b.sqes, Foreseen(b))[..t.pc]
  }

  ghost predicate AllOnTrack(s: Sys, p: Past)
    requires Matched(s, p)
  {
    && (forall i | 0 <= i < |s.threads| :: OnTrack(s.threads[i], p.born[|p.joined| + i], s.mem))
    && (forall i | 0 <= i < |p.joined| :: p.joined[i] == Results(p.born[i].sqes, Foreseen(p.born[i])))
  }

  /** One step of a thread performs the first foreseen effect and leaves the others. */
  lemma RestUnfolds(t: Thread, m: Mem)
    requires !Done(t)
    ensures var e := StepEffect(t, m);
      Rest(t, m) == [e] + Rest(Advance(t, m), m + e.writes)
  {
    hide Dispatch, NextCancel;
    var e := StepEffect(t, m);
    var qs := t.sqes[t.pc..];
    assert qs[0] == t.sqes[t.pc] && qs[1..] == t.sqes[t.pc + 1..];
    assert Plan(m, qs, t.cancel) == [e] + Plan(m + e.writes, qs[1..], NextCancel(qs[0], t.cancel, e.res));
  }

  lemma StepOnTrack(t: Thread, b: Born, m: Mem)
    requires OnTrack(t, b, m) && !Done(t)
    ensures OnTrack(Advance(t, m), b, m + StepEffect(t, m).writes)
  {
    hide Dispatch, NextCancel, Plan, Rest;
    var f, e := Foreseen(b), StepEffect(t, m);
    RestUnfolds(t, m);
    assert f[t.pc..][0] == e && f[t.pc..][1..] == f[t.pc + 1..];
    var rs := Results(b.sqes, f);
    assert rs[..t.pc + 1] == rs[..t.pc] + [Record(b.sqes[t.pc], e.res)];
  }

  /** Writes elsewhere leave the rest of a thread as it was. */
  lemma RestFrame(t: Thread, m: Mem, w: Mem)
    requires w.Keys !! DepsOf(Rest(t, m))
    ensures Rest(t, m + w) == Rest(t, m)
  {
    hide Dispatch, Plan;
    if !Done(t) {
      assert Agree(m, m + w, DepsOf(Rest(t, m)));
      PlanFrame(m, m + w, t.sqes[t.pc..], t.cancel);
    }
  }

  lemma SpawnOnTrack(b: Born, m: Mem)
    requires b.birth == m
    ensures OnTrack(Spawn(b.sqes), b, m)
  {
    hide Dispatch;
    assert b.sqes[0..] == b.sqes && Foreseen(b)[0..] == Foreseen(b);
    assert b.sqes == [] ==> Foreseen(b) == [];
  }

  lemma DoneOnTrack(t: Thread, b: Born, m: Mem)
    requires OnTrack(t, b, m) && Done(t)
    ensures t.results == Results(b.sqes, Foreseen(b))
  {
    hide Dispatch, Plan;
    assert Results(b.sqes, Foreseen(b))[..|b.sqes|] == Results(b.sqes, Foreseen(b));
  }

  lemma TrackCopyStep(s: Sys, p: Past)
    requires WellShaped(s) && Matched(s, p) && AllOnTrack(s, p) && Enabled(s, SubStep)
    requires s.sub.Copy?
    ensures AllOnTrack(DoSub(s), TrackSub(s, p))
  {
    hide Dispatch, Plan, Rest, Results, IsPow2, And, Peek, OnTrack, Foreseen;
    SpawnOnTrack(Born(s.sub.snap, s.mem, p.ref, []), s.mem);
  }

  lemma TrackJoinStep(s: Sys, p: Past)
    requires WellShaped(s) && Matched(s, p) && AllOnTrack(s, p) && Enabled(s, SubStep)
    requires s.sub.Join? || s.sub.Closing?
    ensures AllOnTrack(DoSub(s), TrackSub(s, p))
  {
    hide Dispatch, Plan, Rest, Results, IsPow2, OnTrack, Foreseen;
    if s.threads != [] {
      assert OnTrack(s.threads[0], p.born[|p.joined|], s.mem);
      DoneOnTrack(s.threads[0], p.born[|p.joined|], s.mem);
    }
  }

  lemma TrackOtherStep(s: Sys, p: Past)
    requires WellShaped(s) && Matched(s, p) && AllOnTrack(s, p) && Enabled(s, SubStep)
    requires !s.sub.Copy? && !s.sub.Join? && !s.sub.Closing?
    ensures AllOnTrack(DoSub(s), TrackSub(s, p))
  {
    hide Dispatch, Plan, Rest, Results, IsPow2, And, Or32, ProdLen, ConsLen, Suppressed, OnTrack, Foreseen;
  }

  lemma TrackRunStep(s: Sys, p: Past, i: nat)
    requires WellShaped(s) && Matched(s, p) && AllOnTrack(s, p)
    requires Enabled(s, RunSqe(i)) && Quiet(s, RunSqe(i))
    ensures AllOnTrack(Do(s, RunSqe(i)), Track(s, p, RunSqe(i)))
  {
    hide Dispatch, Plan, Rest, Results, IsPow2, And, DoSub, TrackSub, Advance, StepEffect;
    var e, k := StepEffect(s.threads[i], s.mem), |p.joined| + i;
    var s', p' := Do(s, RunSqe(i)), Track(s, p, RunSqe(i));
    forall j | 0 <= j < |s.threads| ensures OnTrack(s'.threads[j], p'.born[|p.joined| + j], s'.mem) {
      assert OnTrack(s.threads[j], p.born[|p.joined| + j], s.mem);
      if j == i {
        StepOnTrack(s.threads[i], p.born[k], s.mem);
      } else {
        assert !Moves(RunSqe(i), j);
        RestFrame(s.threads[j], s.mem, e.writes);
      }
    }
  }

  lemma TrackUserStep(s: Sys, p: Past, bytes: Mem)
    requires WellShaped(s) && Matched(s, p) && AllOnTrack(s, p) && Quiet(s, UserWrite(bytes))
    ensures AllOnTrack(Do(s, UserWrite(bytes)), Track(s, p, UserWrite(bytes)))
  {
    hide Dispatch, Plan, Rest, Results, IsPow2, And, DoSub, TrackSub;
    forall j | 0 <= j < |s.threads|
      ensures OnTrack(s.threads[j], p.born[|p.joined| + j], s.mem + bytes)
    {
      assert OnTrack(s.threads[j], p.born[|p.joined| + j], s.mem);
      assert !Moves(UserWrite(bytes), j);
      RestFrame(s.threads[j], s.mem, bytes);
    }
  }

  lemma TrackStep(s: Sys, p: Past, a: Action)
    requires WellShaped(s) && Matched(s, p) && AllOnTrack(s, p) && Enabled(s, a) && Quiet(s, a)
    ensures AllOnTrack(Do(s, a), Track(s, p, a))
  {
    hide Dispatch, Plan, Rest, Results, IsPow2, And, DoSub, TrackSub, OnTrack, Foreseen, Peek, ProdLen;
    match a
    case RunSqe(i) => TrackRunStep(s, p, i);
    case UserWrite(bytes) => TrackUserStep(s, p, bytes);
    case SubStep =>
      match s.sub {
        case Copy(_, _, _) => TrackCopyStep(s, p);
        case Join => TrackJoinStep(s, p);
        case Closing => TrackJoinStep(s, p);
        case _ => TrackOtherStep(s, p);
      }
    case _ =>
  }

  /** In every quiet run each joined batch has recorded exactly what running it alone, at
      the moment it was submitted, would have recorded; and each live one is on its way. */
  lemma {:induction false} ResultsAreAtomic(s0: Sys, acts: seq<Action>)
    requires WellShaped(s0) && s0.threads == [] && Legal(s0, acts) && QuietRun(s0, acts)
    ensures AllOnTrack(Exec(s0, acts), History(s0, acts))
    decreases |acts|
  {
    hide Do, Track;
    if acts != [] {
      var n := |acts| - 1;
      ResultsAreAtomic(s0, acts[..n]);
      TrackStep(Exec(s0, acts[..n]), History(s0, acts[..n]), acts[n]);
    }
  }

  // ----- memory -----

  predicate Spawns(s: Sys, a: Action) { a.SubStep? && s.sub.Copy? && s.sub.left == 0 }

  /** Beyond being quiet, the action writes nothing another live batch will write, and a
      batch is spawned only if the live ones write none of its descriptors. */
  ghost predicate Isolated(s: Sys, a: Action)
    requires Enabled(s, a)
  {
    && Quiet(s, a)
    && (forall j | 0 <= j < |s.threads| && !Moves(a, j) ::
          Written(s, a) !! WritesOf(Rest(s.threads[j], s.mem)).Keys)
    && (Spawns(s, a) ==> forall j | 0 <= j < |s.threads| ::
          DepsOf(Plan(s.mem, s.sub.snap, false)) !! WritesOf(Rest(s.threads[j], s.mem)).Keys)
  }

  ghost predicate IsolatedRun(s0: Sys, acts: seq<Action>)
    requires WellShaped(s0) && Legal(s0, acts)
    decreases |acts|
  {
    acts == [] || (
      var n := |acts| - 1;
      IsolatedRun(s0, acts[..n]) && Isolated(Exec(s0, acts[..n]), acts[n]))
  }

  /** What the live threads, in submission order, still have to write. */
  ghost function Pending(ts: seq<Thread>, m: Mem): Mem {
    if ts == [] then map[]
    else Pending(ts[..|ts| - 1], m) + WritesOf(Rest(ts[|ts| - 1], m))
  }

  /** The reference memory is the actual memory plus the pending writes, and every batch
      would have run the same in the reference memory of its birth. */
  ghost predicate Coupled(s: Sys, p: Past) {
    && p.ref == s.mem + Pending(s.threads, s.mem)
    && forall i | 0 <= i < |p.born| :: Plan(p.born[i].ref, p.born[i].sqes, false) == Foreseen(p.born[i])
  }

  lemma {:induction false} PendingPop(ts: seq<Thread>, m: Mem)
    requires ts != []
    ensures Pending(ts, m) == WritesOf(Rest(ts[0], m)) + Pending(ts[1..], m)
  {
    hide Rest, WritesOf;
    if |ts| > 1 {
      PendingPop(ts[..|ts| - 1], m);
      assert ts[..|ts| - 1][1..] == ts[1..][..|ts| - 2];
    } else {
      assert ts[..0] == [] && ts[1..] == [];
    }
  }

  lemma PendingPush(ts: seq<Thread>, t: Thread, m: Mem)
    ensures Pending(ts + [t], m) == Pending(ts, m) + WritesOf(Rest(t, m))
  {
    assert (ts + [t])[..|ts|] == ts;
  }

  lemma {:induction false} PendingSame(ts: seq<Thread>, us: seq<Thread>, m: Mem, m': Mem)
    requires |ts| == |us| && forall j | 0 <= j < |ts| :: Rest(us[j], m') == Rest(ts[j], m)
    ensures Pending(us, m') == Pending(ts, m)
  {
    if ts != [] { PendingSame(ts[..|ts| - 1], us[..|us| - 1], m, m'); }
  }

  lemma {:induction false} PendingKeys(ts: seq<Thread>, m: Mem, a: set<int>)
    requires forall j | 0 <= j < |ts| :: a !! WritesOf(Rest(ts[j], m)).Keys
    ensures a !! Pending(ts, m).Keys
  {
    hide Rest, WritesOf;
    if ts != [] { PendingKeys(ts[..|ts| - 1], m, a); }
  }

  lemma MoveForward(m: Mem, before: Mem, w: Mem, last: Mem)
    requires w.Keys !! before.Keys
    ensures m + (before + (w + last)) == m + w + (before + last)
  {
  }

  /** Doing now what thread i had pending next changes nothing in the sum. */
  lemma {:induction false} PendingMove(ts: seq<Thread>, us: seq<Thread>, m: Mem, i: nat, e: Effect)
    requires i < |ts| == |us|
    requires Rest(ts[i], m) == [e] + Rest(us[i], m + e.writes)
    requires forall j | 0 <= j < |ts| && j != i :: Rest(us[j], m + e.writes) == Rest(ts[j], m)
    requires forall j | 0 <= j < i :: e.writes.Keys !! WritesOf(Rest(ts[j], m)).Keys
    ensures m + Pending(ts, m) == m + e.writes + Pending(us, m + e.writes)
    decreases |ts|
  {
    hide Rest, WritesOf;
    var n, m' := |ts| - 1, m + e.writes;
    var last := WritesOf(Rest(us[n], m'));
    if i < n {
      PendingMove(ts[..n], us[..n], m, i, e);
      Regroup(m, Pending(ts[..n], m), last);
      Regroup(m', Pending(us[..n], m'), last);
    } else {
      PendingSame(ts[..n], us[..n], m, m');
      PendingKeys(ts[..n], m, e.writes.Keys);
      WritesCons(e, Rest(us[n], m'));
      MoveForward(m, Pending(ts[..n], m), e.writes, last);
    }
  }

  lemma WritesCons(e: Effect, p: seq<Effect>)
    ensures WritesOf([e] + p) == e.writes + WritesOf(p)
  {
    assert ([e] + p)[1..] == p;
  }

  lemma CoupledSpawn(s: Sys, p: Past)
    requires Coupled(s, p) && WellShaped(s) && Matched(s, p)
    requires Enabled(s, SubStep) && Spawns(s, SubStep) && Isolated(s, SubStep)
    ensures Coupled(DoSub(s), TrackSub(s, p))
  {
    hide Dispatch, Plan, Rest, WritesOf, IsPow2, And, Quiet;
    var snap := s.sub.snap;
    var plan := Plan(s.mem, snap, false);
    PendingKeys(s.threads, s.mem, DepsOf(plan));
    assert Agree(s.mem, p.ref, DepsOf(plan));
    PlanFrame(s.mem, p.ref, snap, false);
    PendingPush(s.threads, Spawn(snap), s.mem);
    SpawnRest(snap, s.mem);
    assert p.ref + WritesOf(plan) == s.mem + (Pending(s.threads, s.mem) + WritesOf(plan));
  }

  lemma SpawnRest(snap: seq<Sqe>, m: Mem)
    ensures Rest(Spawn(snap), m) == Plan(m, snap, false)
  {
    hide Dispatch;
    assert snap[0..] == snap;
  }

  lemma PendingDone(ts: seq<Thread>, m: Mem)
    requires ts != [] && Done(ts[0])
    ensures Pending(ts[1..], m) == Pending(ts, m)
  {
    hide Pending, Plan;
    PendingPop(ts, m);
    NoWrites();
    assert map[] + Pending(ts[1..], m) == Pending(ts[1..], m);
  }

  lemma CoupledJoin(s: Sys, p: Past)
    requires Coupled(s, p) && WellShaped(s) && Matched(s, p)
    requires Enabled(s, SubStep) && (s.sub.Join? || s.sub.Closing?)
    ensures Coupled(DoSub(s), TrackSub(s, p))
  {
    hide Dispatch, Plan, Pending, Foreseen, IsPow2;
    if s.threads != [] { PendingDone(s.threads, s.mem); }
  }

  lemma NoWrites()
    ensures WritesOf([]) == map[]
  {
  }

  lemma CoupledOther(s: Sys, p: Past)
    requires Coupled(s, p) && WellShaped(s) && Matched(s, p)
    requires Enabled(s, SubStep) && !s.sub.Join? && !s.sub.Closing? && !Spawns(s, SubStep)
    ensures Coupled(DoSub(s), TrackSub(s, p))
  {
    hide Dispatch, Plan, Pending, Foreseen, IsPow2, And, Or32, Peek, ProdLen, ConsLen, Suppressed;
  }

  lemma CoupledRun(s: Sys, p: Past, i: nat)
    requires Coupled(s, p) && WellShaped(s) && Matched(s, p)
    requires Enabled(s, RunSqe(i)) && Isolated(s, RunSqe(i))
    ensures Coupled(Do(s, RunSqe(i)), Track(s, p, RunSqe(i)))
  {
    hide Dispatch, Plan, Pending, Rest, IsPow2, And, DoSub, TrackSub, WritesOf, Advance, StepEffect;
    var e := StepEffect(s.threads[i], s.mem);
    var us := s.threads[i := Advance(s.threads[i], s.mem)];
    RestUnfolds(s.threads[i], s.mem);
    forall j | 0 <= j < |us| && j != i
      ensures Rest(us[j], s.mem + e.writes) == Rest(s.threads[j], s.mem)
    {
      assert !Moves(RunSqe(i), j);
      RestFrame(s.threads[j], s.mem, e.writes);
    }
    forall j | 0 <= j < i ensures e.writes.Keys !! WritesOf(Rest(s.threads[j], s.mem)).Keys {
      assert !Moves(RunSqe(i), j);
    }
    PendingMove(s.threads, us, s.mem, i, e);
  }

  lemma CoupledUser(s: Sys, p: Past, bytes: Mem)
    requires Coupled(s, p) && WellShaped(s) && Matched(s, p) && Isolated(s, UserWrite(bytes))
    ensures Coupled(Do(s, UserWrite(bytes)), Track(s, p, UserWrite(bytes)))
  {
    hide Dispatch, Plan, Pending, Rest, IsPow2, And, DoSub, TrackSub, WritesOf;
    forall j | 0 <= j < |s.threads|
      ensures Rest(s.threads[j], s.mem + bytes) == Rest(s.threads[j], s.mem)
      ensures bytes.Keys !! WritesOf(Rest(s.threads[j], s.mem)).Keys
    {
      assert !Moves(UserWrite(bytes), j);
      RestFrame(s.threads[j], s.mem, bytes);
    }
    PendingSame(s.threads, s.threads, s.mem, s.mem + bytes);
    PendingKeys(s.threads, s.mem, bytes.Keys);
    assert s.mem + Pending(s.threads, s.mem) + bytes == s.mem + bytes + Pending(s.threads, s.mem);
  }

  lemma CoupledStep(s: Sys, p: Past, a: Action)
    requires Coupled(s, p) && WellShaped(s) && Matched(s, p) && Enabled(s, a) && Isolated(s, a)
    ensures Coupled(Do(s, a), Track(s, p, a))
  {
    hide Dispatch, Plan, Pending, Foreseen, IsPow2, And, DoSub, TrackSub, Peek, ProdLen;
    match a
    case RunSqe(i) => CoupledRun(s, p, i);
    case UserWrite(bytes) => CoupledUser(s, p, bytes);
    case SubStep =>
      if Spawns(s, a) { CoupledSpawn(s, p); }
      else if s.sub.Join? || s.sub.Closing? { CoupledJoin(s, p); }
      else { CoupledOther(s, p); }
    case _ =>
  }

  lemma {:induction false} IsolatedIsQuiet(s0: Sys, acts: seq<Action>)
    requires WellShaped(s0) && Legal(s0, acts) && IsolatedRun(s0, acts)
    ensures QuietRun(s0, acts)
    decreases |acts|
  {
    if acts != [] { IsolatedIsQuiet(s0, acts[..|acts| - 1]); }
  }

  /** In every isolated run the reference memory, in which each batch ran whole at its
      submission, is the actual memory plus what live threads still have to write. */
  lemma {:induction false} MemoryIsAtomic(s0: Sys, acts: seq<Action>)
    requires WellShaped(s0) && s0.threads == [] && Legal(s0, acts) && IsolatedRun(s0, acts)
    ensures Coupled(Exec(s0, acts), History(s0, acts))
    decreases |acts|
  {
    hide Do, Track;
    if acts != [] {
      var n := |acts| - 1;
      MemoryIsAtomic(s0, acts[..n]);
      CoupledStep(Exec(s0, acts[..n]), History(s0, acts[..n]), acts[n]);
    } else {
      assert s0.mem + map[] == s0.mem;
    }
  }

  // ----- two schedules of the same program -----

  /** What the outside world decides: what is submitted, and what user code writes. */
  datatype Event = Submits(sqes: seq<Sqe>) | Writes(bytes: Mem)

  ghost function Script(s0: Sys, acts: seq<Action>): seq<Event>
    requires WellShaped(s0) && Legal(s0, acts)
    decreases |acts|
  {
    if acts == [] then []
    else
      var n := |acts| - 1;
      var s, a := Exec(s0, acts[..n]), acts[n];
      Script(s0, acts[..n]) +
        if Spawns(s, a) then [Submits(s.sub.snap)]
        else if a.UserWrite? then [Writes(a.bytes)]
        else []
  }

  /** The sequential reference: no threads, each batch runs to its end when submitted. */
  ghost function Replay(m: Mem, es: seq<Event>): (Mem, seq<seq<CompletionData>>) {
    if es == [] then (m, [])
    else
      var (m', rs) := Replay(m, es[..|es| - 1]);
      match es[|es| - 1]
      case Submits(qs) =>
        var p := Plan(m', qs, false);
        (After(m', p), rs + [Results(qs, p)])
      case Writes(bytes) => (m' + bytes, rs)
  }

  ghost predicate FollowsScript(p: Past, r: (Mem, seq<seq<CompletionData>>)) {
    && p.ref == r.0 && |p.born| == |r.1|
    && forall i | 0 <= i < |p.born| ::
      Results(p.born[i].sqes, Plan(p.born[i].ref, p.born[i].sqes, false)) == r.1[i]
  }

  lemma ReplaySnoc(m: Mem, es: seq<Event>, e: Event)
    ensures var (m', rs) := Replay(m, es);
      Replay(m, es + [e]) ==
        match e
        case Submits(qs) => (After(m', Plan(m', qs, false)), rs + [Results(qs, Plan(m', qs, false))])
        case Writes(bytes) => (m' + bytes, rs)
  {
    hide Dispatch, Plan, After, Results;
    assert (es + [e])[..|es|] == es;
  }

  lemma ScriptSubStep(s: Sys, p: Past, r: (Mem, seq<seq<CompletionData>>))
    requires WellShaped(s) && Matched(s, p) && Enabled(s, SubStep) && FollowsScript(p, r)
    ensures Spawns(s, SubStep) ==>
      var plan := Plan(r.0, s.sub.snap, false);
      FollowsScript(Track(s, p, SubStep), (After(r.0, plan), r.1 + [Results(s.sub.snap, plan)]))
    ensures !Spawns(s, SubStep) ==> FollowsScript(Track(s, p, SubStep), r)
  {
    hide Dispatch, Plan, After, Results, IsPow2, And, Peek, ProdLen, Suppressed;
  }

  lemma ScriptStep(s: Sys, p: Past, a: Action, r: (Mem, seq<seq<CompletionData>>))
    requires WellShaped(s) && Matched(s, p) && Enabled(s, a) && FollowsScript(p, r)
    requires !a.SubStep?
    ensures FollowsScript(Track(s, p, a), if a.UserWrite? then (r.0 + a.bytes, r.1) else r)
  {
    hide Dispatch, Plan, After, Results, IsPow2, And, Peek, ProdLen, TrackSub;
  }

  lemma {:induction false} HistoryFollowsScript(s0: Sys, acts: seq<Action>)
    requires WellShaped(s0) && s0.threads == [] && Legal(s0, acts)
    ensures FollowsScript(History(s0, acts), Replay(s0.mem, Script(s0, acts)))
    decreases |acts|
  {
    hide Do, Track, Replay, FollowsScript, Dispatch, Plan, After, Results;
    if acts == [] {
      EmptyScript(s0);
    } else {
      var n := |acts| - 1;
      HistoryFollowsScript(s0, acts[..n]);
      var s, p, a := Exec(s0, acts[..n]), History(s0, acts[..n]), acts[n];
      var es := Script(s0, acts[..n]);
      var r := Replay(s0.mem, es);
      assert es + [] == es;
      if a.SubStep? {
        ScriptSubStep(s, p, r);
        if Spawns(s, a) { ReplaySnoc(s0.mem, es, Submits(s.sub.snap)); }
      } else {
        ScriptStep(s, p, a, r);
        if a.UserWrite? { ReplaySnoc(s0.mem, es, Writes(a.bytes)); }
      }
    }
  }

  lemma EmptyScript(s0: Sys)
    requires WellShaped(s0) && s0.threads == []
    ensures FollowsScript(History(s0, []), Replay(s0.mem, Script(s0, [])))
  {
  }

  /** Schedule independence. After any isolated run, whatever its schedule, the joined
      batches recorded what the sequential reference records for them, and when no thread
      is live the memory is the reference's memory. */
  lemma ScheduleIndependence(s0: Sys, acts: seq<Action>)
    requires WellShaped(s0) && s0.threads == [] && Legal(s0, acts) && IsolatedRun(s0, acts)
    ensures var s, p, r := Exec(s0, acts), History(s0, acts), Replay(s0.mem, Script(s0, acts));
      && |p.joined| <= |r.1| && p.joined == r.1[..|p.joined|]
      && (s.threads == [] ==> p.joined == r.1 && s.mem == r.0)
  {
    hide Do, Track, Replay, Dispatch, Plan, Results;
    IsolatedIsQuiet(s0, acts);
    ResultsAreAtomic(s0, acts);
    MemoryIsAtomic(s0, acts);
    HistoryFollowsScript(s0, acts);
    var s, p, r := Exec(s0, acts), History(s0, acts), Replay(s0.mem, Script(s0, acts));
    forall i | 0 <= i < |p.joined| ensures p.joined[i] == r.1[i] {}
    if s.threads == [] { assert s.mem + map[] == s.mem; }
  }

  /** Hence two schedules of the same submissions and the same user writes agree. */
  lemma SchedulesAgree(s0: Sys, acts: seq<Action>, acts': seq<Action>)
    requires WellShaped(s0) && s0.threads == []
    requires Legal(s0, acts) && IsolatedRun(s0, acts) && Exec(s0, acts).threads == []
    requires Legal(s0, acts') && IsolatedRun(s0, acts') && Exec(s0, acts').threads == []
    requires Script(s0, acts) == Script(s0, acts')
    ensures History(s0, acts).joined == History(s0, acts').joined
    ensures Exec(s0, acts).mem == Exec(s0, acts').mem
  {
    ScheduleIndependence(s0, acts);
    ScheduleIndependence(s0, acts');
  }
}
