/** A submitted batch: the background thread that runs it, the rule for cancelling link
    chains, and what running the whole batch in one memory does. */
module Batch {
  import opened Words
  import opened Entries
  import opened Effects

  // ----- the thread, one SQE at a time -----

  /** A spawned thread: its snapshot, how far it is, and its local state. */
  datatype Thread = Thread(sqes: seq<Sqe>, pc: nat, cancel: bool, results: seq<CompletionData>)

  function Spawn(sqes: seq<Sqe>): Thread { Thread(sqes, 0, false, []) }

  predicate Done(t: Thread) { t.pc >= |t.sqes| }

  /** The `cancel_chain` bit after an SQE with this result. */
  function NextCancel(q: Sqe, cancel: bool, res: i32): bool {
    var severed := if LinksToNext(q) && res < 0 && !Has(q.flags, IO_HARDLINK) then true else cancel;
    if !LinksToNext(q) then false else severed
  }

  function EffectOf(q: Sqe, cancel: bool, m: Mem): Effect {
    if cancel then CANCELLED else Dispatch(q, m)
  }

  function Record(q: Sqe, res: i32): CompletionData {
    CompletionData(q.userData, res, Has(q.flags, SKIP_SUCCESS))
  }

  function StepEffect(t: Thread, m: Mem): Effect
    requires !Done(t)
  {
    EffectOf(t.sqes[t.pc], t.cancel, m)
  }

  /** One iteration of the thread's loop. */
  function Advance(t: Thread, m: Mem): Thread
    requires !Done(t)
  {
    var q, res := t.sqes[t.pc], StepEffect(t, m).res;
    Thread(t.sqes, t.pc + 1, NextCancel(q, t.cancel, res), t.results + [Record(q, res)])
  }

  // ----- which SQEs are cancelled -----

  /** Entry i is cancelled iff an earlier entry failed over a soft link and every entry
      from there on links to its successor. */
  ghost predicate Severed(qs: seq<Sqe>, codes: seq<i32>, i: nat)
    requires i <= |qs| && i <= |codes|
  {
    exists j :: 0 <= j < i && FailsAt(qs, codes, j) && Chained(qs, j, i)
  }

  predicate FailsAt(qs: seq<Sqe>, codes: seq<i32>, j: nat)
    requires j < |qs| && j < |codes|
  {
    codes[j] < 0 && SoftLink(qs[j])
  }

  predicate Chained(qs: seq<Sqe>, j: nat, i: nat)
    requires j <= i <= |qs|
  {
    forall k | j <= k < i :: LinksToNext(qs[k])
  }

  /** The one-bit loop computes exactly that. */
  lemma SeveredStep(qs: seq<Sqe>, codes: seq<i32>, i: nat)
    requires i < |qs| && i < |codes|
    ensures Severed(qs, codes, i + 1) == NextCancel(qs[i], Severed(qs, codes, i), codes[i])
  {
    if Severed(qs, codes, i + 1) {
      var j :| 0 <= j < i + 1 && FailsAt(qs, codes, j) && Chained(qs, j, i + 1);
      assert j < i ==> Chained(qs, j, i);
    }
    if LinksToNext(qs[i]) && Severed(qs, codes, i) {
      var j :| 0 <= j < i && FailsAt(qs, codes, j) && Chained(qs, j, i);
      assert Chained(qs, j, i + 1);
    }
    if FailsAt(qs, codes, i) { assert Chained(qs, i, i + 1); }
  }

  /** Cancellation looks only at earlier results. */
  lemma SeveredPrefix(qs: seq<Sqe>, codes: seq<i32>, codes': seq<i32>, i: nat)
    requires i <= |qs| && i <= |codes| && i <= |codes'| && codes[..i] == codes'[..i]
    ensures Severed(qs, codes, i) == Severed(qs, codes', i)
  {
    forall j | 0 <= j < i ensures FailsAt(qs, codes, j) == FailsAt(qs, codes', j) {
      assert codes[..i][j] == codes'[..i][j];
    }
  }

  /** In every chain the cancelled entries form a suffix, and the entry that opens a chain
      is never cancelled. When one is cancelled, the nearest earlier entry that was not is
      the soft-linked failure that severed the chain. */
  lemma {:induction false} CancelledIsASuffix(qs: seq<Sqe>, codes: seq<i32>, i: nat)
    requires i < |qs| && i < |codes|
    ensures Severed(qs, codes, i + 1) ==> LinksToNext(qs[i])
    ensures Severed(qs, codes, i) && LinksToNext(qs[i]) ==> Severed(qs, codes, i + 1)
    ensures Severed(qs, codes, i + 1) ==> exists j ::
      && 0 <= j <= i && FailsAt(qs, codes, j) && !Severed(qs, codes, j)
      && forall k | j < k <= i :: Severed(qs, codes, k)
  {
    SeveredStep(qs, codes, i);
    if Severed(qs, codes, i + 1) && Severed(qs, codes, i) {
      CancelledIsASuffix(qs, codes, i - 1);
    }
  }

  // ----- a thread's log against the memories it saw -----

  function Codes(rs: seq<CompletionData>): seq<i32> { seq(|rs|, i requires 0 <= i < |rs| => rs[i].result) }

  /** `rs` is what the batch records when its i-th SQE meets memory ms[i]. */
  ghost predicate LinkRun(qs: seq<Sqe>, ms: seq<Mem>, rs: seq<CompletionData>) {
    && |ms| == |rs| <= |qs|
    && forall i | 0 <= i < |rs| ::
      rs[i] == Record(qs[i], if Severed(qs, Codes(rs), i) then ECANCELED else Dispatch(qs[i], ms[i]).res)
  }

  ghost predicate ThreadOk(t: Thread, ms: seq<Mem>) {
    && t.pc == |t.results| && LinkRun(t.sqes, ms, t.results)
    && t.cancel == Severed(t.sqes, Codes(t.results), t.pc)
  }

  /** Every step of every thread, whatever memory it meets, obeys the declarative rule. */
  lemma AdvanceOk(t: Thread, ms: seq<Mem>, m: Mem)
    requires ThreadOk(t, ms) && !Done(t)
    ensures ThreadOk(Advance(t, m), ms + [m])
  {
    hide Dispatch, Severed, NextCancel, Has, LinksToNext;
    var rs, rs' := t.results, Advance(t, m).results;
    forall i: nat | i <= |rs| ensures Severed(t.sqes, Codes(rs'), i) == Severed(t.sqes, Codes(rs), i) {
      assert Codes(rs)[..i] == Codes(rs')[..i];
      SeveredPrefix(t.sqes, Codes(rs), Codes(rs'), i);
    }
    SeveredStep(t.sqes, Codes(rs'), t.pc);
  }

  // ----- a whole batch in one memory -----

  /** The effects of running the batch alone from memory `m`. */
  function Plan(m: Mem, qs: seq<Sqe>, cancel: bool): (p: seq<Effect>)
    ensures |p| == |qs|
    decreases |qs|
  {
    if qs == [] then []
    else
      var e := EffectOf(qs[0], cancel, m);
      [e] + Plan(m + e.writes, qs[1..], NextCancel(qs[0], cancel, e.res))
  }

  /** All writes of a run as one update, later ones winning. */
  function WritesOf(p: seq<Effect>): Mem
    decreases |p|
  {
    if p == [] then map[] else p[0].writes + WritesOf(p[1..])
  }

  function After(m: Mem, p: seq<Effect>): Mem { m + WritesOf(p) }

  function Outcomes(p: seq<Effect>): seq<i32> { seq(|p|, i requires 0 <= i < |p| => p[i].res) }

  function Results(qs: seq<Sqe>, p: seq<Effect>): seq<CompletionData>
    requires |qs| == |p|
  {
    seq(|p|, i requires 0 <= i < |p| => Record(qs[i], p[i].res))
  }

  /** The declarative specification of a batch run: each entry either is cancelled, by the
      rule above, or is dispatched in the memory its predecessors left. */
  ghost predicate IsRun(m: Mem, qs: seq<Sqe>, p: seq<Effect>)
    requires |p| == |qs|
  {
    forall i | 0 <= i < |p| :: p[i] == EffectOf(qs[i], Severed(qs, Outcomes(p), i), After(m, p[..i]))
  }

  /** Unrolling the plan in the middle: the machine's bit after `a`, and the rest from there. */
  lemma {:induction false} PlanAppend(m: Mem, a: seq<Sqe>, b: seq<Sqe>, cancel: bool)
    ensures var p := Plan(m, a, cancel);
      Plan(m, a + b, cancel) == p + Plan(After(m, p), b, CancelAfter(a, p, cancel))
    decreases |a|
  {
    hide Dispatch, WritesOf, CancelAfter, EffectOf, NextCancel;
    var p := Plan(m, a, cancel);
    if a == [] {
      assert a + b == b;
      AfterNone(m, p, a, cancel);
    } else {
      var e := EffectOf(a[0], cancel, m);
      var c, m' := NextCancel(a[0], cancel, e.res), m + e.writes;
      var rest := Plan(m', a[1..], c);
      assert p == [e] + rest && p[0] == e && p[1..] == rest;
      PlanAppend(m', a[1..], b, c);
      AfterCons(m, e, rest);
      CancelAfterCons(a, p, cancel);
      assert (a + b)[0] == a[0] && (a + b)[1..] == a[1..] + b;
      assert Plan(m, a + b, cancel) == [e] + Plan(m', a[1..] + b, c);
    }
  }

  function CancelAfter(qs: seq<Sqe>, p: seq<Effect>, cancel: bool): bool
    requires |p| == |qs|
    decreases |qs|
  {
    if qs == [] then cancel
    else
      var n := |qs| - 1;
      NextCancel(qs[n], CancelAfter(qs[..n], p[..n], cancel), p[n].res)
  }

  lemma AfterNone(m: Mem, p: seq<Effect>, qs: seq<Sqe>, cancel: bool)
    requires p == [] && qs == []
    ensures After(m, p) == m && CancelAfter(qs, p, cancel) == cancel
  {
    assert m + map[] == m;
  }

  lemma AfterCons(m: Mem, e: Effect, p: seq<Effect>)
    ensures After(m, [e] + p) == After(m + e.writes, p)
  {
    assert ([e] + p)[1..] == p;
  }

  lemma {:induction false} WritesSnoc(p: seq<Effect>, e: Effect)
    ensures WritesOf(p + [e]) == WritesOf(p) + e.writes
    decreases |p|
  {
    if p == [] {
      assert [e][1..] == [] && p + [e] == [e];
    } else {
      assert (p + [e])[1..] == p[1..] + [e];
      WritesSnoc(p[1..], e);
      Regroup(p[0].writes, WritesOf(p[1..]), e.writes);
    }
  }

  lemma AfterSnoc(m: Mem, p: seq<Effect>, e: Effect)
    ensures After(m, p + [e]) == After(m, p) + e.writes
  {
    WritesSnoc(p, e);
  }

  lemma {:induction false} CancelAfterCons(qs: seq<Sqe>, p: seq<Effect>, cancel: bool)
    requires |p| == |qs| > 0
    ensures CancelAfter(qs, p, cancel) == CancelAfter(qs[1..], p[1..], NextCancel(qs[0], cancel, p[0].res))
    decreases |qs|
  {
    var n := |qs| - 1;
    if n > 0 {
      assert qs[..n][1..] == qs[1..][..n - 1] && p[..n][1..] == p[1..][..n - 1];
      CancelAfterCons(qs[..n], p[..n], cancel);
    }
  }

  lemma {:induction false} CancelAfterIsSevered(qs: seq<Sqe>, p: seq<Effect>)
    requires |p| == |qs|
    ensures CancelAfter(qs, p, false) == Severed(qs, Outcomes(p), |qs|)
    decreases |qs|
  {
    if qs != [] {
      var n := |qs| - 1;
      CancelAfterIsSevered(qs[..n], p[..n]);
      SeveredStep(qs, Outcomes(p), n);
      SeveredTake(qs, p, n);
    }
  }

  lemma SeveredTake(qs: seq<Sqe>, p: seq<Effect>, n: nat)
    requires n <= |p| == |qs|
    ensures Severed(qs[..n], Outcomes(p[..n]), n) == Severed(qs, Outcomes(p), n)
  {
    forall j | 0 <= j < n
      ensures FailsAt(qs[..n], Outcomes(p[..n]), j) == FailsAt(qs, Outcomes(p), j)
      ensures Chained(qs[..n], j, n) == Chained(qs, j, n)
    {
      assert forall k | j <= k < n :: qs[..n][k] == qs[k];
    }
  }

  /** The thread's loop satisfies the specification ... */
  lemma PlanIsRun(m: Mem, qs: seq<Sqe>)
    ensures IsRun(m, qs, Plan(m, qs, false))
  {
    var p := Plan(m, qs, false);
    forall i | 0 <= i < |p|
      ensures p[i] == EffectOf(qs[i], Severed(qs, Outcomes(p), i), After(m, p[..i]))
    {
      var a, b := qs[..i], qs[i..];
      assert a + b == qs;
      var pa := Plan(m, a, false);
      PlanAppend(m, a, b, false);
      assert p[..i] == pa && b[0] == qs[i];
      CancelAfterIsSevered(a, pa);
      SeveredTake(qs, p, i);
    }
  }

  /** ... and nothing else does: the specification determines every effect of the batch. */
  lemma IsRunUnique(m: Mem, qs: seq<Sqe>, p: seq<Effect>)
    requires |p| == |qs| && IsRun(m, qs, p)
    ensures p == Plan(m, qs, false)
  {
    var r := Plan(m, qs, false);
    PlanIsRun(m, qs);
    SamePrefix(m, qs, p, r, |qs|);
    assert p[..|p|] == p && r[..|p|] == r;
  }

  lemma {:induction false} SamePrefix(m: Mem, qs: seq<Sqe>, p: seq<Effect>, r: seq<Effect>, i: nat)
    requires |p| == |r| == |qs| && IsRun(m, qs, p) && IsRun(m, qs, r) && i <= |qs|
    ensures p[..i] == r[..i]
  {
    hide Dispatch, IsRun, WritesOf, Severed;
    if i > 0 {
      var k := i - 1;
      SamePrefix(m, qs, p, r, k);
      assert Outcomes(p)[..k] == Outcomes(r)[..k] by {
        forall j | 0 <= j < k ensures p[j] == r[j] { assert p[..k][j] == r[..k][j]; }
      }
      SeveredPrefix(qs, Outcomes(p), Outcomes(r), k);
      RunAt(m, qs, p, k);
      RunAt(m, qs, r, k);
      assert p[..i] == p[..k] + [p[k]] && r[..i] == r[..k] + [r[k]];
    }
  }

  // ----- submission boundaries -----

  /** Two submissions behave as one exactly up to the link bit: if the first batch does not
      end inside a severed chain the runs are the same; otherwise the first entry of the
      second batch would have been cancelled in one submission and is dispatched in two. */
  lemma BatchSplit(m: Mem, a: seq<Sqe>, b: seq<Sqe>)
    ensures var pa := Plan(m, a, false);
      var whole, second := Plan(m, a + b, false), Plan(After(m, pa), b, false);
      && (!Severed(a, Outcomes(pa), |a|) ==> whole == pa + second)
      && (Severed(a, Outcomes(pa), |a|) && b != [] ==>
            whole[|a|] == CANCELLED && second[0] == Dispatch(b[0], After(m, pa)))
  {
    var pa := Plan(m, a, false);
    PlanAppend(m, a, b, false);
    CancelAfterIsSevered(a, pa);
  }

  /** In particular a submission boundary after an entry with no link bit is invisible, so
      running whole chains one after the other is running their concatenation. */
  lemma WholeChainsConcatenate(m: Mem, a: seq<Sqe>, b: seq<Sqe>)
    requires a != [] ==> !LinksToNext(a[|a| - 1])
    ensures Plan(m, a + b, false) == Plan(m, a, false) + Plan(After(m, Plan(m, a, false)), b, false)
  {
    var pa := Plan(m, a, false);
    if a != [] { SeveredStep(a, Outcomes(pa), |a| - 1); }
    BatchSplit(m, a, b);
  }

  // ----- the memory a batch leaves -----

  /** The entries among the first i that were dispatched, in order. */
  ghost function Dispatched(qs: seq<Sqe>, p: seq<Effect>, i: nat): seq<Sqe>
    requires i <= |qs| == |p|
  {
    if i == 0 then []
    else Dispatched(qs, p, i - 1) + if Severed(qs, Outcomes(p), i - 1) then [] else [qs[i - 1]]
  }

  function DispatchAll(m: Mem, qs: seq<Sqe>): Mem
    decreases |qs|
  {
    if qs == [] then m
    else var m' := DispatchAll(m, qs[..|qs| - 1]); m' + Dispatch(qs[|qs| - 1], m').writes
  }

  /** The memory after a batch is the fold of dispatch over exactly its uncancelled entries. */
  lemma {:induction false} MemoryOfARun(m: Mem, qs: seq<Sqe>, p: seq<Effect>, i: nat)
    requires |p| == |qs| && IsRun(m, qs, p) && i <= |qs|
    ensures After(m, p[..i]) == DispatchAll(m, Dispatched(qs, p, i))
  {
    hide Dispatch, IsRun, WritesOf, Severed, DispatchAll;
    if i > 0 {
      MemoryOfARun(m, qs, p, i - 1);
      MemoryStep(m, qs, p, i - 1);
    } else {
      assert p[..0] == [];
      AfterNone(m, [], [], false);
      NothingDispatched(m);
    }
  }

  lemma NothingDispatched(m: Mem)
    ensures DispatchAll(m, []) == m
  {
  }

  lemma MemoryStep(m: Mem, qs: seq<Sqe>, p: seq<Effect>, k: nat)
    requires |p| == |qs| && IsRun(m, qs, p) && k < |qs|
    requires After(m, p[..k]) == DispatchAll(m, Dispatched(qs, p, k))
    ensures After(m, p[..k + 1]) == DispatchAll(m, Dispatched(qs, p, k + 1))
  {
    hide Dispatch, Severed, IsRun, WritesOf;
    var m', q := After(m, p[..k]), Dispatched(qs, p, k);
    assert p[..k + 1] == p[..k] + [p[k]];
    AfterSnoc(m, p[..k], p[k]);
    RunAt(m, qs, p, k);
    if Severed(qs, Outcomes(p), k) {
      assert m' + map[] == m' && q + [] == q;
    } else {
      DispatchAllStep(m, q, qs[k]);
    }
  }

  lemma RunAt(m: Mem, qs: seq<Sqe>, p: seq<Effect>, k: nat)
    requires |p| == |qs| && IsRun(m, qs, p) && k < |qs|
    ensures p[k] == EffectOf(qs[k], Severed(qs, Outcomes(p), k), After(m, p[..k]))
  {
    hide Dispatch, Severed, WritesOf;
  }

  lemma DispatchAllStep(m: Mem, qs: seq<Sqe>, q: Sqe)
    ensures DispatchAll(m, qs + [q]) == DispatchAll(m, qs) + Dispatch(q, DispatchAll(m, qs)).writes
  {
    assert (qs + [q])[..|qs|] == qs;
  }

  /** Running a batch changes no byte outside the write footprints of its effects. */
  lemma {:induction false} OutsideFootprints(m: Mem, p: seq<Effect>, a: int)
    requires forall i | 0 <= i < |p| :: a !in p[i].writes
    ensures a !in WritesOf(p) && Get(After(m, p), a) == Get(m, a)
    decreases |p|
  {
    if p != [] { OutsideFootprints(m, p[1..], a); }
  }

  // ----- the frame of a whole batch -----

  /** All descriptors a run reads. */
  function DepsOf(p: seq<Effect>): set<int>
    decreases |p|
  {
    if p == [] then {} else p[0].deps + DepsOf(p[1..])
  }

  /** Two memories that agree on the descriptors a batch reads give it the same run. */
  lemma {:induction false} PlanFrame(m: Mem, m': Mem, qs: seq<Sqe>, cancel: bool)
    requires Agree(m, m', DepsOf(Plan(m, qs, cancel)))
    ensures Plan(m', qs, cancel) == Plan(m, qs, cancel)
    decreases |qs|
  {
    if qs != [] {
      var p := Plan(m, qs, cancel);
      var e := EffectOf(qs[0], cancel, m);
      assert p[0] == e && p[1..] == Plan(m + e.writes, qs[1..], NextCancel(qs[0], cancel, e.res));
      if !cancel { DispatchFrame(qs[0], m, m'); }
      AgreeAfter(m, m', e.writes, DepsOf(p[1..]));
      PlanFrame(m + e.writes, m' + e.writes, qs[1..], NextCancel(qs[0], cancel, e.res));
    }
  }
}
