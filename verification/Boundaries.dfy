/** Submission boundaries: when consuming SQEs in two calls can be told from consuming them
    in one. */
module Boundaries {
  import opened Words
  import opened Entries
  import opened Effects
  import opened Batch
  import opened Machine
  import opened Safety
  import opened Guarantees
  import opened Schedules
  import opened Flushing

  /** The batch, run alone from memory m, does not end inside a severed chain. */
  ghost predicate EndsClean(m: Mem, a: seq<Sqe>) { !Severed(a, Outcomes(Plan(m, a, false)), |a|) }

  /** A batch whose last entry carries no link bit ends clean in every memory. */
  lemma UnlinkedEndsClean(m: Mem, a: seq<Sqe>)
    requires a != [] ==> !LinksToNext(a[|a| - 1])
    ensures EndsClean(m, a)
  {
    hide Dispatch, Plan;
    if a != [] { SeveredStep(a, Outcomes(Plan(m, a, false)), |a| - 1); }
  }

  lemma {:induction false} AfterAppend(m: Mem, p: seq<Effect>, q: seq<Effect>)
    ensures After(m, p + q) == After(After(m, p), q)
    decreases |q|
  {
    if q == [] {
      assert p + q == p && m + WritesOf(p) + map[] == m + WritesOf(p);
    } else {
      var n := |q| - 1;
      AfterAppend(m, p, q[..n]);
      AfterSnoc(m, p + q[..n], q[n]);
      AfterSnoc(After(m, p), q[..n], q[n]);
      assert p + q == (p + q[..n]) + [q[n]] && q == q[..n] + [q[n]];
    }
  }

  /** What two submissions record and leave, against one: the same if the first ends clean;
      otherwise the second's first entry is dispatched in two and cancelled in one. */
  lemma TwoBatchesOrOne(m: Mem, a: seq<Sqe>, b: seq<Sqe>)
    ensures var pa, p := Plan(m, a, false), Plan(m, a + b, false);
      var pb := Plan(After(m, pa), b, false);
      && (EndsClean(m, a) ==>
            After(m, p) == After(After(m, pa), pb) && Results(a + b, p) == Results(a, pa) + Results(b, pb))
      && (!EndsClean(m, a) && b != [] ==>
            && Results(a + b, p)[|a|].result == ECANCELED
            && Results(b, pb)[0].result == Dispatch(b[0], After(m, pa)).res)
  {
    hide Dispatch, Plan, Severed, After;
    BatchSplit(m, a, b);
    var pa := Plan(m, a, false);
    AfterAppend(m, pa, Plan(After(m, pa), b, false));
  }

  // ----- in the thread-free reference -----

  /** Consuming a and b in two calls or in one, anywhere in a history, leaves the same memory
      and the same completions in the same order, then and ever after, if a ends clean. */
  lemma {:induction false} SplitReplay(m: Mem, es: seq<Event>, a: seq<Sqe>, b: seq<Sqe>, rest: seq<Event>)
    requires EndsClean(Replay(m, es).0, a)
    ensures var two, one := Replay(m, es + [Submits(a), Submits(b)] + rest), Replay(m, es + [Submits(a + b)] + rest);
      two.0 == one.0 && Completions(two.1) == Completions(one.1)
    decreases |rest|
  {
    hide Dispatch, Plan, After, Results, Replay, Completions, EndsClean;
    var two, one := es + [Submits(a), Submits(b)], es + [Submits(a + b)];
    if rest == [] {
      assert two + rest == two && one + rest == one && two == (es + [Submits(a)]) + [Submits(b)];
      var (m', rs) := Replay(m, es);
      ReplaySnoc(m, es, Submits(a));
      ReplaySnoc(m, es + [Submits(a)], Submits(b));
      ReplaySnoc(m, es, Submits(a + b));
      TwoBatchesOrOne(m', a, b);
      var pa := Plan(m', a, false);
      var ra, rb := Results(a, pa), Results(b, Plan(After(m', pa), b, false));
      CompletionsSnoc(rs, ra);
      CompletionsSnoc(rs + [ra], rb);
      CompletionsSnoc(rs, ra + rb);
      assert Completions(rs) + ra + rb == Completions(rs) + (ra + rb);
    } else {
      var n := |rest| - 1;
      SplitReplay(m, es, a, b, rest[..n]);
      SameStep(m, two + rest[..n], one + rest[..n], rest[n]);
      assert two + rest == (two + rest[..n]) + [rest[n]] && one + rest == (one + rest[..n]) + [rest[n]];
    }
  }

  lemma SameStep(m: Mem, es: seq<Event>, fs: seq<Event>, e: Event)
    requires Replay(m, es).0 == Replay(m, fs).0 && Completions(Replay(m, es).1) == Completions(Replay(m, fs).1)
    ensures var x, y := Replay(m, es + [e]), Replay(m, fs + [e]);
      x.0 == y.0 && Completions(x.1) == Completions(y.1)
  {
    hide Dispatch, Plan, After, Results, Replay, Completions;
    ReplaySnoc(m, es, e);
    ReplaySnoc(m, fs, e);
    if e.Submits? {
      var r := Results(e.sqes, Plan(Replay(m, es).0, e.sqes, false));
      CompletionsSnoc(Replay(m, es).1, r);
      CompletionsSnoc(Replay(m, fs).1, r);
    }
  }

  /** Hence in concurrent runs too: of two isolated runs at rest, one of which consumed in two
      calls what the other consumed in one, the completions and the memory are the same. */
  lemma SplitIsInvisible(s0: Sys, acts: seq<Action>, acts': seq<Action>,
                         es: seq<Event>, a: seq<Sqe>, b: seq<Sqe>, rest: seq<Event>)
    requires WellShaped(s0) && s0.threads == [] && EndsClean(Replay(s0.mem, es).0, a)
    requires Legal(s0, acts) && IsolatedRun(s0, acts) && Exec(s0, acts).threads == []
    requires Legal(s0, acts') && IsolatedRun(s0, acts') && Exec(s0, acts').threads == []
    requires Script(s0, acts) == es + [Submits(a), Submits(b)] + rest
    requires Script(s0, acts') == es + [Submits(a + b)] + rest
    ensures Completions(History(s0, acts).joined) == Completions(History(s0, acts').joined)
    ensures Exec(s0, acts).mem == Exec(s0, acts').mem
  {
    hide Legal, Exec, History, Script, Replay, IsolatedRun, EndsClean, Completions;
    ScheduleIndependence(s0, acts);
    ScheduleIndependence(s0, acts');
    SplitReplay(s0.mem, es, a, b, rest);
  }

  // ----- in an uninterrupted flush -----

  lemma {:induction false} AllAppend(ts: seq<Thread>, us: seq<Thread>, m: Mem)
    requires Sound(ts) && Sound(us)
    ensures Sound(ts + us)
    ensures AllResults(ts + us, m) == AllResults(ts, m) + AllResults(us, AllAfter(ts, m))
    ensures AllAfter(ts + us, m) == AllAfter(us, AllAfter(ts, m))
    decreases |ts|
  {
    hide Final, After, Rest, AllResults, AllAfter;
    if ts == [] {
      AllNone(m);
      assert ts + us == us && [] + AllResults(us, m) == AllResults(us, m);
    } else {
      var m' := After(m, Rest(ts[0], m));
      AllUnfold(ts, m);
      AllAppend(ts[1..], us, m');
      assert (ts + us)[0] == ts[0] && (ts + us)[1..] == ts[1..] + us;
      AllUnfold(ts + us, m);
    }
  }

  lemma AloneIsPlan(a: seq<Sqe>, m: Mem)
    ensures Sound([Spawn(a)])
    ensures AllResults([Spawn(a)], m) == Results(a, Plan(m, a, false))
    ensures AllAfter([Spawn(a)], m) == After(m, Plan(m, a, false))
  {
    hide Dispatch, Plan, After;
    AllUnfold([Spawn(a)], m);
    AllNone(After(m, Rest(Spawn(a), m)));
    SpawnRest(a, m);
    assert a[0..] == a;
  }

  /** The flush of any pending threads followed by two new batches posts what it would post
      for the one batch, and leaves the same memory. */
  lemma SplitFlush(ts: seq<Thread>, m: Mem, a: seq<Sqe>, b: seq<Sqe>)
    requires Sound(ts) && EndsClean(AllAfter(ts, m), a)
    ensures Sound(ts + [Spawn(a), Spawn(b)]) && Sound(ts + [Spawn(a + b)])
    ensures AllResults(ts + [Spawn(a), Spawn(b)], m) == AllResults(ts + [Spawn(a + b)], m)
    ensures AllAfter(ts + [Spawn(a), Spawn(b)], m) == AllAfter(ts + [Spawn(a + b)], m)
  {
    hide Dispatch, Plan, After, Results, AllResults, AllAfter, EndsClean, Spawn;
    var m' := AllAfter(ts, m);
    AloneIsPlan(a, m');
    AloneIsPlan(b, AllAfter([Spawn(a)], m'));
    AloneIsPlan(a + b, m');
    AllAppend(ts, [Spawn(a + b)], m);
    AllAppend(ts, [Spawn(a)] + [Spawn(b)], m);
    AllAppend([Spawn(a)], [Spawn(b)], m');
    TwoBatchesOrOne(m', a, b);
    assert [Spawn(a)] + [Spawn(b)] == [Spawn(a), Spawn(b)];
  }
}
