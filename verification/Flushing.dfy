/** What an uninterrupted flush amounts to: the remaining runs of the pending threads, one
    after the other, and their visible completions offered to a queue with a limit. */
module Flushing {
  import opened Words
  import opened Entries
  import opened Effects
  import opened Batch
  import opened Spsc
  import opened Machine
  import opened Safety
  import opened Guarantees
  import opened Schedules

  // ----- what an uninterrupted flush does -----

  /** What a thread will have recorded when it ends, if it runs alone from memory m. */
  ghost function Final(t: Thread, m: Mem): seq<CompletionData>
    requires t.pc <= |t.sqes|
  {
    RestLength(t, m);
    t.results + Results(t.sqes[t.pc..], Rest(t, m))
  }

  ghost predicate Sound(ts: seq<Thread>) { forall i | 0 <= i < |ts| :: ts[i].pc <= |ts[i].sqes| }

  /** The completions of the threads, run to their ends one after the other. */
  ghost function AllResults(ts: seq<Thread>, m: Mem): seq<CompletionData>
    requires Sound(ts)
  {
    if ts == [] then [] else Final(ts[0], m) + AllResults(ts[1..], After(m, Rest(ts[0], m)))
  }

  ghost function AllAfter(ts: seq<Thread>, m: Mem): Mem {
    if ts == [] then m else AllAfter(ts[1..], After(m, Rest(ts[0], m)))
  }

  /** What fits of `v` in a queue with `room` free slots. */
  function Taken(v: seq<Cqe>, room: nat): seq<Cqe> { if |v| <= room then v else v[..room] }

  lemma VisibleSnoc(cds: seq<CompletionData>, cd: CompletionData)
    ensures Visible(cds + [cd]) == Visible(cds)
      + if cd.skipSuccess && cd.result >= 0 then [] else [Cqe(cd.userData, cd.result, 0)]
  {
    assert (cds + [cd])[..|cds|] == cds;
  }

  // ----- offering completions to a queue with a limit -----

  /** The posted log, the overflow counter and the flags. */
  datatype Board = Board(log: seq<Cqe>, overflow: u32, flags: u32)

  /** The completions `v` are offered in order: those that fit below the limit are appended,
      the rest are counted modulo 2^32, and the flag is raised iff there are any. */
  ghost function Offered(b: Board, limit: nat, v: seq<Cqe>): Board
    requires |b.log| <= limit
  {
    var taken := Taken(v, limit - |b.log|);
    Board.Board(b.log + taken, Wrap(b.overflow + |v| - |taken|),
      if |taken| < |v| then SQ_CQ_OVERFLOW else b.flags)
  }

  lemma OfferedNone(b: Board, limit: nat)
    requires |b.log| <= limit
    ensures Offered(b, limit, []) == b
  {
    assert b.log + [] == b.log;
  }

  /** Offering one batch after the other is offering them together. */
  lemma OfferedAppend(b: Board, limit: nat, v: seq<Cqe>, w: seq<Cqe>)
    requires |b.log| <= limit
    ensures |Offered(b, limit, v).log| <= limit
    ensures Offered(Offered(b, limit, v), limit, w) == Offered(b, limit, v + w)
  {
    var room := limit - |b.log|;
    var tv := Taken(v, room);
    var tw := Taken(w, room - |tv|);
    assert tv + tw == Taken(v + w, room);
    assert b.log + tv + tw == b.log + (tv + tw);
    WrapAdd(b.overflow + |v| - |tv|, |w| - |tw|);
  }

  lemma WrapAdd(a: int, b: int)
    ensures Wrap(Wrap(a) + b) == Wrap(a + b)
  {
  }

  lemma NothingVisible()
    ensures Visible([]) == []
  {
  }

  lemma {:induction false} VisibleAppend(a: seq<CompletionData>, b: seq<CompletionData>)
    ensures Visible(a + b) == Visible(a) + Visible(b)
    decreases |b|
  {
    hide Suppressed, Visible;
    if b == [] {
      assert a + b == a;
      NothingVisible();
    } else {
      var n := |b| - 1;
      VisibleAppend(a, b[..n]);
      VisibleSnoc(b[..n], b[n]);
      VisibleSnoc(a + b[..n], b[n]);
      assert b == b[..n] + [b[n]] && a + b == (a + b[..n]) + [b[n]];
    }
  }

  lemma AllUnfold(ts: seq<Thread>, m: Mem)
    requires Sound(ts) && ts != []
    ensures Sound(ts[1..])
    ensures AllResults(ts, m) == Final(ts[0], m) + AllResults(ts[1..], After(m, Rest(ts[0], m)))
    ensures AllAfter(ts, m) == AllAfter(ts[1..], After(m, Rest(ts[0], m)))
  {
  }

  lemma AllNone(m: Mem)
    ensures AllResults([], m) == [] && AllAfter([], m) == m
  {
  }

  lemma FinalUnfolds(t: Thread, m: Mem)
    requires !Done(t)
    ensures var t', m' := Advance(t, m), m + StepEffect(t, m).writes;
      && t'.sqes == t.sqes && t'.pc == t.pc + 1
      && Final(t', m') == Final(t, m)
      && After(m', Rest(t', m')) == After(m, Rest(t, m))
  {
    hide Dispatch, Plan, WritesOf, NextCancel, Rest;
    RestUnfolds(t, m);
    var e, t' := StepEffect(t, m), Advance(t, m);
    var rest := Rest(t', m + e.writes);
    AfterCons(m, e, rest);
    RestLength(t, m);
    RestLength(t', m + e.writes);
    var qs := t.sqes[t.pc..];
    assert t.sqes[t.pc + 1..] == qs[1..];
    assert Results(qs, [e] + rest) == [Record(qs[0], e.res)] + Results(qs[1..], rest);
  }

  lemma RestLength(t: Thread, m: Mem)
    requires t.pc <= |t.sqes|
    ensures |Rest(t, m)| == |t.sqes| - t.pc
  {
    hide Dispatch;
  }

  lemma FinalDone(t: Thread, m: Mem)
    requires Done(t) && t.pc <= |t.sqes|
    ensures Final(t, m) == t.results && After(m, Rest(t, m)) == m
  {
    hide Dispatch, Plan;
    assert m + map[] == m;
  }
}
