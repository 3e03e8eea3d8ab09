/** What the user of the rings can rely on, in terms of the SQEs pushed, their flags bytes
    and the CQEs posted. Bits are written as arithmetic: 4 is the link bit, 8 the hard-link
    bit, 64 asks that success be silent. */
module Interface {
  import opened Words
  import opened Entries
  import opened Effects
  import opened Batch
  import opened Spsc
  import opened Machine
  import opened Safety
  import opened Guarantees
  import Manual

  // ----- link chains -----

  /** Entry i is cut off: an earlier entry that was itself not cut off had a negative result
      and only the soft link bit, and every entry from it up to i has some link bit. */
  ghost predicate CutOff(qs: seq<Sqe>, codes: seq<int>, i: nat)
    requires i <= |qs| && i <= |codes|
    decreases i
  {
    exists j: nat ::
      && j < i && !CutOff(qs, codes, j)
      && codes[j] < 0 && qs[j].flags / 4 % 4 == 1
      && forall k | j <= k < i :: qs[k].flags / 4 % 4 != 0
  }

  lemma FlagBits(f: u8)
    ensures Has(f, IO_LINK) <==> f / 4 % 2 == 1
    ensures Has(f, IO_HARDLINK) <==> f / 8 % 2 == 1
    ensures Has(f, SKIP_SUCCESS) <==> f / 64 % 2 == 1
  {
    hide And;
    AndFour(f);
    AndEight(f);
    AndEven(f, 32); AndEven(f / 2, 16); AndEven(f / 4, 8); AndEight(f / 8);
  }

  lemma LinkBits(q: Sqe)
    ensures SoftLink(q) <==> q.flags / 4 % 4 == 1
    ensures LinksToNext(q) <==> q.flags / 4 % 4 != 0
  {
    hide Has;
    FlagBits(q.flags);
    assert q.flags / 4 % 4 == q.flags / 4 % 2 + 2 * (q.flags / 8 % 2);
  }

  /** The loop's rule is this one. */
  lemma {:induction false} SeveredIsCutOff(qs: seq<Sqe>, codes: seq<i32>, i: nat)
    requires i <= |qs| && i <= |codes|
    ensures Severed(qs, codes, i) == CutOff(qs, codes, i)
    decreases i
  {
    hide SoftLink, LinksToNext;
    forall j: nat | j < i
      ensures Severed(qs, codes, j) == CutOff(qs, codes, j)
      ensures SoftLink(qs[j]) <==> qs[j].flags / 4 % 4 == 1
      ensures LinksToNext(qs[j]) <==> qs[j].flags / 4 % 4 != 0
    {
      SeveredIsCutOff(qs, codes, j);
      LinkBits(qs[j]);
    }
    if Severed(qs, codes, i) {
      CancelledIsASuffix(qs, codes, i - 1);
      var j :| 0 <= j < i && FailsAt(qs, codes, j) && !Severed(qs, codes, j)
        && forall k | j < k <= i - 1 :: Severed(qs, codes, k);
      forall k: nat | j <= k < i ensures LinksToNext(qs[k]) { CancelledIsASuffix(qs, codes, k); }
    }
    if CutOff(qs, codes, i) {
      var j: nat :| j < i && !CutOff(qs, codes, j) && codes[j] < 0 && qs[j].flags / 4 % 4 == 1
        && forall k | j <= k < i :: qs[k].flags / 4 % 4 != 0;
      assert FailsAt(qs, codes, j) && Chained(qs, j, i);
    }
  }

  /** The cancellation law, for a batch run alone: an entry records -125 and does nothing if
      it is cut off, and is dispatched in the memory its predecessors left if it is not. */
  lemma LinkLaw(m: Mem, qs: seq<Sqe>, i: nat)
    requires i < |qs|
    ensures var p := Plan(m, qs, false);
      var codes := seq(|p|, k requires 0 <= k < |p| => p[k].res as int);
      && (CutOff(qs, codes, i) ==> p[i] == Effect({}, map[], -125))
      && (!CutOff(qs, codes, i) ==> p[i] == Dispatch(qs[i], After(m, p[..i])))
  {
    hide Dispatch, Plan, Severed, CutOff, WritesOf;
    PlanIsRun(m, qs);
    var p := Plan(m, qs, false);
    RunAt(m, qs, p, i);
    SeveredIsCutOff(qs, Outcomes(p), i);
    assert Outcomes(p) == seq(|p|, k requires 0 <= k < |p| => p[k].res as int);
  }

  // ----- one joined batch -----

  /** The entry's own user data and silence; the cancellation law; and, when dispatched, a
      result the manual allows in the memory the entry met. */
  ghost predicate Answered(q: Sqe, met: Mem, cd: CompletionData, cut: bool) {
    && cd.userData == q.userData
    && (cd.skipSuccess <==> q.flags / 64 % 2 == 1)
    && (cut ==> cd.result == -125)
    && (!cut ==> cd.result == Dispatch(q, met).res && (Manual.Unaliased(q, met) ==> Manual.Result(q, met, cd.result)))
  }

  lemma {:induction false} RunAnswers(qs: seq<Sqe>, ms: seq<Mem>, rs: seq<CompletionData>, k: nat)
    requires LinkRun(qs, ms, rs) && k < |rs|
    ensures var codes := seq(|rs|, j requires 0 <= j < |rs| => rs[j].result as int);
      Answered(qs[k], ms[k], rs[k], CutOff(qs, codes, k))
  {
    hide Dispatch, Severed, CutOff, Has, Manual.Unaliased, Manual.Result, Manual.Row;
    SeveredIsCutOff(qs, Codes(rs), k);
    assert Codes(rs) == seq(|rs|, j requires 0 <= j < |rs| => rs[j].result as int);
    FlagBits(qs[k].flags);
    if Manual.Unaliased(qs[k], ms[k]) {
      Manual.DispatchHasRow(qs[k], ms[k]);
      Manual.RowLeaves(qs[k], ms[k], Dispatch(qs[k], ms[k]), DataRead(qs[k], ms[k]));
    }
  }

  /** In every reachable state, whatever the schedule, every entry of every joined batch has
      been answered so. */
  lemma JoinedAreAnswered(s: Sys, p: Past, i: nat, k: nat)
    requires Reached(s, p) && i < |p.joined| && k < |p.joined[i]|
    ensures i < |p.born| && k < |p.born[i].sqes| == |p.joined[i]| == |p.born[i].met|
    ensures var rs := p.joined[i];
      var codes := seq(|rs|, j requires 0 <= j < |rs| => rs[j].result as int);
      Answered(p.born[i].sqes[k], p.born[i].met[k], rs[k], CutOff(p.born[i].sqes, codes, k))
  {
    hide Protocol, Accounts, Ledger, LinkRun, ThreadMatches, CutOff, Answered;
    ReachedIsSafe(s, p);
    assert JoinedOk(p.born[i], p.joined[i]);
    MetSizes(p.born[i].sqes, p.born[i].met, p.joined[i]);
    RunAnswers(p.born[i].sqes, p.born[i].met, p.joined[i], k);
  }

  lemma {:induction false} MetSizes(qs: seq<Sqe>, ms: seq<Mem>, rs: seq<CompletionData>)
    requires LinkRun(qs, ms, rs)
    ensures |ms| == |rs| <= |qs|
  {
  }

  // ----- from the submission queue to the completion queue -----

  ghost predicate Matches(q: Sqe, cd: CompletionData) {
    cd.userData == q.userData && (cd.skipSuccess <==> q.flags / 64 % 2 == 1)
  }

  /** Completions of joined batches line up with the entries submitted. */
  lemma {:induction false} LinedUp(bs: seq<Born>, js: seq<seq<CompletionData>>)
    requires |js| == |bs| && forall i | 0 <= i < |js| :: JoinedOk(bs[i], js[i])
    ensures |Completions(js)| == |Submitted(bs)|
    ensures forall v | 0 <= v < |Completions(js)| :: Matches(Submitted(bs)[v], Completions(js)[v])
    decreases |js|
  {
    hide LinkRun, CutOff, Matches, Submitted, Completions;
    if js == [] {
      NothingSubmitted();
    } else {
      var n := |js| - 1;
      LinedUp(bs[..n], js[..n]);
      assert js == js[..n] + [js[n]] && bs == bs[..n] + [bs[n]];
      CompletionsSnoc(js[..n], js[n]);
      SubmittedSnoc(bs[..n], bs[n]);
      forall k: nat | k < |js[n]| ensures Matches(bs[n].sqes[k], js[n][k]) { MatchesAt(bs[n], js[n], k); }
    }
  }

  lemma NothingSubmitted()
    ensures Submitted([]) == [] && Completions([]) == []
  {
  }

  lemma {:induction false} MatchesAt(b: Born, rs: seq<CompletionData>, k: nat)
    requires JoinedOk(b, rs) && k < |rs|
    ensures Matches(b.sqes[k], rs[k])
  {
    hide LinkRun, CutOff;
    MetSizes(b.sqes, b.met, rs);
    RunAnswers(b.sqes, b.met, rs, k);
  }

  lemma {:induction false} SubmittedTake(bs: seq<Born>, k: nat)
    requires k <= |bs|
    ensures Submitted(bs[..k]) <= Submitted(bs)
    decreases |bs|
  {
    if k < |bs| {
      SubmittedTake(bs[..|bs| - 1], k);
      assert bs[..|bs| - 1][..k] == bs[..k];
    } else {
      assert bs[..k] == bs;
    }
  }

  /** The CQEs for the entries, one verdict each: posted or not, with the entry's user data,
      its result, and flags 0. */
  ghost function Answers(qs: seq<Sqe>, vs: seq<Verdict>): seq<Cqe>
    requires |qs| == |vs|
  {
    if qs == [] then []
    else
      var n := |qs| - 1;
      Answers(qs[..n], vs[..n]) + if vs[n].fate == Posted then [Cqe(qs[n].userData, vs[n].cd.result, 0)] else []
  }

  lemma {:induction false} PostedAreAnswers(qs: seq<Sqe>, vs: seq<Verdict>)
    requires |qs| == |vs| && forall v | 0 <= v < |vs| :: Matches(qs[v], vs[v].cd)
    ensures PostedCqes(vs) == Answers(qs, vs)
    decreases |vs|
  {
    if vs != [] { PostedAreAnswers(qs[..|qs| - 1], vs[..|vs| - 1]); }
  }

  lemma {:induction false} NoDropsMeans(vs: seq<Verdict>)
    requires Count(vs, Dropped) == 0
    ensures forall v | 0 <= v < |vs| :: vs[v].fate != Dropped
  {
    if vs != [] { NoDropsMeans(vs[..|vs| - 1]); }
  }

  /** From end to end, in every reachable state: verdict v is about the v-th entry the user
      ever pushed. It is silent iff the entry asked for that and succeeded. Everything ever
      posted is, in order, the entries posted, each with its own user data, its result and
      flags 0; the user has reaped a prefix of it. With no drop every entry that was not
      silent is posted. */
  lemma EntriesAreAnswered(s: Sys, p: Past)
    requires Reached(s, p)
    ensures |p.verdicts| <= p.sq.head <= |p.sq.log|
    ensures forall v | 0 <= v < |p.verdicts| ::
      var q, cd := p.sq.log[v], p.verdicts[v].cd;
      && cd.userData == q.userData && (cd.skipSuccess <==> q.flags / 64 % 2 == 1)
      && (p.verdicts[v].fate == Skipped <==> q.flags / 64 % 2 == 1 && cd.result >= 0)
    ensures p.cq.log == Answers(p.sq.log[..|p.verdicts|], p.verdicts) && p.reaped <= p.cq.log
    ensures Count(p.verdicts, Dropped) == 0 ==> forall v | 0 <= v < |p.verdicts| ::
      (p.verdicts[v].fate == Posted <==> !(p.sq.log[v].flags / 64 % 2 == 1 && p.verdicts[v].cd.result >= 0))
  {
    hide Stored, Indexed, SubOk, JoinedOk, ThreadMatches, Completions, Submitted, PostedCqes, Answers, Count, Todo,
      Matches, Reached, IsPow2;
    ReachedIsSafe(s, p);
    var qs := p.sq.log[..p.sq.head];
    SubmittedTake(p.born, p.flushed);
    forall i | 0 <= i < p.flushed ensures JoinedOk(p.born[..p.flushed][i], p.joined[..p.flushed][i]) {
      assert JoinedOk(p.born[i], p.joined[i]);
    }
    LinedUp(p.born[..p.flushed], p.joined[..p.flushed]);
    forall v | 0 <= v < |p.verdicts| ensures Matches(p.sq.log[v], p.verdicts[v].cd) {
      VerdictMatches(p, Submitted(p.born[..p.flushed]), Completions(p.joined[..p.flushed]), Todo(s.sub), v);
    }
    PostedAreAnswers(p.sq.log[..|p.verdicts|], p.verdicts);
    if Count(p.verdicts, Dropped) == 0 { NoDropsMeans(p.verdicts); }
    Unfolded(p);
  }

  lemma {:induction false} VerdictMatches(p: Past, qs: seq<Sqe>, cds: seq<CompletionData>, todo: seq<CompletionData>, v: nat)
    requires |cds| == |qs| && forall v | 0 <= v < |cds| :: Matches(qs[v], cds[v])
    requires Judged(p.verdicts) + todo == cds && v < |p.verdicts|
    requires p.sq.head <= |p.sq.log| && qs <= p.sq.log[..p.sq.head]
    ensures v < |p.sq.log| && Matches(p.sq.log[v], p.verdicts[v].cd)
  {
    hide Matches;
    assert (Judged(p.verdicts) + todo)[v] == p.verdicts[v].cd;
    assert qs[v] == p.sq.log[..p.sq.head][v];
  }

  lemma Unfolded(p: Past)
    ensures forall v | 0 <= v < |p.verdicts| && v < |p.sq.log| :: Matches(p.sq.log[v], p.verdicts[v].cd) ==>
      p.verdicts[v].cd.userData == p.sq.log[v].userData
      && (p.verdicts[v].cd.skipSuccess <==> p.sq.log[v].flags / 64 % 2 == 1)
  {
  }
}
