/** What holds in every state the emulator can reach, under every schedule. */
module Safety {
  import opened Words
  import opened Entries
  import opened Effects
  import opened Batch
  import opened Spsc
  import opened Machine

  // ----- the invariant -----

  /** Both rings are single-producer single-consumer queues under stale views, a handle
      that is closed has nothing unpublished, and the user has read exactly a prefix of
      what was posted. */
  ghost predicate Protocol(s: Sys, p: Past) {
    && Spsc.Inv(s.sq, p.sq) && Spsc.Inv(s.cq, p.cq)
    && (!s.sqOpen ==> p.sq.tail == |p.sq.log|)
    && (!s.cqOpen ==> p.cq.head == p.cq.cHead)
    && p.reaped == p.cq.log[..p.cq.cHead]
    && SubOk(s.sub, p)
  }

  /** What the submitter holds at each point. While it copies, its snapshot is the queue
      segment it has passed; elsewhere it holds nothing it has not stored. */
  ghost predicate SubOk(sub: Sub, p: Past)
    requires p.sq.cHead <= |p.sq.log|
  {
    && (if sub.Copy? then
          && p.sq.head <= p.sq.cHead && p.sq.cHead + sub.left <= p.sq.cTail
          && sub.snap == p.sq.log[p.sq.head..p.sq.cHead]
        else p.sq.cHead == p.sq.head)
    && |p.cq.log| == p.cq.tail + (if sub.StoreTail? then 1 else 0)
    && (sub.CqTail? || sub.CqHead? || sub.Decide? ==> sub.todo != [] && !Suppressed(sub.todo[0]))
  }

  /** All SQEs of the given batches, in submission order. */
  ghost function Submitted(bs: seq<Born>): seq<Sqe> {
    if bs == [] then [] else Submitted(bs[..|bs| - 1]) + bs[|bs| - 1].sqes
  }

  /** All completions of the given batches, in submission order. */
  ghost function Completions(js: seq<seq<CompletionData>>): seq<CompletionData> {
    if js == [] then [] else Completions(js[..|js| - 1]) + js[|js| - 1]
  }

  /** The completions of the batch being flushed that have no verdict yet. */
  function Todo(sub: Sub): seq<CompletionData> {
    match sub
    case Post(todo) => todo
    case CqTail(todo) => todo
    case CqHead(todo) => todo
    case Decide(todo) => todo
    case StoreTail(todo) => todo
    case SetFlag(todo) => todo
    case _ => []
  }

  ghost function Judged(vs: seq<Verdict>): seq<CompletionData> {
    seq(|vs|, i requires 0 <= i < |vs| => vs[i].cd)
  }

  ghost function PostedCqes(vs: seq<Verdict>): seq<Cqe> {
    if vs == [] then []
    else
      var n := |vs| - 1;
      PostedCqes(vs[..n]) + if vs[n].fate == Posted then [CqeOf(vs[n].cd)] else []
  }

  ghost function Count(vs: seq<Verdict>, f: Fate): nat {
    if vs == [] then 0
    else
      var n := |vs| - 1;
      Count(vs[..n], f) + if vs[n].fate == f then 1 else 0
  }

  /** Every consumed SQE belongs to exactly one batch, in order; batches are joined in
      order, once; every completion of a flushed batch gets one verdict, in order. */
  ghost predicate Accounts(s: Sys, p: Past)
    requires p.sq.head <= |p.sq.log|
  {
    && Matched(s, p)
    && Submitted(p.born) == p.sq.log[..p.sq.head]
    && (forall i | 0 <= i < |p.born| :: |p.born[i].sqes| <= |s.sq.ring.slots|)
    && p.flushed <= |p.joined|
    && (!s.sub.Closing? && !s.sub.Closed? ==> p.flushed == |p.joined|)
    && Judged(p.verdicts) + Todo(s.sub) == Completions(p.joined[..p.flushed])
  }

  /** Completions posted, counted as overflow, or skipped; never lost and never doubled. */
  ghost predicate Ledger(s: Sys, p: Past) {
    && (forall i | 0 <= i < |p.verdicts| :: p.verdicts[i].fate == Skipped <==> p.verdicts[i].cd.skipSuccess && p.verdicts[i].cd.result >= 0)
    && p.cq.log == PostedCqes(p.verdicts)
    && s.overflow == Wrap(Count(p.verdicts, Dropped))
    && (Count(p.verdicts, Dropped) == 0 ==> s.sqFlags == 0 && !s.sub.SetFlag?)
    && (Count(p.verdicts, Dropped) > 0 && !s.sub.SetFlag? ==> s.sqFlags == SQ_CQ_OVERFLOW)
    && (s.sqFlags == 0 || s.sqFlags == SQ_CQ_OVERFLOW)
  }

  /** Every thread, live or joined, has obeyed the link-chain rule. */
  ghost predicate Chains(s: Sys, p: Past)
    requires Matched(s, p)
  {
    && (forall i | 0 <= i < |s.threads| :: ThreadMatches(s.threads[i], p.born[|p.joined| + i]))
    && (forall i | 0 <= i < |p.joined| :: JoinedOk(p.born[i], p.joined[i]))
  }

  ghost predicate ThreadMatches(t: Thread, b: Born) {
    t.sqes == b.sqes && |t.results| <= |t.sqes| && ThreadOk(t, b.met)
  }

  ghost predicate JoinedOk(b: Born, results: seq<CompletionData>) {
    |results| == |b.sqes| && LinkRun(b.sqes, b.met, results)
  }

  ghost predicate Inv(s: Sys, p: Past) {
    Protocol(s, p) && Accounts(s, p) && Ledger(s, p) && Chains(s, p)
  }

  // ----- every step keeps it -----

  lemma UserSqStep(s: Sys, p: Past, a: Action)
    requires Protocol(s, p) && Enabled(s, a) && Matched(s, p)
    requires a.SqBorrow? || a.SqPush? || a.SqPublish? || a.SqRefresh? || a.SqDrop?
    ensures Protocol(Do(s, a), Track(s, p, a))
  {
    hide Stored, Indexed, IsPow2, And, Or32, Plan, Dispatch, Advance;
    Lengths(s.sq, p.sq);
    match a
    case SqBorrow =>
      SeeHeadInv(s.sq, p.sq);
      ReloadsAreStable(SeeHead(s.sq), p.sq.(pHead := p.sq.head));
    case SqPush(entry) =>
      if ProdLen(s.sq) != |s.sq.ring.slots| {
        PutInv(s.sq, p.sq, entry);
        assert p.sq.log[p.sq.head..p.sq.cHead] == (p.sq.log + [entry])[p.sq.head..p.sq.cHead];
      }
    case SqPublish => PublishInv(s.sq, p.sq);
    case SqRefresh => SeeHeadInv(s.sq, p.sq);
    case SqDrop => PublishInv(s.sq, p.sq);
  }

  lemma UserCqStep(s: Sys, p: Past, a: Action)
    requires Protocol(s, p) && Enabled(s, a) && Matched(s, p)
    requires a.CqBorrow? || a.CqNext? || a.CqRelease? || a.CqRefresh? || a.CqDrop?
    ensures Protocol(Do(s, a), Track(s, p, a))
  {
    hide Stored, Indexed, IsPow2, And, Or32, Plan, Dispatch, Advance;
    Lengths(s.cq, p.cq);
    match a
    case CqBorrow =>
      ReloadsAreStable(s.cq, p.cq);
      SeeTailInv(s.cq, p.cq);
    case CqNext =>
      if s.cq.cons.head != s.cq.cons.tail {
        PeekInv(s.cq, p.cq);
        assert p.cq.log[..p.cq.cHead] + [p.cq.log[p.cq.cHead]] == p.cq.log[..p.cq.cHead + 1];
      }
    case CqRelease => ReleaseInv(s.cq, p.cq);
    case CqRefresh => SeeTailInv(s.cq, p.cq);
    case CqDrop => ReleaseInv(s.cq, p.cq);
  }

  lemma SubSqStep(s: Sys, p: Past)
    requires Protocol(s, p) && Enabled(s, SubStep) && Matched(s, p)
    requires s.sub.LoadHead? || s.sub.LoadTail? || s.sub.Copy?
    ensures Protocol(DoSub(s), TrackSub(s, p))
  {
    hide Stored, Indexed, IsPow2, And, Or32, Plan, Dispatch, Advance;
    ReloadsAreStable(s.sq, p.sq);
    match s.sub
    case LoadHead(_, _) =>
    case LoadTail(want, _) =>
      SeeTailInv(s.sq, p.sq);
      Lengths(SeeTail(s.sq), p.sq.(cTail := p.sq.tail));
      assert p.sq.log[p.sq.head..p.sq.cHead] == [];
    case Copy(left, snap, _) =>
      if left > 0 {
        PeekInv(s.sq, p.sq);
        assert snap + [p.sq.log[p.sq.cHead]] == p.sq.log[p.sq.head..p.sq.cHead + 1];
      } else {
        ReleaseInv(s.sq, p.sq);
      }
  }

  lemma SubDecideStep(s: Sys, p: Past)
    requires Protocol(s, p) && Enabled(s, SubStep) && Matched(s, p) && s.sub.Decide?
    ensures Protocol(DoSub(s), TrackSub(s, p))
  {
    hide Stored, Indexed, IsPow2, And, Or32, Plan, Dispatch, Advance;
    Lengths(s.cq, p.cq);
    if ProdLen(s.cq) < |s.cq.ring.slots| { PutInv(s.cq, p.cq, CqeOf(s.sub.todo[0])); }
  }

  lemma SubCqStep(s: Sys, p: Past)
    requires Protocol(s, p) && Enabled(s, SubStep) && Matched(s, p)
    requires s.sub.CqTail? || s.sub.CqHead? || s.sub.StoreTail?
    ensures Protocol(DoSub(s), TrackSub(s, p))
  {
    hide Stored, Indexed, IsPow2, And, Or32, Plan, Dispatch, Advance;
    ReloadsAreStable(s.cq, p.cq);
    match s.sub
    case CqTail(_) =>
    case CqHead(_) => SeeHeadInv(s.cq, p.cq);
    case StoreTail(_) => PublishInv(s.cq, p.cq);
  }

  lemma SubLocalStep(s: Sys, p: Past)
    requires Protocol(s, p) && Enabled(s, SubStep) && Matched(s, p)
    requires s.sub.Join? || s.sub.Post? || s.sub.SetFlag? || s.sub.Closing?
    ensures Protocol(DoSub(s), TrackSub(s, p))
  {
    hide Spsc.Inv, IsPow2, And, Or32, Plan, Dispatch, Advance;
  }

  lemma ProtocolStep(s: Sys, p: Past, a: Action)
    requires Protocol(s, p) && Enabled(s, a) && Matched(s, p)
    ensures Protocol(Do(s, a), Track(s, p, a))
  {
    hide Spsc.Inv, IsPow2, And, Or32, Plan, Dispatch, Advance;
    match a
    case SubStep =>
      match s.sub {
        case LoadHead(_, _) => SubSqStep(s, p);
        case LoadTail(_, _) => SubSqStep(s, p);
        case Copy(_, _, _) => SubSqStep(s, p);
        case CqTail(_) => SubCqStep(s, p);
        case CqHead(_) => SubCqStep(s, p);
        case StoreTail(_) => SubCqStep(s, p);
        case Decide(_) => SubDecideStep(s, p);
        case _ => SubLocalStep(s, p);
      }
    case CqBorrow => UserCqStep(s, p, a);
    case CqNext => UserCqStep(s, p, a);
    case CqRelease => UserCqStep(s, p, a);
    case CqRefresh => UserCqStep(s, p, a);
    case CqDrop => UserCqStep(s, p, a);
    case SqBorrow => UserSqStep(s, p, a);
    case SqPush(_) => UserSqStep(s, p, a);
    case SqPublish => UserSqStep(s, p, a);
    case SqRefresh => UserSqStep(s, p, a);
    case SqDrop => UserSqStep(s, p, a);
    case _ =>
  }

  lemma {:induction false} SubmittedIgnoresMet(bs: seq<Born>, cs: seq<Born>)
    requires |bs| == |cs| && forall i | 0 <= i < |bs| :: bs[i].sqes == cs[i].sqes
    ensures Submitted(bs) == Submitted(cs)
  {
    if bs != [] { SubmittedIgnoresMet(bs[..|bs| - 1], cs[..|cs| - 1]); }
  }

  lemma SubmittedSnoc(bs: seq<Born>, b: Born)
    ensures Submitted(bs + [b]) == Submitted(bs) + b.sqes
  {
    assert (bs + [b])[..|bs|] == bs;
  }

  lemma CompletionsSnoc(js: seq<seq<CompletionData>>, j: seq<CompletionData>)
    ensures Completions(js + [j]) == Completions(js) + j
  {
    assert (js + [j])[..|js|] == js;
  }

  /** Moving the next completion of the batch to the verdicts keeps the order. */
  lemma JudgedSnoc(vs: seq<Verdict>, todo: seq<CompletionData>, f: Fate)
    requires todo != []
    ensures Judged(vs + [Verdict(todo[0], f)]) + todo[1..] == Judged(vs) + todo
  {
    assert Judged(vs + [Verdict(todo[0], f)]) == Judged(vs) + [todo[0]];
    assert [todo[0]] + todo[1..] == todo;
  }

  lemma VerdictSnoc(vs: seq<Verdict>, v: Verdict)
    ensures PostedCqes(vs + [v]) == PostedCqes(vs) + if v.fate == Posted then [CqeOf(v.cd)] else []
    ensures forall f :: Count(vs + [v], f) == Count(vs, f) + if v.fate == f then 1 else 0
  {
    assert (vs + [v])[..|vs|] == vs;
  }

  lemma AccountsSqStep(s: Sys, p: Past)
    requires Protocol(s, p) && Accounts(s, p) && Enabled(s, SubStep)
    requires Protocol(DoSub(s), TrackSub(s, p))
    requires s.sub.LoadHead? || s.sub.LoadTail? || s.sub.Copy?
    ensures Accounts(DoSub(s), TrackSub(s, p))
  {
    hide Stored, Indexed, IsPow2, And, Or32, Plan, Dispatch, Advance, Judged, Completions, Submitted, Suppressed, Peek;
    if s.sub.Copy? && s.sub.left == 0 {
      SubmittedSnoc(p.born, Born(s.sub.snap, s.mem, p.ref, []));
      assert p.sq.log[..p.sq.head] + p.sq.log[p.sq.head..p.sq.cHead] == p.sq.log[..p.sq.cHead];
    }
  }

  lemma AccountsJoinStep(s: Sys, p: Past)
    requires Protocol(s, p) && Accounts(s, p) && Enabled(s, SubStep)
    requires Protocol(DoSub(s), TrackSub(s, p))
    requires s.sub.Join? || s.sub.Closing?
    ensures Accounts(DoSub(s), TrackSub(s, p))
  {
    hide Stored, Indexed, IsPow2, And, Or32, Plan, Dispatch, Advance, Judged, Completions, Submitted, Suppressed, Peek;
    if s.threads != [] {
      var r := s.threads[0].results;
      CompletionsSnoc(p.joined, r);
      assert p.flushed == |p.joined| ==> (p.joined + [r])[..p.flushed + 1] == p.joined + [r];
      assert (p.joined + [r])[..p.flushed] == p.joined[..p.flushed];
      assert p.joined[..|p.joined|] == p.joined;
      assert Judged(p.verdicts) + [] == Judged(p.verdicts);
    }
  }

  lemma AccountsVerdictStep(s: Sys, p: Past)
    requires Protocol(s, p) && Accounts(s, p) && Enabled(s, SubStep)
    requires Protocol(DoSub(s), TrackSub(s, p))
    requires s.sub.Post? || s.sub.Decide?
    ensures Accounts(DoSub(s), TrackSub(s, p))
  {
    hide Stored, Indexed, IsPow2, And, Or32, Plan, Dispatch, Advance, Judged, Completions, Submitted, Suppressed, Peek, ProdLen;
    var todo := s.sub.todo;
    if todo != [] {
      JudgedSnoc(p.verdicts, todo, Skipped);
      JudgedSnoc(p.verdicts, todo, Posted);
      JudgedSnoc(p.verdicts, todo, Dropped);
    }
  }

  lemma AccountsPostStep(s: Sys, p: Past)
    requires Protocol(s, p) && Accounts(s, p) && Enabled(s, SubStep)
    requires Protocol(DoSub(s), TrackSub(s, p))
    requires s.sub.CqTail? || s.sub.CqHead? || s.sub.StoreTail? || s.sub.SetFlag?
    ensures Accounts(DoSub(s), TrackSub(s, p))
  {
    hide Stored, Indexed, IsPow2, And, Or32, Plan, Dispatch, Advance, Judged, Completions, Submitted, Suppressed, Peek, ProdLen;
  }

  lemma AccountsStep(s: Sys, p: Past, a: Action)
    requires Protocol(s, p) && Accounts(s, p) && Enabled(s, a)
    requires Protocol(Do(s, a), Track(s, p, a))
    ensures Accounts(Do(s, a), Track(s, p, a))
  {
    hide Stored, Indexed, IsPow2, And, Or32, Plan, Dispatch, Advance, Judged, Completions, Submitted, Peek, DoSub, TrackSub;
    match a
    case SubStep =>
      match s.sub {
        case LoadHead(_, _) => AccountsSqStep(s, p);
        case LoadTail(_, _) => AccountsSqStep(s, p);
        case Copy(_, _, _) => AccountsSqStep(s, p);
        case Join => AccountsJoinStep(s, p);
        case Closing => AccountsJoinStep(s, p);
        case Post(_) => AccountsVerdictStep(s, p);
        case Decide(_) => AccountsVerdictStep(s, p);
        case _ => AccountsPostStep(s, p);
      }
    case SqPush(entry) => assert (p.sq.log + [entry])[..p.sq.head] == p.sq.log[..p.sq.head];
    case RunSqe(i) => SubmittedIgnoresMet(p.born, Track(s, p, a).born);
    case _ =>
  }

  lemma LedgerPostStep(s: Sys, p: Past)
    requires Ledger(s, p) && Protocol(s, p) && Matched(s, p) && Enabled(s, SubStep)
    requires s.sub.Post? || s.sub.SetFlag?
    ensures Ledger(DoSub(s), TrackSub(s, p))
  {
    hide Spsc.Inv, IsPow2, And, Or, Plan, Dispatch, Advance, PostedCqes, Count, Peek;
    OrFlag();
    if s.sub.todo != [] { VerdictSnoc(p.verdicts, Verdict(s.sub.todo[0], Skipped)); }
  }

  lemma LedgerDecideStep(s: Sys, p: Past)
    requires Ledger(s, p) && Protocol(s, p) && Matched(s, p) && Enabled(s, SubStep)
    requires s.sub.Decide?
    ensures Ledger(DoSub(s), TrackSub(s, p))
  {
    hide Spsc.Inv, IsPow2, And, Or, Plan, Dispatch, Advance, PostedCqes, Count, Peek;
    VerdictSnoc(p.verdicts, Verdict(s.sub.todo[0], Posted));
    VerdictSnoc(p.verdicts, Verdict(s.sub.todo[0], Dropped));
    WrapSucc(Count(p.verdicts, Dropped));
  }

  lemma LedgerFrame(s: Sys, p: Past, s': Sys, p': Past)
    requires Ledger(s, p) && !s.sub.SetFlag? && !s'.sub.SetFlag?
    requires p'.verdicts == p.verdicts && p'.cq.log == p.cq.log
    requires s'.overflow == s.overflow && s'.sqFlags == s.sqFlags
    ensures Ledger(s', p')
  {
  }

  lemma LedgerOtherStep(s: Sys, p: Past)
    requires Ledger(s, p) && Protocol(s, p) && Matched(s, p) && Enabled(s, SubStep)
    requires !s.sub.Post? && !s.sub.SetFlag? && !s.sub.Decide?
    ensures Ledger(DoSub(s), TrackSub(s, p))
  {
    hide Ledger, SubOk, Ordered, Stored, Indexed, ProdLen, ConsLen, Or32, IsPow2, And, Plan, Dispatch, Peek;
    LedgerFrame(s, p, DoSub(s), TrackSub(s, p));
  }

  lemma LedgerStep(s: Sys, p: Past, a: Action)
    requires Ledger(s, p) && Protocol(s, p) && Matched(s, p) && Enabled(s, a)
    ensures Ledger(Do(s, a), Track(s, p, a))
  {
    hide Spsc.Inv, IsPow2, And, Or, Plan, Dispatch, Advance, PostedCqes, Count, Peek, DoSub, TrackSub;
    if a.SubStep? {
      match s.sub
      case Post(_) => LedgerPostStep(s, p);
      case SetFlag(_) => LedgerPostStep(s, p);
      case Decide(_) => LedgerDecideStep(s, p);
      case _ => LedgerOtherStep(s, p);
    }
  }

  lemma OrFlag()
    ensures Or32(0, SQ_CQ_OVERFLOW) == SQ_CQ_OVERFLOW == Or32(SQ_CQ_OVERFLOW, SQ_CQ_OVERFLOW)
  {
  }

  lemma ChainsSpawnStep(s: Sys, p: Past)
    requires Matched(s, p) && WellShaped(s) && Chains(s, p) && Enabled(s, SubStep)
    requires s.sub.Copy?
    ensures Chains(DoSub(s), TrackSub(s, p))
  {
    hide IsPow2, And, Or32, Plan, Dispatch, Advance, ThreadMatches, JoinedOk, Peek;
    SpawnMatches(Born(s.sub.snap, s.mem, p.ref, []));
  }

  lemma ChainsJoinStep(s: Sys, p: Past)
    requires Matched(s, p) && WellShaped(s) && Chains(s, p) && Enabled(s, SubStep)
    requires s.sub.Join? || s.sub.Closing?
    ensures Chains(DoSub(s), TrackSub(s, p))
  {
    hide IsPow2, And, Or32, Plan, Dispatch, Advance, ThreadMatches, JoinedOk, Peek;
    if s.threads != [] {
      assert ThreadMatches(s.threads[0], p.born[|p.joined|]);
      DoneIsJoined(s.threads[0], p.born[|p.joined|]);
    }
  }

  lemma ChainsPostStep(s: Sys, p: Past)
    requires Matched(s, p) && WellShaped(s) && Chains(s, p) && Enabled(s, SubStep)
    requires !s.sub.Copy? && !s.sub.Join? && !s.sub.Closing?
    ensures Chains(DoSub(s), TrackSub(s, p))
  {
    hide IsPow2, And, Or32, Plan, Dispatch, Advance, ThreadMatches, JoinedOk, Peek, ProdLen, ConsLen, Suppressed;
  }

  lemma ChainsStep(s: Sys, p: Past, a: Action)
    requires Matched(s, p) && WellShaped(s) && Chains(s, p)
    requires Enabled(s, a)
    ensures Chains(Do(s, a), Track(s, p, a))
  {
    hide IsPow2, And, Or32, Plan, Dispatch, Advance, ThreadMatches, JoinedOk, Peek, DoSub, TrackSub;
    if a.RunSqe? {
      var k := |p.joined| + a.i;
      assert ThreadMatches(s.threads[a.i], p.born[k]);
      AdvanceMatches(s.threads[a.i], p.born[k], s.mem);
    } else if a.SubStep? {
      match s.sub
      case Copy(_, _, _) => ChainsSpawnStep(s, p);
      case Join => ChainsJoinStep(s, p);
      case Closing => ChainsJoinStep(s, p);
      case _ => ChainsPostStep(s, p);
    }
  }

  lemma AdvanceMatches(t: Thread, b: Born, m: Mem)
    requires ThreadMatches(t, b) && !Done(t)
    ensures ThreadMatches(Advance(t, m), b.(met := b.met + [m]))
  {
    hide Dispatch;
    AdvanceOk(t, b.met, m);
  }

  lemma SpawnMatches(b: Born)
    requires b.met == []
    ensures ThreadMatches(Spawn(b.sqes), b)
  {
  }

  lemma DoneIsJoined(t: Thread, b: Born)
    requires ThreadMatches(t, b) && Done(t)
    ensures JoinedOk(b, t.results)
  {
  }

  lemma InvStep(s: Sys, p: Past, a: Action)
    requires Inv(s, p) && Enabled(s, a)
    ensures Inv(Do(s, a), Track(s, p, a))
  {
    hide Stored, Indexed, Do, Track, Submitted, Completions;
    ProtocolStep(s, p, a);
    AccountsStep(s, p, a);
    LedgerStep(s, p, a);
    ChainsStep(s, p, a);
  }

  /** The invariant holds after every legal schedule, from rings of any sizes `build` accepts. */
  lemma {:induction false} Safe(n: nat, k: nat, mem: Mem, acts: seq<Action>)
    requires Sizes(n, k) && Legal(Start(n, k, mem), acts)
    ensures Inv(Exec(Start(n, k, mem), acts), History(Start(n, k, mem), acts))
    decreases |acts|
  {
    var s := Start(n, k, mem);
    if acts == [] {
      InitInv(s.sq.ring);
      InitInv(s.cq.ring);
    } else {
      var m := |acts| - 1;
      Safe(n, k, mem, acts[..m]);
      InvStep(Exec(s, acts[..m]), History(s, acts[..m]), acts[m]);
    }
  }
}
