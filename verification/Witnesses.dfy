/** Concrete inputs for behaviours the documentation denies or leaves open. */
module Witnesses {
  import opened Words
  import opened Entries
  import opened Effects
  import opened Dispatching
  import opened Batch
  import opened Machine
  import Safety
  import opened Guarantees
  import opened Schedules
  import opened Flushing
  import opened Boundaries
  import opened IoUringObjects
  import opened Queues

  /** A no-op that completes with -1, and carries the given link bits. */
  function Failing(flags: u8): Sqe { ZERO_SQE.(flags := flags, opFlags := NOP_INJECT_RESULT, len := 0xFFFF_FFFF) }

  function Linked(flags: u8): Sqe { ZERO_SQE.(flags := flags) }

  lemma NopEffects(flags: u8, m: Mem)
    ensures Dispatch(Failing(flags), m) == Pure(-1) && Dispatch(Linked(flags), m) == Pure(0)
  {
    assert And(NOP_INJECT_RESULT, NOP_INJECT_RESULT) == 1 && And(0, NOP_INJECT_RESULT) == 0;
  }

  lemma LinkBits()
    ensures Has(IO_LINK, IO_LINK) && !Has(IO_LINK, IO_HARDLINK) && Has(IO_HARDLINK, IO_HARDLINK)
    ensures !Has(0, IO_LINK) && !Has(0, IO_HARDLINK) && Has(IO_LINK + IO_HARDLINK, IO_HARDLINK)
    ensures Has(IO_LINK + IO_HARDLINK, IO_LINK)
  {
    assert IO_LINK + IO_HARDLINK == 12 && And(12, 8) == 8 && And(12, 4) == 4;
  }

  lemma PlanTwo(m: Mem, a: Sqe, b: Sqe)
    ensures var e := Dispatch(a, m);
      Plan(m, [a, b], false) == [e, EffectOf(b, NextCancel(a, false, e.res), m + e.writes)]
  {
    hide Dispatch, NextCancel;
    var e := Dispatch(a, m);
    assert [a, b][1..] == [b] && [b][1..] == [];
    assert Plan(m + e.writes, [b], NextCancel(a, false, e.res))
      == [EffectOf(b, NextCancel(a, false, e.res), m + e.writes)];
  }

  /** A hard link does not protect its own entry: behind a soft-linked failure it is cancelled. */
  lemma HardLinkIsCancelled(m: Mem)
    ensures Outcomes(Plan(m, [Failing(IO_LINK), Linked(IO_HARDLINK)], false)) == [-1, ECANCELED]
  {
    hide Dispatch, Plan, Has;
    NopEffects(IO_LINK, m);
    LinkBits();
    PlanTwo(m, Failing(IO_LINK), Linked(IO_HARDLINK));
  }

  /** A failing entry with both link bits does not sever its chain: it counts as hard. */
  lemma BothBitsAreHard(m: Mem)
    ensures Outcomes(Plan(m, [Failing(IO_LINK + IO_HARDLINK), Linked(0)], false)) == [-1, 0]
  {
    hide Dispatch, Plan, Has;
    NopEffects(IO_LINK + IO_HARDLINK, m);
    NopEffects(0, m + map[]);
    LinkBits();
    PlanTwo(m, Failing(IO_LINK + IO_HARDLINK), Linked(0));
  }

  lemma PlanThree(m: Mem, a: Sqe, b: Sqe, c: Sqe)
    ensures var e := Dispatch(a, m);
      var m1 := m + e.writes;
      var f := EffectOf(b, NextCancel(a, false, e.res), m1);
      var g := EffectOf(c, NextCancel(b, NextCancel(a, false, e.res), f.res), m1 + f.writes);
      Plan(m, [a, b, c], false) == [e, f, g]
  {
    hide Dispatch, NextCancel;
    var e := Dispatch(a, m);
    var m1, x := m + e.writes, NextCancel(a, false, e.res);
    var f := EffectOf(b, x, m1);
    var m2, y := m1 + f.writes, NextCancel(b, x, f.res);
    assert [a, b, c][1..] == [b, c] && [b, c][1..] == [c] && [c][1..] == [];
    assert Plan(m2, [c], y) == [EffectOf(c, y, m2)];
    assert Plan(m1, [b, c], x) == [f] + Plan(m2, [c], y);
  }

  /** Nor does it end the chain: what it links to is cancelled as well. */
  lemma HardLinkPassesCancellation(m: Mem)
    ensures Outcomes(Plan(m, [Failing(4), Linked(8), Linked(0)], false)) == [-1, -125, -125]
  {
    hide Dispatch, Plan, Has;
    NopEffects(4, m);
    LinkBits();
    PlanThree(m, Failing(4), Linked(8), Linked(0));
  }

  // ----- a full completion queue drops -----

  const NOP: Sqe := Linked(0)

  lemma TwoNops(m: Mem)
    ensures Sound([Spawn([NOP, NOP])])
    ensures Visible(AllResults([Spawn([NOP, NOP])], m)) == [Cqe(0, 0, 0), Cqe(0, 0, 0)]
  {
    hide Dispatch, Plan, Has, Visible, AllResults;
    AloneIsPlan([NOP, NOP], m);
    NopEffects(0, m);
    NopEffects(0, m + map[]);
    LinkBits();
    PlanTwo(m, NOP, NOP);
    var cd := Record(NOP, 0);
    VisibleSnoc([], cd);
    VisibleSnoc([cd], cd);
    NothingVisible();
    assert [] + [cd] == [cd] && AllResults([Spawn([NOP, NOP])], m) == [cd] + [cd];
    assert !Has(0, SKIP_SUCCESS) by { NoSkip(); }
  }

  lemma NoSkip()
    ensures !Has(0, SKIP_SUCCESS)
  {
  }

  lemma Fresh(ring: IoUring, n: nat, k: nat)
    requires ring.Valid() && ring.acts == [] && Sizes(n, k)
    requires ring.Model() == Start(n, k, ring.memory.bytes)
    ensures ring.past == NOTHING.(ref := ring.mem0) && ring.pending == [] && ring.sub == Idle
    ensures !ring.sqOpen && !ring.cqOpen && ring.cqOverflow == 0 && ring.sqFlags == 0
  {
  }

  lemma TwoOffered()
    ensures var c := Cqe(0, 0, 0);
      Offered(Board.Board([], 0, 0), 1, [c, c]) == Board.Board([c], 1, SQ_CQ_OVERFLOW)
  {
    var c := Cqe(0, 0, 0);
    assert [c, c][..1] == [c];
  }

  method FlushTwo(ring: IoUring)
    requires ring.Valid() && ring.sub == Idle && ring.pending == [] && ring.cqes.Length == 1
    requires ring.past.sq.log == [NOP, NOP] && ring.past.sq.head == 0 && ring.past.sq.tail == 2
    requires ring.past.cq.head == 0 && ring.Shown() == Board.Board([], 0, 0)
    modifies ring, ring.cqes, ring.memory
    ensures ring.Valid() && ring.sub == Idle && ring.pending == []
    ensures ring.Shown() == Board.Board([Cqe(0, 0, 0)], 1, SQ_CQ_OVERFLOW)
  {
    hide ReachedBy, Visible, AllResults, AllAfter, Safety.Completions, Plan, Dispatch, Offered, IoUring.Model, IoUring.Valid;
    TwoNops(ring.memory.bytes);
    TwoOffered();
    assert ring.past.sq.log[0..2] == [NOP, NOP];
    assert ring.pending + [Spawn([NOP, NOP])] == [Spawn([NOP, NOP])];
    var n := ring.SubmitAndWait(1, []);
  }

  /** Two no-ops submitted to a ring with one completion slot and flushed: one completion is
      posted, the other dropped and counted, though the ring reports the no-drop feature. */
  method TwoIntoOne(memory: Memory) returns (ring: IoUring)
    modifies memory
    ensures fresh(ring) && ring.memory == memory && ring.Valid() && ring.sub == Idle && ring.pending == []
    ensures ring.Shown() == Board.Board([Cqe(0, 0, 0)], 1, SQ_CQ_OVERFLOW)
    ensures Safety.Count(ring.past.verdicts, Dropped) > 0
  {
    hide ReachedBy, Safety.Count, IoUring.Model, IoUring.Valid, Offered;
    ring := SmallRing(memory);
    PushTwo(ring);
    FlushTwo(ring);
    ring.DropFacts();
  }

  lemma SmallSizes()
    ensures Sizes(2, 1)
  {
    assert IsPow2(1) && IsPow2(2);
  }

  method SmallRing(memory: Memory) returns (ring: IoUring)
    ensures fresh(ring) && fresh(ring.sqes) && fresh(ring.cqes) && ring.memory == memory && ring.Valid()
    ensures ring.sqes.Length == 2 && ring.cqes.Length == 1 && ring.past == NOTHING.(ref := ring.mem0)
    ensures ring.pending == [] && ring.sub == Idle && !ring.sqOpen && ring.cqOverflow == 0 && ring.sqFlags == 0
  {
    hide ReachedBy, Start, Sizes, IoUring.Model, IoUring.Valid;
    SmallSizes();
    ring := new IoUring(2, 1, memory);
    Fresh(ring, 2, 1);
  }

  method PushTwo(ring: IoUring)
    requires ring.Valid() && ring.sub == Idle && !ring.sqOpen && ring.sqes.Length == 2
    requires ring.past == NOTHING.(ref := ring.mem0)
    modifies ring`sqOpen, ring`sqUser, ring`sqTail, ring`acts, ring`past, ring.sqes
    ensures ring.Valid() && ring.past.cq == NOTHING.cq
    ensures ring.past.sq.log == [NOP, NOP] && ring.past.sq.head == 0 && ring.past.sq.tail == 2
  {
    hide ReachedBy, IoUring.Model, IoUring.Valid, Dispatch;
    var sq := new SubmissionQueue(ring);
    var ok := sq.PushMultiple([NOP, NOP]);
    assert [] + [NOP, NOP] == [NOP, NOP];
    sq.Drop();
  }
}
