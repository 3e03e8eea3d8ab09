/** The whole emulator as a transition system. The user's queue handles, the submitter and
    the background threads take turns; every step makes at most one access to a shared
    index that somebody else may be writing or reading, or runs one SQE, or is one write of
    user code to its own memory. (Borrowing a queue loads two indices, but one of them only
    the borrower writes.) */
module Machine {
  import opened Words
  import opened Entries
  import opened Effects
  import opened Batch
  import opened Spsc

  // ----- concrete state -----

  /** Where the submitter is inside `enter`, `flush_pending` or `RingMemory::drop`. */
  datatype Sub =
    | Idle
    | LoadHead(want: u32, flush: bool)
    | LoadTail(want: u32, flush: bool)
    | Copy(left: u32, snap: seq<Sqe>, flush: bool)  // snapshotting, then the head store
    | Join                                          // between batches of a flush
    | Post(todo: seq<CompletionData>)               // todo: results of the joined batch
    | CqTail(todo: seq<CompletionData>)             // todo[0] is being posted
    | CqHead(todo: seq<CompletionData>)
    | Decide(todo: seq<CompletionData>)
    | StoreTail(todo: seq<CompletionData>)          // slot written, todo[0] no longer in todo
    | SetFlag(todo: seq<CompletionData>)            // first overflow counted
    | Closing
    | Closed

  datatype Sys = Sys(
    sq: Chan<Sqe>, sqOpen: bool,
    cq: Chan<Cqe>, cqOpen: bool,
    sub: Sub, threads: seq<Thread>, mem: Mem,
    sqFlags: u32, overflow: u32)

  predicate WellShaped(s: Sys) { Shaped(s.sq.ring) && Shaped(s.cq.ring) }

  datatype Action =
    | SqBorrow | SqPush(entry: Sqe) | SqPublish | SqRefresh | SqDrop
    | CqBorrow | CqNext | CqRelease | CqRefresh | CqDrop
    | Enter(want: u32, flush: bool) | Flush | DropRing
    | SubStep
    | RunSqe(i: nat)
    | UserWrite(bytes: Mem)

  /** When an action may happen. A join waits for its thread; a queue has one handle at a
      time; the ring is dropped after its handles. */
  predicate Enabled(s: Sys, a: Action) {
    match a
    case SqBorrow => !s.sqOpen && !s.sub.Closing? && !s.sub.Closed?
    case SqPush(_) => s.sqOpen
    case SqPublish => s.sqOpen
    case SqRefresh => s.sqOpen
    case SqDrop => s.sqOpen
    case CqBorrow => !s.cqOpen && !s.sub.Closing? && !s.sub.Closed?
    case CqNext => s.cqOpen
    case CqRelease => s.cqOpen
    case CqRefresh => s.cqOpen
    case CqDrop => s.cqOpen
    case Enter(_, _) => s.sub.Idle?
    case Flush => s.sub.Idle?
    case DropRing => s.sub.Idle? && !s.sqOpen && !s.cqOpen
    case SubStep =>
      match s.sub {
        case Idle => false
        case Closed => false
        case Join => s.threads == [] || Done(s.threads[0])
        case Closing => s.threads == [] || Done(s.threads[0])
        case CqTail(todo) => todo != []
        case CqHead(todo) => todo != []
        case Decide(todo) => todo != []
        case _ => true
      }
    case RunSqe(i) => i < |s.threads| && !Done(s.threads[i])
    case UserWrite(_) => true
  }

  function CqeOf(cd: CompletionData): Cqe { Cqe(cd.userData, cd.result, 0) }

  /** After the submission half of `enter`: flush, or return. */
  function Then(flush: bool): Sub { if flush then Join else Idle }

  function Do(s: Sys, a: Action): (s': Sys)
    requires WellShaped(s) && Enabled(s, a)
    ensures WellShaped(s')
    ensures |s'.sq.ring.slots| == |s.sq.ring.slots| && |s'.cq.ring.slots| == |s.cq.ring.slots|
  {
    match a
    case SqBorrow => s.(sqOpen := true, sq := ReloadTail(SeeHead(s.sq)))
    case SqPush(entry) => if ProdLen(s.sq) == |s.sq.ring.slots| then s else s.(sq := Put(s.sq, entry))
    case SqPublish => s.(sq := Publish(s.sq))
    case SqRefresh => s.(sq := SeeHead(s.sq))
    case SqDrop => s.(sqOpen := false, sq := Publish(s.sq))
    case CqBorrow => s.(cqOpen := true, cq := SeeTail(ReloadHead(s.cq)))
    case CqNext => if s.cq.cons.head == s.cq.cons.tail then s else s.(cq := Take(s.cq))
    case CqRelease => s.(cq := Release(s.cq))
    case CqRefresh => s.(cq := SeeTail(s.cq))
    case CqDrop => s.(cqOpen := false, cq := Release(s.cq))
    case Enter(want, flush) => s.(sub := LoadHead(want, flush))
    case Flush => s.(sub := Join)
    case DropRing => s.(sub := Closing)
    case SubStep => DoSub(s)
    case RunSqe(i) =>
      var t := s.threads[i];
      s.(threads := s.threads[i := Advance(t, s.mem)], mem := s.mem + StepEffect(t, s.mem).writes)
    case UserWrite(bytes) => s.(mem := s.mem + bytes)
  }

  function DoSub(s: Sys): (s': Sys)
    requires WellShaped(s) && Enabled(s, SubStep)
    ensures WellShaped(s')
    ensures |s'.sq.ring.slots| == |s.sq.ring.slots| && |s'.cq.ring.slots| == |s.cq.ring.slots|
  {
    match s.sub
    case LoadHead(want, flush) => s.(sq := ReloadHead(s.sq), sub := LoadTail(want, flush))
    case LoadTail(want, flush) =>
      var sq := SeeTail(s.sq);
      var n: u32 := if want <= ConsLen(sq) then want else ConsLen(sq);
      s.(sq := sq, sub := if n == 0 then Then(flush) else Copy(n, [], flush))
    case Copy(left, snap, flush) =>
      if left > 0 then s.(sq := Take(s.sq), sub := Copy(left - 1, snap + [Peek(s.sq)], flush))
      else s.(sq := Release(s.sq), threads := s.threads + [Spawn(snap)], sub := Then(flush))
    case Join =>
      if s.threads == [] then s.(sub := Idle)
      else s.(threads := s.threads[1..], sub := Post(s.threads[0].results))
    case Post(todo) =>
      s.(sub := if todo == [] then Join
                else if Suppressed(todo[0]) then Post(todo[1..])
                else CqTail(todo))
    case CqTail(todo) => s.(cq := ReloadTail(s.cq), sub := CqHead(todo))
    case CqHead(todo) => s.(cq := SeeHead(s.cq), sub := Decide(todo))
    case Decide(todo) =>
      if ProdLen(s.cq) >= |s.cq.ring.slots| then
        s.(overflow := WrappingAdd(s.overflow, 1),
           sub := if s.overflow == 0 then SetFlag(todo[1..]) else Post(todo[1..]))
      else s.(cq := Put(s.cq, CqeOf(todo[0])), sub := StoreTail(todo[1..]))
    case StoreTail(todo) => s.(cq := Publish(s.cq), sub := Post(todo))
    case SetFlag(todo) => s.(sqFlags := Or32(s.sqFlags, SQ_CQ_OVERFLOW), sub := Post(todo))
    case Closing =>
      if s.threads == [] then s.(sub := Closed) else s.(threads := s.threads[1..])
  }

  // ----- runs -----

  /** Rings of the given sizes as `build` leaves them. */
  function EmptyRing<T>(n: nat, zero: T): Ring<T>
    requires 0 < n <= 0x8000_0000
  {
    Ring(seq(n, _ => zero), n - 1, 0, 0)
  }

  predicate Sizes(sqEntries: nat, cqEntries: nat) {
    && IsPow2(sqEntries) && sqEntries <= 0x8000_0000
    && IsPow2(cqEntries) && cqEntries <= 0x8000_0000
  }

  function Start(sqEntries: nat, cqEntries: nat, mem: Mem): (s: Sys)
    requires Sizes(sqEntries, cqEntries)
    ensures WellShaped(s)
  {
    Sys(Chan(EmptyRing(sqEntries, ZERO_SQE), View(0, 0), View(0, 0)), false,
        Chan(EmptyRing(cqEntries, ZERO_CQE), View(0, 0), View(0, 0)), false,
        Idle, [], mem, 0, 0)
  }

  /** A schedule is legal when each action is enabled where it happens. */
  ghost predicate Legal(s: Sys, acts: seq<Action>)
    requires WellShaped(s)
    decreases |acts|, 0
  {
    acts == [] || (
      var n := |acts| - 1;
      Legal(s, acts[..n]) && Enabled(Exec(s, acts[..n]), acts[n]))
  }

  ghost function Exec(s: Sys, acts: seq<Action>): (s': Sys)
    requires WellShaped(s) && Legal(s, acts)
    ensures WellShaped(s')
    ensures |s'.sq.ring.slots| == |s.sq.ring.slots| && |s'.cq.ring.slots| == |s.cq.ring.slots|
    decreases |acts|, 1
  {
    if acts == [] then s
    else
      var n := |acts| - 1;
      Do(Exec(s, acts[..n]), acts[n])
  }

  // ----- history: what has happened, on unbounded positions -----

  datatype Fate = Posted | Dropped | Skipped

  datatype Verdict = Verdict(cd: CompletionData, fate: Fate)

  /** A batch: its SQEs, the actual and the reference memory when it was spawned, and the
      memory each of its SQEs has met so far. */
  datatype Born = Born(sqes: seq<Sqe>, birth: Mem, ref: Mem, met: seq<Mem>)

  /** Thread i of the state runs batch |joined| + i. The first `flushed` joins were made by
      flushes, any later ones by dropping the ring. */
  datatype Past = Past(
    sq: Trace<Sqe>, cq: Trace<Cqe>,
    reaped: seq<Cqe>,                      // what CqNext returned
    born: seq<Born>,                       // every batch ever spawned
    joined: seq<seq<CompletionData>>,      // what each joined batch recorded
    flushed: nat,
    verdicts: seq<Verdict>,                // one per completion a flush has dealt with
    ref: Mem)                              // memory if every batch ran atomically at submission

  const NOTHING: Past :=
    Past(Trace([], 0, 0, 0, 0, 0), Trace([], 0, 0, 0, 0, 0), [], [], [], 0, [], map[])

  ghost predicate Matched(s: Sys, p: Past) { |p.born| == |p.joined| + |s.threads| }

  ghost function Track(s: Sys, p: Past, a: Action): (p': Past)
    requires WellShaped(s) && Enabled(s, a) && Matched(s, p)
    ensures Matched(Do(s, a), p')
  {
    match a
    case SqBorrow => p.(sq := p.sq.(pHead := p.sq.head))
    case SqPush(entry) => if ProdLen(s.sq) == |s.sq.ring.slots| then p else p.(sq := p.sq.(log := p.sq.log + [entry]))
    case SqPublish => p.(sq := p.sq.(tail := |p.sq.log|))
    case SqRefresh => p.(sq := p.sq.(pHead := p.sq.head))
    case SqDrop => p.(sq := p.sq.(tail := |p.sq.log|))
    case CqBorrow => p.(cq := p.cq.(cTail := p.cq.tail))
    case CqNext =>
      if s.cq.cons.head == s.cq.cons.tail then p
      else p.(cq := p.cq.(cHead := p.cq.cHead + 1), reaped := p.reaped + [Peek(s.cq)])
    case CqRelease => p.(cq := p.cq.(head := p.cq.cHead))
    case CqRefresh => p.(cq := p.cq.(cTail := p.cq.tail))
    case CqDrop => p.(cq := p.cq.(head := p.cq.cHead))
    case Enter(_, _) => p
    case Flush => p
    case DropRing => p
    case SubStep => TrackSub(s, p)
    case RunSqe(i) =>
      var k := |p.joined| + i;
      p.(born := p.born[k := p.born[k].(met := p.born[k].met + [s.mem])])
    case UserWrite(bytes) => p.(ref := p.ref + bytes)
  }

  ghost function TrackSub(s: Sys, p: Past): (p': Past)
    requires WellShaped(s) && Enabled(s, SubStep) && Matched(s, p)
    ensures Matched(DoSub(s), p')
  {
    match s.sub
    case LoadTail(_, _) => p.(sq := p.sq.(cTail := p.sq.tail))
    case Copy(left, snap, _) =>
      if left > 0 then p.(sq := p.sq.(cHead := p.sq.cHead + 1))
      else
        p.(sq := p.sq.(head := p.sq.cHead), born := p.born + [Born(snap, s.mem, p.ref, [])],
           ref := After(p.ref, Plan(p.ref, snap, false)))
    case Join =>
      if s.threads == [] then p
      else p.(joined := p.joined + [s.threads[0].results], flushed := p.flushed + 1)
    case Post(todo) =>
      if todo != [] && Suppressed(todo[0]) then p.(verdicts := p.verdicts + [Verdict(todo[0], Skipped)]) else p
    case CqHead(_) => p.(cq := p.cq.(pHead := p.cq.head))
    case Decide(todo) =>
      if ProdLen(s.cq) >= |s.cq.ring.slots| then p.(verdicts := p.verdicts + [Verdict(todo[0], Dropped)])
      else
        p.(cq := p.cq.(log := p.cq.log + [CqeOf(todo[0])]),
           verdicts := p.verdicts + [Verdict(todo[0], Posted)])
    case StoreTail(_) => p.(cq := p.cq.(tail := |p.cq.log|))
    case Closing =>
      if s.threads == [] then p
      else p.(joined := p.joined + [s.threads[0].results])
    case _ => p
  }

  /** The history of a run from a start state. */
  ghost function History(s: Sys, acts: seq<Action>): (p: Past)
    requires WellShaped(s) && s.threads == [] && Legal(s, acts)
    ensures Matched(Exec(s, acts), p)
    decreases |acts|
  {
    if acts == [] then NOTHING.(ref := s.mem)
    else
      var n := |acts| - 1;
      Track(Exec(s, acts[..n]), History(s, acts[..n]), acts[n])
  }
}
