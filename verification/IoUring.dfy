/** The emulator's objects as they run. Every access to shared memory is recorded as one
    action, and `Valid` says the recorded actions are a legal run of the machine that ends
    in the object's present state: all that is proved of runs holds of these objects. */
module IoUringObjects {
  import opened Words
  import opened Entries
  import opened Effects
  import opened Dispatching
  import opened Batch
  import opened Spsc
  import opened Machine
  import opened Safety
  import opened Guarantees
  import opened Schedules
  import opened Flushing
  import opened Streams
  import opened Interface

  lemma HistorySnoc(s: Sys, acts: seq<Action>, a: Action)
    requires WellShaped(s) && s.threads == [] && Legal(s, acts) && Enabled(Exec(s, acts), a)
    ensures Legal(s, acts + [a]) && Exec(s, acts + [a]) == Do(Exec(s, acts), a)
    ensures History(s, acts + [a]) == Track(Exec(s, acts), History(s, acts), a)
  {
    hide Do, Track;
    assert (acts + [a])[..|acts|] == acts;
  }

  lemma TailLoaded(s: Sys, p: Past, want: u32, flush: bool)
    requires WellShaped(s) && Matched(s, p) && s.sub == LoadTail(want, flush)
    ensures var sq := SeeTail(s.sq);
      var n := Min(want, ConsLen(sq));
      Do(s, SubStep) == s.(sq := sq, sub := if n == 0 then Then(flush) else Copy(n, [], flush))
    ensures Track(s, p, SubStep) == p.(sq := p.sq.(cTail := p.sq.tail))
  {
  }

  /** One turn of a background thread's loop: dispatch the SQE or cancel it, then work out
      whether its chain is cancelled from here on. */
  method Turn(memory: Memory, t: Thread) returns (t': Thread)
    requires !Done(t)
    modifies memory
    ensures t' == Advance(t, old(memory.bytes))
    ensures memory.bytes == old(memory.bytes) + StepEffect(t, old(memory.bytes)).writes
    ensures var q, r := t.sqes[t.pc], t'.results[|t.results|];
      && t'.pc == t.pc + 1 && |t'.results| == |t.results| + 1
      && r.userData == q.userData && (r.skipSuccess <==> q.flags / 64 % 2 == 1)
      && (t.cancel ==> r.result == -125 && memory.bytes == old(memory.bytes))
      && (t'.cancel <==> q.flags / 4 % 4 != 0 && (t.cancel || (r.result < 0 && q.flags / 4 % 4 == 1)))
  {
    hide And, Dispatch;
    FlagBits(t.sqes[t.pc].flags);
    LinkBits(t.sqes[t.pc]);
    var q := t.sqes[t.pc];
    var skipSuccess := Has(q.flags, SKIP_SUCCESS);
    var result;
    if t.cancel {
      result := ECANCELED;
      Regroup(memory.bytes, map[], map[]);
    } else {
      result := memory.DispatchOp(q);
    }
    var linksToNext := Has(q.flags, IO_LINK) || Has(q.flags, IO_HARDLINK);
    var cancelChain := t.cancel;
    if linksToNext && result < 0 {
      var currentIsHardlink := Has(q.flags, IO_HARDLINK);
      if !currentIsHardlink { cancelChain := true; }
    }
    if !linksToNext { cancelChain := false; }
    t' := Thread(t.sqes, t.pc + 1, cancelChain, t.results + [CompletionData(q.userData, result, skipSuccess)]);
  }

  /** What may happen elsewhere while the submitter waits for a thread. */
  datatype Meanwhile = Runs(i: nat) | Stores(bytes: Mem)

  class IoUring {
    const sqMask: u32
    const cqMask: u32
    const sqes: array<Sqe>
    const cqes: array<Cqe>
    const memory: Memory

    var sqHead: u32
    var sqTail: u32
    var sqFlags: u32
    var cqHead: u32
    var cqTail: u32
    var cqOverflow: u32
    var pending: seq<Thread>

    // the cached indices of each side, the open handles, the submitter's position
    ghost var sqUser: View
    ghost var sqSub: View
    ghost var cqSub: View
    ghost var cqUser: View
    ghost var sqOpen: bool
    ghost var cqOpen: bool
    ghost var sub: Sub

    ghost const mem0: Mem
    ghost var acts: seq<Action>
    ghost var past: Past

    ghost function Model(): Sys
      reads this, sqes, cqes, memory
    {
      Sys(Chan(Ring(sqes[..], sqMask, sqHead, sqTail), sqUser, sqSub), sqOpen,
          Chan(Ring(cqes[..], cqMask, cqHead, cqTail), cqSub, cqUser), cqOpen,
          sub, pending, memory.bytes, sqFlags, cqOverflow)
    }

    ghost predicate Sized() { Sizes(sqes.Length, cqes.Length) && sqMask == sqes.Length - 1 && cqMask == cqes.Length - 1 }

    ghost function Begin(): (s: Sys)
      requires Sized()
      ensures WellShaped(s) && s.threads == []
    {
      Start(sqes.Length, cqes.Length, mem0)
    }

    /** The object is where the recorded actions lead, and `past` is their history. */
    ghost predicate Valid()
      reads this, sqes, cqes, memory
    {
      && Sized() && ReachedBy(Model(), past, sqes.Length, cqes.Length, mem0, acts)
      && Ordered(sqes.Length, past.sq) && Ordered(cqes.Length, past.cq) && Matched(Model(), past)
    }

    lemma Facts()
      requires Valid()
      ensures Safety.Inv(Model(), past)
    {
      Safe(sqes.Length, cqes.Length, mem0, acts);
    }

    /** Note one action of the machine as taken. */
    ghost method Record(a: Action, before: Sys)
      requires Sized() && ReachedBy(before, past, sqes.Length, cqes.Length, mem0, acts)
      requires Enabled(before, a) && Model() == Do(before, a)
      modifies this`acts, this`past
      ensures Valid() && acts == old(acts) + [a] && past == Track(before, old(past), a)
    {
      hide Do, Track, Legal, Exec, History;
      HistorySnoc(Begin(), acts, a);
      acts, past := acts + [a], Track(before, past, a);
      Safe(sqes.Length, cqes.Length, mem0, acts);
    }

    constructor (sqEntries: nat, cqEntries: nat, memory: Memory)
      requires Sizes(sqEntries, cqEntries)
      ensures Valid() && sqes.Length == sqEntries && cqes.Length == cqEntries
      ensures fresh(sqes) && fresh(cqes) && this.memory == memory
      ensures Model() == Start(sqEntries, cqEntries, memory.bytes) && acts == []
    {
      sqMask, cqMask := sqEntries - 1, cqEntries - 1;
      sqHead, sqTail, sqFlags, cqHead, cqTail, cqOverflow := 0, 0, 0, 0, 0, 0;
      pending := [];
      sqes := new Sqe[sqEntries](_ => ZERO_SQE);
      cqes := new Cqe[cqEntries](_ => ZERO_CQE);
      this.memory := memory;
      sqUser, sqSub, cqSub, cqUser := View(0, 0), View(0, 0), View(0, 0), View(0, 0);
      sqOpen, cqOpen, sub := false, false, Idle;
      mem0 := memory.bytes;
      acts, past := [], NOTHING.(ref := memory.bytes);
      new;
      assert sqes[..] == seq(sqEntries, _ => ZERO_SQE);
      assert cqes[..] == seq(cqEntries, _ => ZERO_CQE);
    }

    // ----- submission -----

    /** The number of published SQEs not yet consumed. */
    method SqLen() returns (n: u32)
      requires Valid()
      ensures n == past.sq.tail - past.sq.head
    {
      n := WrappingSub(sqTail, sqHead);
      Facts();
      WrapDistance(past.sq.tail, past.sq.head);
    }

    /** Load the shared head, then the shared tail; how many SQEs to take. */
    method LoadSq(toSubmit: u32, ghost flush: bool) returns (head: u32, n: u32)
      requires Valid() && sub.Idle?
      modifies this`sqSub, this`sub, this`acts, this`past
      ensures Valid()
      ensures sub == if n == 0 then Then(flush) else Copy(n, [], flush)
      ensures past == old(past).(sq := old(past.sq).(cTail := old(past.sq.tail)))
      ensures n == Min(toSubmit, past.sq.tail - past.sq.head)
      ensures head == sqSub.head
    {
      hide ReachedBy, Legal, Exec, History, IsPow2, And;
      Facts();
      ghost var s := Model();
      sub := LoadHead(toSubmit, flush);
      Record(Action.Enter(toSubmit, flush), s);
      head, n := LoadIndices(toSubmit, flush);
    }

    method LoadIndices(toSubmit: u32, ghost flush: bool) returns (head: u32, n: u32)
      requires Valid() && sub == LoadHead(toSubmit, flush)
      modifies this`sqSub, this`sub, this`acts, this`past
      ensures Valid()
      ensures sub == if n == 0 then Then(flush) else Copy(n, [], flush)
      ensures past == old(past).(sq := old(past.sq).(cTail := old(past.sq.tail)))
      ensures n == Min(toSubmit, past.sq.tail - past.sq.head)
      ensures head == sqSub.head
    {
      hide ReachedBy, Legal, Exec, History, IsPow2, And;
      ghost var s := Model();
      head := sqHead;
      sqSub, sub := View(head, sqSub.tail), LoadTail(toSubmit, flush);
      Record(SubStep, s);
      n := LoadSqTail(toSubmit, head, flush);
    }

    method LoadSqTail(toSubmit: u32, head: u32, ghost flush: bool) returns (n: u32)
      requires Valid() && sub == LoadTail(toSubmit, flush) && sqSub.head == head
      modifies this`sqSub, this`sub, this`acts, this`past
      ensures Valid() && sqSub.head == head
      ensures sub == if n == 0 then Then(flush) else Copy(n, [], flush)
      ensures past == old(past).(sq := old(past.sq).(cTail := old(past.sq.tail)))
      ensures n == Min(toSubmit, past.sq.tail - past.sq.head)
    {
      hide ReachedBy, IsPow2, WrappingSub, Do, Track;
      ghost var s := Model();
      TakeFacts();
      TailLoaded(s, past, toSubmit, flush);
      var tail := sqTail;
      var available := WrappingSub(tail, head);
      n := if toSubmit <= available then toSubmit else available;
      sqSub := View(head, tail);
      sub := if n == 0 then Then(flush) else Copy(n, [], flush);
      Record(SubStep, s);
    }

    /** The wrapped difference of the shared indices is the number of waiting SQEs. */
    lemma TakeFacts()
      requires Valid() && !sub.Copy?
      ensures WrappingSub(sqTail, sqSub.head) == past.sq.tail - past.sq.head
    {
      Facts();
      WrapDistance(past.sq.tail, past.sq.head);
    }

    /** Read one SQE out of the ring. */
    method CopyOne(head: u32, sqesSoFar: seq<Sqe>) returns (q: Sqe)
      requires Valid() && sub.Copy? && sub.left > 0 && sub.snap == sqesSoFar && head == sqSub.head
      modifies this`sqSub, this`sub, this`acts, this`past
      ensures Valid() && sub == Copy(old(sub.left) - 1, sqesSoFar + [q], old(sub.flush))
      ensures past == old(past).(sq := old(past.sq).(cHead := old(past.sq.cHead) + 1))
      ensures sqSub.head == WrappingAdd(head, 1)
    {
      hide ReachedBy, Legal, Exec, History, IsPow2, And;
      ghost var s := Model();
      q := sqes[And(head, sqMask)];
      sqSub := View(WrappingAdd(head, 1), sqSub.tail);
      sub := Copy(sub.left - 1, sqesSoFar + [q], sub.flush);
      Record(SubStep, s);
    }

    /** `enqueue_sqes`: take up to `toSubmit` published SQEs off the submission queue, in
        order, and hand them to one new thread. */
    method EnqueueSqes(toSubmit: u32, ghost flush: bool) returns (n: u32)
      requires Valid() && sub.Idle?
      modifies this`sqHead, this`pending, this`sqSub, this`sub, this`acts, this`past
      ensures Valid() && sub == Then(flush)
      ensures n == Min(toSubmit, old(past.sq.tail - past.sq.head))
      ensures past.sq.log == old(past.sq.log) && past.sq.head == old(past.sq.head) + n
      ensures pending == if n == 0 then old(pending)
        else old(pending) + [Spawn(old(past.sq.log)[old(past.sq.head)..old(past.sq.head) + n])]
      ensures past.cq == old(past.cq) && past.verdicts == old(past.verdicts) && past.joined == old(past.joined)
    {
      hide ReachedBy, Model;
      var head;
      head, n := LoadSq(toSubmit, flush);
      if n == 0 { return; }
      var sqes: seq<Sqe> := [];
      ghost var p := past;
      StartFacts();
      for i := 0 to n
        invariant Valid() && sub == Copy(n - i, sqes, flush) && head == sqSub.head
        invariant past == p.(sq := p.sq.(cHead := p.sq.cHead + i)) && pending == old(pending)
      {
        var q := CopyOne(head, sqes);
        sqes := sqes + [q];
        head := WrappingAdd(head, 1);
      }
      SnapFacts();
      StoreSqHead(head, sqes);
    }

    lemma StartFacts()
      requires Valid() && sub.Copy? && sub.snap == []
      ensures past.sq.cHead == past.sq.head
    {
      Facts();
    }

    lemma SnapFacts()
      requires Valid() && sub.Copy?
      ensures sub.snap == past.sq.log[past.sq.head..past.sq.cHead]
    {
      Facts();
    }

    /** Store the head and spawn the thread. */
    method StoreSqHead(head: u32, sqes: seq<Sqe>)
      requires Valid() && sub.Copy? && sub.left == 0 && sub.snap == sqes && head == sqSub.head
      modifies this`sqHead, this`pending, this`sub, this`acts, this`past
      ensures Valid() && sub == Then(old(sub.flush))
      ensures past.sq == old(past.sq).(head := old(past.sq.cHead))
      ensures past.cq == old(past.cq) && past.verdicts == old(past.verdicts) && past.joined == old(past.joined)
      ensures pending == old(pending) + [Spawn(sqes)]
    {
      hide ReachedBy, IsPow2, After, Plan, Dispatch;
      ghost var s := Model();
      sqHead := head;
      pending := pending + [Spawn(sqes)];
      sub := Then(sub.flush);
      Record(SubStep, s);
    }

    // ----- completion -----

    /** `post_cqe`, up to the full check: load the tail, then the head. */
    method LoadCq(ghost todo: seq<CompletionData>) returns (tail: u32, head: u32)
      requires Valid() && todo != [] && sub == CqTail(todo)
      modifies this`cqSub, this`sub, this`acts, this`past
      ensures Valid() && sub == Decide(todo) && cqSub == View(head, tail)
      ensures past == old(past).(cq := old(past.cq).(pHead := old(past.cq.head)))
    {
      hide ReachedBy, IsPow2, WrappingSub, Peek, Or32, After, Plan;
      ghost var s := Model();
      tail := cqTail;
      cqSub, sub := View(cqSub.head, tail), CqHead(todo);
      Record(SubStep, s);
      head := LoadCqHead(tail, todo);
    }

    method LoadCqHead(ghost tail: u32, ghost todo: seq<CompletionData>) returns (head: u32)
      requires Valid() && todo != [] && sub == CqHead(todo) && cqSub.tail == tail
      modifies this`cqSub, this`sub, this`acts, this`past
      ensures Valid() && sub == Decide(todo) && cqSub == View(head, tail)
      ensures past == old(past).(cq := old(past.cq).(pHead := old(past.cq.head)))
    {
      hide ReachedBy, IsPow2, WrappingSub, Peek, Or32, After, Plan;
      ghost var s := Model();
      head := cqHead;
      cqSub, sub := View(head, cqSub.tail), Decide(todo);
      Record(SubStep, s);
    }

    /** The queue is full: count the loss, and raise the flag on the first. */
    method DropOne(ghost todo: seq<CompletionData>)
      requires Valid() && todo != [] && sub == Decide(todo) && ProdLen(Model().cq) >= cqes.Length
      modifies this`cqOverflow, this`sqFlags, this`sub, this`acts, this`past
      ensures Valid() && sub == Post(todo[1..])
      ensures past == old(past).(verdicts := old(past.verdicts) + [Verdict(todo[0], Dropped)])
      ensures cqOverflow == WrappingAdd(old(cqOverflow), 1)
      ensures sqFlags == if old(cqOverflow) == 0 then Or32(old(sqFlags), SQ_CQ_OVERFLOW) else old(sqFlags)
    {
      hide ReachedBy, IsPow2, Or32;
      ghost var s := Model();
      var prev := cqOverflow;
      cqOverflow := WrappingAdd(prev, 1);
      sub := if prev == 0 then SetFlag(todo[1..]) else Post(todo[1..]);
      Record(SubStep, s);
      if prev == 0 { RaiseFlag(todo[1..]); }
    }

    method RaiseFlag(ghost todo: seq<CompletionData>)
      requires Valid() && sub == SetFlag(todo)
      modifies this`sqFlags, this`sub, this`acts, this`past
      ensures Valid() && sub == Post(todo) && past == old(past)
      ensures sqFlags == Or32(old(sqFlags), SQ_CQ_OVERFLOW)
    {
      hide ReachedBy, IsPow2, Or32;
      ghost var s := Model();
      sqFlags := Or32(sqFlags, SQ_CQ_OVERFLOW);
      sub := Post(todo);
      Record(SubStep, s);
    }

    /** There is room: write the slot, then store the tail. */
    method WriteOne(cqe: Cqe, tail: u32, ghost todo: seq<CompletionData>)
      requires Valid() && todo != [] && sub == Decide(todo) && ProdLen(Model().cq) < cqes.Length
      requires cqSub.tail == tail && cqe == CqeOf(todo[0])
      modifies this`cqTail, this`cqSub, this`sub, this`acts, this`past, cqes
      ensures Valid() && sub == StoreTail(todo[1..]) && cqSub.tail == WrappingAdd(tail, 1) && cqTail == old(cqTail)
      ensures past == old(past).(cq := old(past.cq).(log := old(past.cq.log) + [cqe]),
        verdicts := old(past.verdicts) + [Verdict(todo[0], Posted)])
    {
      hide ReachedBy;
      ghost var s := Model();
      cqes[And(tail, cqMask)] := cqe;
      cqSub := View(cqSub.head, WrappingAdd(tail, 1));
      sub := StoreTail(todo[1..]);
      Record(SubStep, s);
    }

    method StoreCqTail(tail: u32, ghost todo: seq<CompletionData>)
      requires Valid() && sub == StoreTail(todo) && cqSub.tail == WrappingAdd(tail, 1)
      modifies this`cqTail, this`sub, this`acts, this`past
      ensures Valid() && sub == Post(todo)
      ensures past == old(past).(cq := old(past.cq).(tail := |old(past.cq.log)|))
    {
      hide ReachedBy, IsPow2;
      ghost var s := Model();
      cqTail := WrappingAdd(tail, 1);
      sub := Post(todo);
      Record(SubStep, s);
    }

    lemma LenFacts()
      requires Valid()
      ensures ProdLen(Model().cq) == |past.cq.log| - past.cq.pHead == WrappingSub(cqSub.tail, cqSub.head)
    {
      Facts();
      Lengths(Model().cq, past.cq);
    }

    /** `post_cqe`: append the completion if the queue, as the user last released it, has
        room; otherwise count it as overflow. */
    method PostCqe(userData: u64, res: i32, ghost todo: seq<CompletionData>)
      requires Valid() && todo != [] && sub == CqTail(todo)
      requires userData == todo[0].userData && res == todo[0].result
      modifies this`cqTail, this`cqOverflow, this`sqFlags, this`cqSub, this`sub, this`acts, this`past, cqes
      ensures Valid() && sub == Post(todo[1..])
      ensures past.sq == old(past.sq) && past.cq.head == old(past.cq.head) && past.joined == old(past.joined)
      ensures var full := |old(past.cq.log)| - old(past.cq.head) >= cqes.Length;
        && past.cq.log == old(past.cq.log) + (if full then [] else [Cqe(userData, res, 0)])
        && cqOverflow == (if full then WrappingAdd(old(cqOverflow), 1) else old(cqOverflow))
        && sqFlags == (if full && old(cqOverflow) == 0 then Or32(old(sqFlags), SQ_CQ_OVERFLOW) else old(sqFlags))
        && past.verdicts == old(past.verdicts) + [Verdict(todo[0], if full then Dropped else Posted)]
    {
      hide ReachedBy, Model, ProdLen, IsPow2, Or32, WrappingSub, WrappingAdd, Ordered;
      var tail, head := LoadCq(todo);
      LenFacts();
      if WrappingSub(tail, head) >= cqes.Length {
        DropOne(todo);
      } else {
        WriteOne(Cqe(userData, res, 0), tail, todo);
        StoreCqTail(tail, todo[1..]);
      }
    }

    /** A background thread takes one turn; any live one may, at any point of any call. */
    method RunOne(i: nat)
      requires Valid() && i < |pending| && !Done(pending[i])
      modifies this`pending, this`acts, this`past, memory
      ensures Valid() && pending == old(pending)[i := Advance(old(pending)[i], old(memory.bytes))]
      ensures memory.bytes == old(memory.bytes) + StepEffect(old(pending)[i], old(memory.bytes)).writes
      ensures past.sq == old(past.sq) && past.cq == old(past.cq) && past.verdicts == old(past.verdicts)
        && past.joined == old(past.joined)
    {
      hide ReachedBy, IsPow2, Advance, StepEffect;
      ghost var s := Model();
      var t := Turn(memory, pending[i]);
      pending := pending[i := t];
      Record(RunSqe(i), s);
    }

    /** User code writes its own memory, at any point. */
    method UserWrites(bytes: Mem)
      requires Valid()
      modifies memory, this`acts, this`past
      ensures Valid() && memory.bytes == old(memory.bytes) + bytes
      ensures past == old(past).(ref := old(past.ref) + bytes)
    {
      hide ReachedBy, IsPow2;
      ghost var s := Model();
      memory.bytes := memory.bytes + bytes;
      Record(UserWrite(bytes), s);
    }

    /** Something else happens: a thread, if it is still live, takes a turn, or user code writes. */
    method Elsewhere(e: Meanwhile)
      requires Valid() && Sound(pending)
      modifies this`pending, this`acts, this`past, memory
      ensures Valid() && Sound(pending) && |pending| == |old(pending)|
      ensures past.sq == old(past.sq) && past.cq == old(past.cq) && past.verdicts == old(past.verdicts)
        && past.joined == old(past.joined)
    {
      hide ReachedBy, Model, StepEffect;
      match e
      case Runs(i) => if i < |pending| && !Done(pending[i]) { RunOne(i); }
      case Stores(bytes) => UserWrites(bytes);
    }

    /** Wait until the oldest thread has ended, whatever happens meanwhile; once nothing else
        does, it runs alone. */
    method AwaitOldest(meanwhile: seq<Meanwhile>) returns (rest: seq<Meanwhile>)
      requires Valid() && pending != [] && Sound(pending)
      modifies this`pending, this`acts, this`past, memory
      ensures Valid() && Sound(pending) && |pending| == |old(pending)| && Done(pending[0])
      ensures past.sq == old(past.sq) && past.cq == old(past.cq) && past.verdicts == old(past.verdicts)
        && past.joined == old(past.joined)
      ensures meanwhile == [] ==>
        && rest == [] && pending[1..] == old(pending)[1..]
        && pending[0].results == Final(old(pending)[0], old(memory.bytes))
        && memory.bytes == After(old(memory.bytes), Rest(old(pending)[0], old(memory.bytes)))
    {
      hide ReachedBy, Model, Dispatch, Plan, After, Rest, StepEffect, Final;
      rest := meanwhile;
      while !Done(pending[0])
        invariant Valid() && Sound(pending) && |pending| == |old(pending)|
        invariant past.sq == old(past.sq) && past.cq == old(past.cq) && past.verdicts == old(past.verdicts)
        invariant past.joined == old(past.joined)
        invariant meanwhile == [] ==>
          && rest == [] && pending[1..] == old(pending)[1..]
          && Final(pending[0], memory.bytes) == Final(old(pending)[0], old(memory.bytes))
          && After(memory.bytes, Rest(pending[0], memory.bytes))
            == After(old(memory.bytes), Rest(old(pending)[0], old(memory.bytes)))
        decreases |rest|, |pending[0].sqes| - pending[0].pc
      {
        if rest != [] {
          Elsewhere(rest[0]);
          rest := rest[1..];
        } else {
          FinalUnfolds(pending[0], memory.bytes);
          RunOne(0);
        }
      }
      FinalDone(pending[0], memory.bytes);
    }

    lemma DropFacts()
      requires Valid()
      ensures cqOverflow == Wrap(Count(past.verdicts, Dropped))
      ensures And(sqFlags, SQ_CQ_OVERFLOW) != 0 ==> Count(past.verdicts, Dropped) > 0
      ensures !sub.SetFlag? ==> (And(sqFlags, SQ_CQ_OVERFLOW) != 0 <==> Count(past.verdicts, Dropped) > 0)
    {
      hide ReachedBy, Safety.Protocol, Safety.Accounts, Safety.Chains, PostedCqes, Count, Suppressed;
      Facts();
      assert And(0, SQ_CQ_OVERFLOW) == 0 && And(SQ_CQ_OVERFLOW, SQ_CQ_OVERFLOW) == SQ_CQ_OVERFLOW;
    }

    lemma FlagFacts()
      requires Valid() && !sub.SetFlag?
      ensures cqOverflow != 0 ==> sqFlags == SQ_CQ_OVERFLOW
      ensures sqFlags == 0 || sqFlags == SQ_CQ_OVERFLOW
    {
      hide ReachedBy, Safety.Protocol, Safety.Accounts, Safety.Chains, PostedCqes, Count, Suppressed;
      Facts();
    }

    /** The completion side as the outside sees it: what was ever posted, the overflow
        counter, and the flags; and how far the log may grow until the user releases more. */
    ghost function Shown(): Board
      reads this
    {
      Board.Board(past.cq.log, cqOverflow, sqFlags)
    }

    ghost function Limit(): nat
      reads this
    {
      past.cq.head + cqes.Length
    }

    /** One completion of a joined batch: skip a silent success, post anything else. */
    method PostOne(cd: CompletionData, ghost todo: seq<CompletionData>)
      requires Valid() && todo != [] && sub == Post(todo) && cd == todo[0]
      modifies this`cqTail, this`cqOverflow, this`sqFlags, this`cqSub, this`sub, this`acts, this`past, cqes
      ensures Valid() && sub == Post(todo[1..])
      ensures past.sq == old(past.sq) && past.cq.head == old(past.cq.head) && past.joined == old(past.joined)
      ensures Shown() == Offered(old(Shown()), old(Limit()),
        if cd.skipSuccess && cd.result >= 0 then [] else [Cqe(cd.userData, cd.result, 0)])
    {
      hide ReachedBy, Or32, Model;
      FlagFacts();
      OrFlag();
      if !(cd.skipSuccess && cd.result >= 0) {
        MoveOn(todo);
        PostCqe(cd.userData, cd.result, todo);
      } else {
        OfferedNone(Shown(), Limit());
        MoveOn(todo);
      }
    }

    /** Pass over a silent success, or start posting. */
    method MoveOn(ghost todo: seq<CompletionData>)
      requires Valid() && todo != [] && sub == Post(todo)
      modifies this`sub, this`acts, this`past
      ensures Valid() && sub == if Suppressed(todo[0]) then Post(todo[1..]) else CqTail(todo)
      ensures past.sq == old(past.sq) && past.cq == old(past.cq) && past.joined == old(past.joined)
    {
      hide ReachedBy, IsPow2;
      ghost var s := Model();
      sub := if Suppressed(todo[0]) then Post(todo[1..]) else CqTail(todo);
      Record(SubStep, s);
    }

    /** All completions of one joined batch, in order. */
    method PostResults(results: seq<CompletionData>)
      requires Valid() && sub == Post(results)
      modifies this`cqTail, this`cqOverflow, this`sqFlags, this`cqSub, this`sub, this`acts, this`past, cqes
      ensures Valid() && sub == Join
      ensures past.sq == old(past.sq) && past.cq.head == old(past.cq.head) && past.joined == old(past.joined)
      ensures Shown() == Offered(old(Shown()), old(Limit()), Visible(results))
    {
      hide ReachedBy, Model, Suppressed, Visible, Offered;
      OfferedNone(Shown(), Limit());
      NothingVisible();
      for i := 0 to |results|
        invariant Valid() && sub == Post(results[i..])
        invariant past.sq == old(past.sq) && past.cq.head == old(past.cq.head) && past.joined == old(past.joined)
        invariant Shown() == Offered(old(Shown()), old(Limit()), Visible(results[..i]))
      {
        PostOne(results[i], results[i..]);
        assert results[..i + 1] == results[..i] + [results[i]] && results[i..][1..] == results[i + 1..];
        VisibleSnoc(results[..i], results[i]);
        OfferedAppend(old(Shown()), old(Limit()), Visible(results[..i]),
          if results[i].skipSuccess && results[i].result >= 0 then []
          else [Cqe(results[i].userData, results[i].result, 0)]);
      }
      assert results[..|results|] == results;
      EndPost();
    }

    method EndPost()
      requires Valid() && sub == Post([])
      modifies this`sub, this`acts, this`past
      ensures Valid() && sub == Join && past == old(past)
    {
      hide ReachedBy, IsPow2;
      ghost var s := Model();
      sub := Join;
      Record(SubStep, s);
    }

    /** Join the oldest thread and take what it recorded. */
    method JoinOldest() returns (results: seq<CompletionData>)
      requires Valid() && sub == Join && pending != [] && Done(pending[0])
      modifies this`pending, this`sub, this`acts, this`past
      ensures Valid() && sub == Post(results) && results == old(pending)[0].results && pending == old(pending)[1..]
      ensures past.sq == old(past.sq) && past.cq == old(past.cq) && past.joined == old(past.joined) + [results]
    {
      hide ReachedBy, IsPow2;
      ghost var s := Model();
      results := pending[0].results;
      pending := pending[1..];
      sub := Post(results);
      Record(SubStep, s);
    }

    lemma ThreadsSound()
      requires Valid()
      ensures Sound(pending)
    {
      Facts();
      forall i | 0 <= i < |pending| ensures pending[i].pc <= |pending[i].sqes| {
        assert ThreadMatches(Model().threads[i], past.born[|past.joined| + i]);
      }
    }

    /** What the batches joined so far recorded, whatever happened meanwhile: if nobody wrote
        descriptors they were still to read, what each records run whole at its submission;
        if moreover the footprints were disjoint, what the thread-free replay records, and
        its memory once nothing is pending. */
    lemma Recorded()
      requires Valid()
      ensures |past.joined| <= |past.born|
      ensures QuietRun(Begin(), acts) ==> past.joined == Foretold(past.born)[..|past.joined|]
      ensures IsolatedRun(Begin(), acts) ==>
        var r := Replay(mem0, Script(Begin(), acts));
        && |past.joined| <= |r.1| && past.joined == r.1[..|past.joined|]
        && (pending == [] ==> past.joined == r.1 && memory.bytes == r.0)
    {
      hide Legal, Exec, History, Replay, Script, IsolatedRun, QuietRun, Results, Foreseen;
      if QuietRun(Begin(), acts) { ResultsAreAtomic(Begin(), acts); }
      if IsolatedRun(Begin(), acts) { ScheduleIndependence(Begin(), acts); }
    }

    /** Wait for the oldest batch and post its completions. */
    method FlushOne(meanwhile: seq<Meanwhile>) returns (rest: seq<Meanwhile>, ghost results: seq<CompletionData>)
      requires Valid() && sub == Join && pending != [] && Sound(pending)
      modifies this`pending, this`cqTail, this`cqOverflow, this`sqFlags, this`cqSub, this`sub, this`acts, this`past,
        cqes, memory
      ensures Valid() && sub == Join && Sound(pending) && |pending| == |old(pending)| - 1
      ensures past.sq == old(past.sq) && past.cq.head == old(past.cq.head)
      ensures past.joined == old(past.joined) + [results]
      ensures Shown() == Offered(old(Shown()), old(Limit()), Visible(results))
      ensures meanwhile == [] ==>
        && rest == [] && pending == old(pending)[1..]
        && results == Final(old(pending)[0], old(memory.bytes))
        && memory.bytes == After(old(memory.bytes), Rest(old(pending)[0], old(memory.bytes)))
    {
      hide ReachedBy, Model, Visible, Offered, Final, After, Rest;
      rest := AwaitOldest(meanwhile);
      var recorded := JoinOldest();
      results := recorded;
      PostResults(recorded);
    }

    /** `flush_pending`: wait for every pending batch, oldest first, and post its
        completions; what does not fit is counted, silent successes are left out. Whatever
        the threads and user code do meanwhile, what is posted is what the batches joined
        here recorded; if nothing else happens, that is what they record run one by one. */
    method FlushPending(meanwhile: seq<Meanwhile>)
      requires Valid() && sub == Join && Sound(pending)
      modifies this`pending, this`cqTail, this`cqOverflow, this`sqFlags, this`cqSub, this`sub, this`acts, this`past,
        cqes, memory
      ensures Valid() && sub.Idle? && pending == []
      ensures past.sq == old(past.sq) && past.cq.head == old(past.cq.head)
      ensures old(past.joined) <= past.joined && |past.joined| == |old(past.joined)| + |old(pending)|
      ensures Shown() == Offered(old(Shown()), old(Limit()), Visible(Completions(past.joined[|old(past.joined)|..])))
      ensures meanwhile == [] ==>
        && Completions(past.joined[|old(past.joined)|..]) == AllResults(old(pending), old(memory.bytes))
        && memory.bytes == AllAfter(old(pending), old(memory.bytes))
    {
      hide ReachedBy, Model, Visible, Offered, AllResults, AllAfter, Final, Completions;
      OfferedNone(Shown(), Limit());
      NothingVisible();
      NoCompletions();
      var rest := meanwhile;
      ghost var js: seq<seq<CompletionData>> := [];
      ghost var all := AllResults(pending, memory.bytes);
      assert [] + all == all;
      while pending != []
        invariant Valid() && sub == Join && Sound(pending) && |js| + |pending| == |old(pending)|
        invariant past.sq == old(past.sq) && past.cq.head == old(past.cq.head)
        invariant past.joined == old(past.joined) + js
        invariant Shown() == Offered(old(Shown()), old(Limit()), Visible(Completions(js)))
        invariant meanwhile == [] ==>
          && rest == [] && Completions(js) + AllResults(pending, memory.bytes) == all
          && AllAfter(pending, memory.bytes) == AllAfter(old(pending), old(memory.bytes))
        decreases |pending|
      {
        AllUnfold(pending, memory.bytes);
        ghost var results, more := [], AllResults(pending, memory.bytes);
        rest, results := FlushOne(rest);
        OfferedAppend(old(Shown()), old(Limit()), Visible(Completions(js)), Visible(results));
        VisibleAppend(Completions(js), results);
        CompletionsSnoc(js, results);
        if meanwhile == [] { Regrouped(Completions(js), results, AllResults(pending, memory.bytes)); }
        js := js + [results];
      }
      AllNone(memory.bytes);
      assert Completions(js) + [] == Completions(js);
      assert past.joined[|old(past.joined)|..] == js;
      EndJoin();
    }

    lemma Regrouped(a: seq<CompletionData>, b: seq<CompletionData>, c: seq<CompletionData>)
      ensures a + (b + c) == a + b + c
    {
    }

    method EndJoin()
      requires Valid() && sub == Join && pending == []
      modifies this`sub, this`acts, this`past
      ensures Valid() && sub == Idle && past == old(past)
    {
      hide ReachedBy, IsPow2;
      ghost var s := Model();
      sub := Idle;
      Record(SubStep, s);
    }

    /** Start a flush outside `enter`, as `completion` and `split` do. */
    method BeginFlush()
      requires Valid() && sub == Idle
      modifies this`sub, this`acts, this`past
      ensures Valid() && sub == Join && past == old(past)
    {
      hide ReachedBy, IsPow2;
      ghost var s := Model();
      sub := Join;
      Record(Flush, s);
    }

    // ----- the public calls -----

    /** `enter`: submit up to `toSubmit` SQEs; if any completion is wanted, flush. */
    method Enter(toSubmit: u32, minComplete: u32, meanwhile: seq<Meanwhile>) returns (submitted: u32)
      requires Valid() && sub == Idle
      modifies this`sqHead, this`pending, this`sqSub, this`cqTail, this`cqOverflow, this`sqFlags, this`cqSub,
        this`sub, this`acts, this`past, cqes, memory
      ensures Valid() && sub == Idle
      ensures submitted == Min(toSubmit, old(past.sq.tail - past.sq.head))
      ensures past.sq.log == old(past.sq.log) && past.sq.head == old(past.sq.head) + submitted
      ensures var batches := old(pending) + if submitted == 0 then []
          else [Spawn(old(past.sq.log)[old(past.sq.head)..old(past.sq.head) + submitted])];
        Entered(batches, minComplete > 0, meanwhile)
    {
      hide ReachedBy, Model, Visible, Offered, AllResults, AllAfter, Completions;
      submitted := EnqueueSqes(toSubmit, minComplete > 0);
      assert submitted == 0 ==> old(pending) + [] == pending;
      if minComplete > 0 {
        ThreadsSound();
        FlushPending(meanwhile);
      }
    }

    /** After the submission half of a call the pending batches are `batches`. Without a flush
        nothing else has changed. A flush has joined them all and posted what they recorded;
        if nothing else happened meanwhile, that is what they record run one by one. */
    twostate predicate Entered(batches: seq<Thread>, flush: bool, meanwhile: seq<Meanwhile>)
      reads this, memory
    {
      && (!flush ==>
            && pending == batches && past.joined == old(past.joined)
            && Shown() == old(Shown()) && memory.bytes == old(memory.bytes))
      && (flush ==>
            && pending == [] && Sound(batches) && |old(past.cq.log)| <= old(Limit())
            && old(past.joined) <= past.joined && |past.joined| == |old(past.joined)| + |batches|
            && Shown() == Offered(old(Shown()), old(Limit()), Visible(Completions(past.joined[|old(past.joined)|..])))
            && (meanwhile == [] ==>
                  && Completions(past.joined[|old(past.joined)|..]) == AllResults(batches, old(memory.bytes))
                  && memory.bytes == AllAfter(batches, old(memory.bytes))))
    }

    /** `submit_and_wait`: submit everything published; if anything is wanted, flush
        everything pending (the number wanted does not matter). */
    method SubmitAndWait(want: nat, meanwhile: seq<Meanwhile>) returns (submitted: u32)
      requires Valid() && sub == Idle
      modifies this`sqHead, this`pending, this`sqSub, this`cqTail, this`cqOverflow, this`sqFlags, this`cqSub,
        this`sub, this`acts, this`past, cqes, memory
      ensures Valid() && sub == Idle
      ensures submitted == old(past.sq.tail - past.sq.head)
      ensures past.sq.log == old(past.sq.log) && past.sq.head == old(past.sq.tail)
      ensures var batches := old(pending) + if submitted == 0 then []
          else [Spawn(old(past.sq.log)[old(past.sq.head)..old(past.sq.tail)])];
        Entered(batches, want > 0, meanwhile)
    {
      hide ReachedBy, Model, Visible, Offered, AllResults, AllAfter, Completions;
      var len := SqLen();
      submitted := Enter(len, if want > 0 then 1 else 0, meanwhile);
    }

    /** What `completion` and `split` do first. */
    method FlushForHandles(meanwhile: seq<Meanwhile>)
      requires Valid() && sub == Idle
      modifies this`pending, this`cqTail, this`cqOverflow, this`sqFlags, this`cqSub, this`sub, this`acts, this`past,
        cqes, memory
      ensures Valid() && sub == Idle && pending == [] && Sound(old(pending))
      ensures past.sq == old(past.sq) && past.cq.head == old(past.cq.head)
      ensures Entered(old(pending), true, meanwhile)
    {
      hide ReachedBy, Model, Visible, Offered, AllResults, AllAfter, Completions;
      ThreadsSound();
      BeginFlush();
      FlushPending(meanwhile);
    }

    /** `RingMemory::drop`: join every pending thread, oldest first, and forget what it
        recorded; its effects on user memory stay. */
    method Close(meanwhile: seq<Meanwhile>)
      requires Valid() && sub == Idle && !sqOpen && !cqOpen
      modifies this`pending, this`sub, this`acts, this`past, memory
      ensures Valid() && sub == Closed && pending == []
      ensures past.sq == old(past.sq) && past.cq == old(past.cq) && past.verdicts == old(past.verdicts)
      ensures old(past.joined) <= past.joined && |past.joined| == |old(past.joined)| + |old(pending)|
      ensures meanwhile == [] ==> memory.bytes == AllAfter(old(pending), old(memory.bytes))
    {
      hide ReachedBy, Model, AllAfter, After, Rest;
      ThreadsSound();
      BeginClose();
      var rest := meanwhile;
      while pending != []
        invariant Valid() && sub == Closing && Sound(pending)
        invariant past.sq == old(past.sq) && past.cq == old(past.cq) && past.verdicts == old(past.verdicts)
        invariant old(past.joined) <= past.joined && |past.joined| + |pending| == |old(past.joined)| + |old(pending)|
        invariant meanwhile == [] ==>
          rest == [] && AllAfter(pending, memory.bytes) == AllAfter(old(pending), old(memory.bytes))
        decreases |pending|
      {
        AllUnfold(pending, memory.bytes);
        rest := AwaitOldest(rest);
        DiscardOldest();
      }
      AllNone(memory.bytes);
      EndClose();
    }

    method BeginClose()
      requires Valid() && sub == Idle && !sqOpen && !cqOpen
      modifies this`sub, this`acts, this`past
      ensures Valid() && sub == Closing && past == old(past)
    {
      hide ReachedBy, IsPow2;
      ghost var s := Model();
      sub := Closing;
      Record(DropRing, s);
    }

    /** Join the oldest thread and drop its results. */
    method DiscardOldest()
      requires Valid() && sub == Closing && pending != [] && Done(pending[0])
      modifies this`pending, this`acts, this`past
      ensures Valid() && pending == old(pending)[1..]
      ensures past.sq == old(past.sq) && past.cq == old(past.cq) && past.verdicts == old(past.verdicts)
      ensures past.joined == old(past.joined) + [old(pending)[0].results]
    {
      hide ReachedBy, IsPow2;
      ghost var s := Model();
      pending := pending[1..];
      Record(SubStep, s);
    }

    /** With no thread left, the ring is closed. */
    method EndClose()
      requires Valid() && sub == Closing && pending == []
      modifies this`sub, this`acts, this`past
      ensures Valid() && sub == Closed && past == old(past)
    {
      hide ReachedBy, IsPow2;
      ghost var s := Model();
      sub := Closed;
      Record(SubStep, s);
    }
  }
}
