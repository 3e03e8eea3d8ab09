/** The user's two queue handles. Each caches the ring's head and tail and works on its
    copies; the ring sees the handle's progress at `sync` and `drop` only. */
module Queues {
  import opened Words
  import opened Entries
  import opened Spsc
  import opened Machine
  import Safety
  import opened Guarantees
  import opened Flushing
  import opened IoUringObjects

  class SubmissionQueue {
    var head: u32
    var tail: u32
    const ring: IoUring

    /** `past.sq.log` is everything pushed; this handle sees the part from `pHead` on. */
    ghost predicate Valid()
      reads this, ring, ring.sqes, ring.cqes, ring.memory
    {
      ring.Valid() && ring.sqOpen && ring.sqUser == View(head, tail)
    }

    /** `borrow_shared`, with no other handle open. */
    constructor (ring: IoUring)
      requires ring.Valid() && !ring.sqOpen && !ring.sub.Closing? && !ring.sub.Closed?
      modifies ring`sqOpen, ring`sqUser, ring`acts, ring`past
      ensures Valid() && this.ring == ring
      ensures ring.past == old(ring.past).(sq := old(ring.past.sq).(pHead := old(ring.past.sq.head)))
    {
      this.ring := ring;
      this.head, this.tail := ring.sqHead, ring.sqTail;
      new;
      hide ReachedBy, IsPow2;
      ghost var s := ring.Model();
      ring.sqOpen, ring.sqUser := true, View(ring.sqHead, ring.sqTail);
      ring.Record(SqBorrow, s);
    }

    lemma Facts()
      requires Valid()
      ensures WrappingSub(tail, head) == |ring.past.sq.log| - ring.past.sq.pHead <= ring.sqes.Length
      ensures Spsc.Inv(ring.Model().sq, ring.past.sq)
    {
      ring.Facts();
      Lengths(ring.Model().sq, ring.past.sq);
    }

    /** Publish the tail, then see how far the submitter has got. */
    method Sync()
      requires Valid()
      modifies this`head, ring`sqTail, ring`sqUser, ring`acts, ring`past
      ensures Valid()
      ensures ring.past.sq == old(ring.past.sq).(tail := |old(ring.past.sq.log)|, pHead := old(ring.past.sq.head))
      ensures ring.past.cq == old(ring.past.cq)
    {
      hide ReachedBy, IsPow2;
      ghost var s := ring.Model();
      ring.sqTail := tail;
      ring.Record(SqPublish, s);
      s := ring.Model();
      head := ring.sqHead;
      ring.sqUser := View(head, tail);
      ring.Record(SqRefresh, s);
    }

    /** Entries pushed and, as far as this handle knows, not yet consumed. */
    method Len() returns (n: u32)
      requires Valid()
      ensures n == |ring.past.sq.log| - ring.past.sq.pHead <= ring.sqes.Length
    {
      Facts();
      n := WrappingSub(tail, head);
    }

    method IsFull() returns (full: bool)
      requires Valid()
      ensures full == (|ring.past.sq.log| - ring.past.sq.pHead == ring.sqes.Length)
    {
      var n := Len();
      full := n == ring.sqes.Length;
    }

    /** The flag tells whether any completion was ever dropped; between the count of the
        first drop and the store of the flag it lags. */
    method CqOverflow() returns (overflown: bool)
      requires Valid()
      ensures overflown ==> Safety.Count(ring.past.verdicts, Dropped) > 0
      ensures !ring.sub.SetFlag? ==> (overflown <==> Safety.Count(ring.past.verdicts, Dropped) > 0)
    {
      hide ReachedBy, And;
      ring.DropFacts();
      overflown := And(ring.sqFlags, SQ_CQ_OVERFLOW) != 0;
    }

    /** Append one entry; refused, with no change, iff the ring looks full. */
    method Push(entry: Sqe) returns (ok: bool)
      requires Valid()
      modifies this`tail, ring`sqUser, ring`acts, ring`past, ring.sqes
      ensures Valid()
      ensures ok == (|old(ring.past.sq.log)| - old(ring.past.sq.pHead) < ring.sqes.Length)
      ensures ring.past.sq == if ok then old(ring.past.sq).(log := old(ring.past.sq.log) + [entry]) else old(ring.past.sq)
      ensures ring.past.cq == old(ring.past.cq)
      ensures !ok ==> tail == old(tail) && ring.sqes[..] == old(ring.sqes[..])
    {
      Facts();
      var full := IsFull();
      if !full {
        PushUnchecked(entry);
        ok := true;
      } else {
        ok := false;
      }
    }

    method PushUnchecked(entry: Sqe)
      requires Valid() && |ring.past.sq.log| - ring.past.sq.pHead < ring.sqes.Length
      modifies this`tail, ring`sqUser, ring`acts, ring`past, ring.sqes
      ensures Valid()
      ensures ring.past.sq == old(ring.past.sq).(log := old(ring.past.sq.log) + [entry])
      ensures ring.past.cq == old(ring.past.cq)
    {
      hide ReachedBy;
      Facts();
      ghost var s := ring.Model();
      ring.sqes[And(tail, ring.sqMask)] := entry;
      tail := WrappingAdd(tail, 1);
      ring.sqUser := View(head, tail);
      ring.Record(SqPush(entry), s);
    }

    /** Append all entries, or none if they do not all fit. */
    method PushMultiple(entries: seq<Sqe>) returns (ok: bool)
      requires Valid()
      modifies this`tail, ring`sqUser, ring`acts, ring`past, ring.sqes
      ensures Valid()
      ensures ok == (|old(ring.past.sq.log)| - old(ring.past.sq.pHead) + |entries| <= ring.sqes.Length)
      ensures ring.past.sq == if ok then old(ring.past.sq).(log := old(ring.past.sq.log) + entries) else old(ring.past.sq)
      ensures ring.past.cq == old(ring.past.cq)
      ensures !ok ==> tail == old(tail) && ring.sqes[..] == old(ring.sqes[..])
    {
      hide ReachedBy;
      var len := Len();
      if ring.sqes.Length - len < |entries| { return false; }
      for i := 0 to |entries|
        invariant Valid()
        invariant ring.past.sq == old(ring.past.sq).(log := old(ring.past.sq.log) + entries[..i])
        invariant ring.past.cq == old(ring.past.cq)
      {
        PushUnchecked(entries[i]);
        assert entries[..i + 1] == entries[..i] + [entries[i]];
      }
      assert entries[..|entries|] == entries;
      ok := true;
    }

    lemma EntryAt(at: nat)
      requires Valid() && ring.past.sq.pHead <= at <= |ring.past.sq.log|
      ensures tail == Wrap(at) <==> at == |ring.past.sq.log|
      ensures at < |ring.past.sq.log| ==>
        And(Wrap(at), ring.sqMask) < ring.sqes.Length && ring.sqes[And(Wrap(at), ring.sqMask)] == ring.past.sq.log[at]
    {
      hide ReachedBy, IsPow2, And, Stored;
      Facts();
      WrapDistance(|ring.past.sq.log|, at);
      if at < |ring.past.sq.log| { SlotHolds(ring.Model().sq, ring.past.sq, at); }
    }

    /** The walk of the debug printer, from the cached head to the cached tail: it ends even
        when the indices wrap, and visits exactly the entries in the queue. */
    method Walk() returns (entries: seq<Sqe>)
      requires Valid()
      ensures entries == ring.past.sq.log[ring.past.sq.pHead..]
    {
      hide ReachedBy, IsPow2, And, Wrap, WrappingAdd;
      ghost var t := ring.past.sq;
      StartsAtHead();
      entries := [];
      var pos := head;
      ghost var at := t.pHead;
      EntryAt(at);
      while pos != tail
        invariant t.pHead <= at <= |t.log| && pos == Wrap(at)
        invariant entries == t.log[t.pHead..at]
        decreases |t.log| - at
      {
        EntryAt(at);
        entries := entries + [ring.sqes[And(pos, ring.sqMask)]];
        WrapSucc(at);
        pos, at := WrappingAdd(pos, 1), at + 1;
      }
      EntryAt(at);
    }

    lemma StartsAtHead()
      requires Valid()
      ensures head == Wrap(ring.past.sq.pHead) && ring.past.sq.pHead <= |ring.past.sq.log|
    {
      hide ReachedBy;
      Facts();
    }

    /** Dropping the handle publishes what was pushed. */
    method Drop()
      requires Valid()
      modifies ring`sqTail, ring`sqOpen, ring`acts, ring`past
      ensures ring.Valid() && !ring.sqOpen
      ensures ring.past.sq == old(ring.past.sq).(tail := |old(ring.past.sq.log)|)
      ensures ring.past.cq == old(ring.past.cq)
    {
      hide ReachedBy, IsPow2;
      ghost var s := ring.Model();
      ring.sqTail := tail;
      ring.sqOpen := false;
      ring.Record(SqDrop, s);
    }
  }

  class CompletionQueue {
    var head: u32
    var tail: u32
    const ring: IoUring

    /** `past.cq.log` is everything posted; `past.reaped`, its prefix up to `cHead`, is what
        the user has taken; this handle may take up to `cTail`. */
    ghost predicate Valid()
      reads this, ring, ring.sqes, ring.cqes, ring.memory
    {
      ring.Valid() && ring.cqOpen && ring.cqUser == View(head, tail)
    }

    constructor (ring: IoUring)
      requires ring.Valid() && !ring.cqOpen && !ring.sub.Closing? && !ring.sub.Closed?
      modifies ring`cqOpen, ring`cqUser, ring`acts, ring`past
      ensures Valid() && this.ring == ring
      ensures ring.past == old(ring.past).(cq := old(ring.past.cq).(cTail := old(ring.past.cq.tail)))
    {
      this.ring := ring;
      this.head, this.tail := ring.cqHead, ring.cqTail;
      new;
      hide ReachedBy, IsPow2;
      ghost var s := ring.Model();
      ring.cqOpen, ring.cqUser := true, View(ring.cqHead, ring.cqTail);
      ring.Record(CqBorrow, s);
    }

    lemma Facts()
      requires Valid()
      ensures WrappingSub(tail, head) == ring.past.cq.cTail - ring.past.cq.cHead <= ring.cqes.Length
      ensures head == tail <==> ring.past.cq.cHead == ring.past.cq.cTail
      ensures Spsc.Inv(ring.Model().cq, ring.past.cq)
      ensures ring.past.reaped == ring.past.cq.log[..ring.past.cq.cHead]
    {
      ring.Facts();
      Lengths(ring.Model().cq, ring.past.cq);
    }

    /** Release what was taken, then see what was posted meanwhile. */
    method Sync()
      requires Valid()
      modifies this`tail, ring`cqHead, ring`cqUser, ring`acts, ring`past
      ensures Valid()
      ensures ring.past == old(ring.past).(cq := old(ring.past.cq).(
        head := old(ring.past.cq.cHead), cTail := old(ring.past.cq.tail)))
    {
      hide ReachedBy, IsPow2;
      ghost var s := ring.Model();
      ring.cqHead := head;
      ring.Record(CqRelease, s);
      s := ring.Model();
      tail := ring.cqTail;
      ring.cqUser := View(head, tail);
      ring.Record(CqRefresh, s);
    }

    method Len() returns (n: u32)
      requires Valid()
      ensures n == ring.past.cq.cTail - ring.past.cq.cHead <= ring.cqes.Length
    {
      Facts();
      n := WrappingSub(tail, head);
    }

    /** The counter tells how many completions were dropped, modulo 2^32. */
    method Overflow() returns (n: u32)
      requires Valid()
      ensures n == Wrap(Safety.Count(ring.past.verdicts, Dropped))
    {
      hide ReachedBy;
      ring.DropFacts();
      n := ring.cqOverflow;
    }

    method Pop() returns (cqe: Cqe)
      requires Valid() && ring.past.cq.cHead < ring.past.cq.cTail
      modifies this`head, ring`cqUser, ring`acts, ring`past
      ensures Valid()
      ensures cqe == old(ring.past.cq.log)[old(ring.past.cq.cHead)]
      ensures ring.past == old(ring.past).(
        cq := old(ring.past.cq).(cHead := old(ring.past.cq.cHead) + 1), reaped := old(ring.past.reaped) + [cqe])
    {
      hide ReachedBy;
      Facts();
      ghost var s := ring.Model();
      PeekInv(s.cq, ring.past.cq);
      cqe := ring.cqes[And(head, ring.cqMask)];
      head := WrappingAdd(head, 1);
      ring.cqUser := View(head, tail);
      ring.Record(CqNext, s);
    }

    /** `Iterator::next`. */
    method Next() returns (cqe: Option<Cqe>)
      requires Valid()
      modifies this`head, ring`cqUser, ring`acts, ring`past
      ensures Valid()
      ensures cqe == if old(ring.past.cq.cHead) == old(ring.past.cq.cTail) then None
        else Some(old(ring.past.cq.log)[old(ring.past.cq.cHead)])
      ensures cqe.None? ==> ring.past == old(ring.past)
      ensures cqe.Some? ==> ring.past == old(ring.past).(
        cq := old(ring.past.cq).(cHead := old(ring.past.cq.cHead) + 1), reaped := old(ring.past.reaped) + [cqe.value])
    {
      Facts();
      if head != tail {
        var e := Pop();
        cqe := Some(e);
      } else {
        cqe := None;
      }
    }

    lemma Bounds()
      requires Valid()
      ensures ring.past.cq.cHead <= ring.past.cq.cTail <= |ring.past.cq.log|
    {
      hide ReachedBy;
    }

    /** The completion ring itself, which no call of this handle but `Sync` and `Drop` writes. */
    ghost function Shared(): Ring<Cqe>
      reads ring`cqHead, ring`cqTail, ring.cqes
    {
      Ring(ring.cqes[..], ring.cqMask, ring.cqHead, ring.cqTail)
    }

    lemma SharedInModel()
      ensures ring.Model().cq.ring == Shared()
    {
    }

    /** Move min(len, buffer length) completions, oldest first, to the front of the buffer. */
    method Fill(entries: array<Cqe>) returns (len: nat)
      requires Valid() && entries != ring.cqes
      modifies this`head, ring`cqUser, ring`acts, ring`past, entries
      ensures Valid()
      ensures len == Min(old(ring.past.cq.cTail - ring.past.cq.cHead), entries.Length)
      ensures entries[..len] == old(ring.past.cq.log)[old(ring.past.cq.cHead)..old(ring.past.cq.cHead) + len]
      ensures entries[len..] == old(entries[len..])
      ensures ring.past == old(ring.past).(
        cq := old(ring.past.cq).(cHead := old(ring.past.cq.cHead) + len),
        reaped := old(ring.past.reaped) + entries[..len])
      ensures Shaped(old(ring.Model().cq).ring)
      ensures (entries[..len], ring.Model().cq) == Nexts(old(ring.Model().cq), entries.Length)
    {
      hide ReachedBy, IoUring.Model, IoUring.Valid, WrappingSub, Spsc.Inv, Nexts;
      Bounds();
      Facts();
      SharedInModel();
      ghost var c := ring.Model().cq;
      var available := Len();
      len := if available <= entries.Length then available else entries.Length;
      ghost var p := ring.past;
      assert p.reaped + entries[..0] == p.reaped;
      for i := 0 to len
        invariant Valid()
        invariant entries[..i] == p.cq.log[p.cq.cHead..p.cq.cHead + i]
        invariant entries[len..] == old(entries[len..])
        invariant ring.past == p.(cq := p.cq.(cHead := p.cq.cHead + i), reaped := p.reaped + entries[..i])
      {
        var e := Pop();
        entries[i] := e;
        assert entries[..i + 1] == entries[..i] + [e];
      }
      Facts();
      SharedInModel();
      FillIsNexts(c, p.cq, entries.Length, len, ring.Model().cq);
    }

    method Drop()
      requires Valid()
      modifies ring`cqHead, ring`cqOpen, ring`acts, ring`past
      ensures ring.Valid() && !ring.cqOpen
      ensures ring.past == old(ring.past).(cq := old(ring.past.cq).(head := old(ring.past.cq.cHead)))
    {
      hide ReachedBy, IsPow2;
      ghost var s := ring.Model();
      ring.cqHead := head;
      ring.cqOpen := false;
      ring.Record(CqDrop, s);
    }
  }

  /** `completion`: flush, then borrow. The handle can take everything posted so far. */
  method Completion(ring: IoUring, meanwhile: seq<Meanwhile>) returns (cq: CompletionQueue)
    requires ring.Valid() && ring.sub == Idle && !ring.cqOpen
    modifies ring`pending, ring`cqTail, ring`cqOverflow, ring`sqFlags, ring`cqSub, ring`sub, ring`acts, ring`past,
      ring`cqOpen, ring`cqUser, ring.cqes, ring.memory
    ensures cq.Valid() && cq.ring == ring && ring.pending == [] && ring.sub == Idle
    ensures ring.past.cq.cTail == |ring.past.cq.log| && ring.past.sq == old(ring.past.sq)
    ensures ring.Entered(old(ring.pending), true, meanwhile)
  {
    hide ReachedBy, IsPow2, Visible, Offered, AllResults, AllAfter, Final, Sizes;
    ring.FlushForHandles(meanwhile);
    Published(ring);
    cq := new CompletionQueue(ring);
  }

  /** `split`: flush, then borrow both queues. */
  method Split(ring: IoUring, meanwhile: seq<Meanwhile>) returns (sq: SubmissionQueue, cq: CompletionQueue)
    requires ring.Valid() && ring.sub == Idle && !ring.sqOpen && !ring.cqOpen
    modifies ring`pending, ring`cqTail, ring`cqOverflow, ring`sqFlags, ring`cqSub, ring`sub, ring`acts, ring`past,
      ring`sqOpen, ring`sqUser, ring`cqOpen, ring`cqUser, ring.cqes, ring.memory
    ensures sq.Valid() && cq.Valid() && sq.ring == ring && cq.ring == ring && ring.pending == []
    ensures ring.past.cq.cTail == |ring.past.cq.log| && ring.past.sq.pHead == ring.past.sq.head
    ensures ring.Entered(old(ring.pending), true, meanwhile)
  {
    hide ReachedBy, IsPow2, Visible, Offered, AllResults, AllAfter, Final, Sizes;
    ring.FlushForHandles(meanwhile);
    Published(ring);
    sq := new SubmissionQueue(ring);
    cq := new CompletionQueue(ring);
  }

  lemma Published(ring: IoUring)
    requires ring.Valid() && ring.sub == Idle
    ensures ring.past.cq.tail == |ring.past.cq.log|
  {
    ring.Facts();
  }
}
