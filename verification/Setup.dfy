/** Building a ring: which requests are accepted, the sizes they get, and that what is built
    is a state from which everything proved of runs holds. */
module Setup {
  import opened Words
  import opened Dispatching
  import opened Spsc
  import opened Machine
  import opened Guarantees
  import opened IoUringObjects

  const SETUP_CQSIZE: u32 := 8
  const MAX_ENTRIES: u32 := 0x8000
  const MAX_DEFAULT_CQ: u32 := 0x1_0000

  /** The sizes chosen, the error returned, or the overflow of `next_power_of_two`. */
  datatype Choice = Chosen(sqEntries: u32, cqEntries: u32) | InvalidInput | Overflow

  predicate CqSizeAsked(flags: u32) { And(flags, SETUP_CQSIZE) != 0 }

  function Choose(flags: u32, cqAsked: u32, entries: u32): Choice {
    if entries == 0 || entries > MAX_ENTRIES then InvalidInput
    else if CqSizeAsked(flags) then
      if cqAsked == 0 then InvalidInput
      else if NextPow2(cqAsked) >= TWO32 then Overflow
      else Chosen(NextPow2(entries), NextPow2(cqAsked))
    else Chosen(NextPow2(entries), Min(NextPow2(entries) * 2, MAX_DEFAULT_CQ))
  }

  ghost predicate LeastPow2(p: nat, n: nat) {
    IsPow2(p) && n <= p && forall q: nat :: IsPow2(q) && n <= q ==> p <= q
  }

  lemma NextPow2IsLeast(n: nat)
    ensures LeastPow2(NextPow2(n), n)
  {
    forall q: nat | IsPow2(q) && n <= q ensures NextPow2(n) <= q { NextPow2Least(n, q); }
  }

  lemma Powers()
    ensures IsPow2(0x8000) && IsPow2(0x8000_0000)
  {
    assert IsPow2(0x100) && IsPow2(0x80);
    Pow2Product(0x80, 0x100);
    Pow2Product(0x100, 0x100);
    Pow2Product(0x8000, 0x1_0000);
  }

  /** Rounding up overflows a u32 exactly above 2^31. */
  lemma RoundingOverflows(n: u32)
    ensures NextPow2(n) >= TWO32 <==> n > 0x8000_0000
  {
    Powers();
    TwoToThe32();
    if n <= 0x8000_0000 { NextPow2Least(n, 0x8000_0000); }
    else { Pow2Double(0x8000_0000, NextPow2(n)); }
  }

  /** A request succeeds iff both sizes asked for are in range, and then each ring has the
      least power of two that holds what was asked; by default the completion queue is
      exactly twice the submission queue. */
  lemma SizesAreLeast(flags: u32, cqAsked: u32, entries: u32)
    ensures Choose(flags, cqAsked, entries).Chosen? <==>
      1 <= entries <= 0x8000 && (flags / 8 % 2 == 1 ==> 1 <= cqAsked <= 0x8000_0000)
    ensures Choose(flags, cqAsked, entries).Overflow? <==>
      1 <= entries <= 0x8000 && flags / 8 % 2 == 1 && cqAsked > 0x8000_0000
    ensures match Choose(flags, cqAsked, entries)
      case Chosen(sq, cq) =>
        && LeastPow2(sq, entries) && sq <= 0x8000 && Sizes(sq, cq)
        && (flags / 8 % 2 == 1 ==> LeastPow2(cq, cqAsked))
        && (flags / 8 % 2 == 0 ==> cq == 2 * sq <= 0x1_0000)
      case _ => true
  {
    hide IsPow2, NextPow2, And;
    AndEight(flags);
    Powers();
    NextPow2IsLeast(entries);
    NextPow2IsLeast(cqAsked);
    RoundingOverflows(cqAsked);
    DoubleIsPow2(NextPow2(entries));
  }

  lemma DoubleIsPow2(p: nat)
    requires IsPow2(p)
    ensures IsPow2(2 * p)
  {
  }

  /** What `params()` reports of the sizes. */
  datatype Parameters = Parameters(sqEntries: u32, cqEntries: u32, flags: u32)

  datatype Built = Ok(ring: IoUring, params: Parameters) | Refused | Panicked

  class Builder {
    var flags: u32
    var cqEntries: u32

    constructor ()
      ensures flags / 8 % 2 == 0
    {
      flags, cqEntries := 0, 0;
    }

    method SetupCqsize(entries: u32)
      modifies this
      ensures flags == old(flags) + 8 * (1 - old(flags) / 8 % 2) && cqEntries == entries
    {
      OrEight(flags);
      flags := Or32(flags, SETUP_CQSIZE);
      cqEntries := entries;
    }

    /** `build`. The ring it returns is empty, both its queues are safe, and any legal run
        may follow; the builder is unchanged. */
    method Build(entries: u32, memory: Memory) returns (r: Built)
      ensures r.Ok? <==> Choose(flags, cqEntries, entries).Chosen?
      ensures r.Refused? <==> Choose(flags, cqEntries, entries).InvalidInput?
      ensures r.Ok? ==>
        && fresh(r.ring) && r.ring.Valid() && r.ring.memory == memory
        && Choose(flags, cqEntries, entries) == Chosen(r.ring.sqes.Length, r.ring.cqes.Length)
        && r.ring.Model() == Start(r.ring.sqes.Length, r.ring.cqes.Length, memory.bytes)
        && SafeRing(r.ring.Model().sq, r.ring.past.sq) && SafeRing(r.ring.Model().cq, r.ring.past.cq)
        && r.params == Parameters(r.ring.sqes.Length, r.ring.cqes.Length, flags)
    {
      hide IsPow2, NextPow2, And, SafeRing, Start;
      SizesAreLeast(flags, cqEntries, entries);
      if entries == 0 || entries > MAX_ENTRIES { return Refused; }
      var sqEntries := NextPow2(entries);
      var cq: nat;
      if And(flags, SETUP_CQSIZE) != 0 {
        if cqEntries == 0 { return Refused; }
        cq := NextPow2(cqEntries);
        if cq >= TWO32 { return Panicked; }
      } else {
        cq := Min(sqEntries * 2, MAX_DEFAULT_CQ);
      }
      var ring := new IoUring(sqEntries, cq, memory);
      BuiltIsSafe(ring);
      r := Ok(ring, Parameters(sqEntries, cq, flags));
    }
  }

  lemma BuiltIsSafe(ring: IoUring)
    requires ring.Valid()
    ensures SafeRing(ring.Model().sq, ring.past.sq) && SafeRing(ring.Model().cq, ring.past.cq)
  {
    ring.Facts();
    RingIsSafe(ring.Model().sq, ring.past.sq);
    RingIsSafe(ring.Model().cq, ring.past.cq);
  }
}
