/** The completion ring as bytes. The submitter does not know the entry type: it posts
    through a byte stride of 16 or 32. This ties its writes to the typed slots readers see. */
module CqeLayouts {
  import opened Words
  import opened Entries

  /** A completion entry; `big` holds the two extra words of a 32-byte entry. */
  datatype Entry = Entry(cqe: Cqe, big: seq<u64>)

  predicate IsStride(stride: nat) { stride == 16 || stride == 32 }

  /** What `post_cqe` leaves in a slot. */
  function EntryFor(c: Cqe, stride: nat): Entry { Entry(c, if stride > 16 then [0, 0] else []) }

  function Word(b: seq<byte>, at: nat, n: nat): nat
    requires at + n <= |b|
  {
    FromLe(b[at..at + n])
  }

  function Word64(b: seq<byte>, at: nat): u64
    requires at + 8 <= |b|
  {
    LeBound(b[at..at + 8]); WordSizes();
    Word(b, at, 8)
  }

  function Word32(b: seq<byte>, at: nat): u32
    requires at + 4 <= |b|
  {
    LeBound(b[at..at + 4]); WordSizes();
    Word(b, at, 4)
  }

  /** A slot read through the entry type. */
  function EntryOf(b: seq<byte>): Entry
    requires IsStride(|b|)
  {
    Entry(Cqe(Word64(b, 0), AsI32(Word32(b, 8)), Word32(b, 12)),
      if |b| > 16 then [Word64(b, 16), Word64(b, 24)] else [])
  }

  lemma SlotFits(i: nat, n: nat, stride: nat)
    requires i < n && IsStride(stride)
    ensures 0 <= i * stride && i * stride + stride <= n * stride
  {
  }

  function SlotBytes(b: seq<byte>, stride: nat, n: nat, i: nat): (s: seq<byte>)
    requires IsStride(stride) && |b| == n * stride && i < n
    ensures |s| == stride
  {
    SlotFits(i, n, stride);
    b[i * stride..i * stride + stride]
  }

  /** The array as the slots of a typed ring. */
  function Typed(b: seq<byte>, stride: nat, n: nat): (s: seq<Entry>)
    requires IsStride(stride) && |b| == n * stride
    ensures |s| == n
  {
    seq(n, i requires 0 <= i < n => EntryOf(SlotBytes(b, stride, n, i)))
  }

  function CqeBytes(c: Cqe): (s: seq<byte>)
    ensures |s| == 16
  {
    ToLe(c.userData, 8) + ToLe(AsU32(c.res), 4) + ToLe(c.flags, 4)
  }

  /** Bytes written over a buffer at an offset. */
  function Patch(b: seq<byte>, at: nat, s: seq<byte>): (r: seq<byte>)
    requires at + |s| <= |b|
    ensures |r| == |b|
  {
    b[..at] + s + b[at + |s|..]
  }

  lemma {:induction false} ZeroBytes(n: nat)
    ensures ToLe(0, n) == seq(n, _ => 0)
  {
    if n > 0 { ZeroBytes(n - 1); }
  }

  /** What was written is what is read back, for every completion and either stride. */
  lemma EntryRoundTrip(c: Cqe, stride: nat)
    requires IsStride(stride)
    ensures EntryOf(CqeBytes(c) + seq(stride - 16, _ => 0)) == EntryFor(c, stride)
  {
    hide ToLe, FromLe;
    var b := CqeBytes(c) + seq(stride - 16, _ => 0);
    WordSizes();
    LeRoundTrip(c.userData, 8); LeRoundTrip(AsU32(c.res), 4); LeRoundTrip(c.flags, 4);
    CastRoundTrip(c.res);
    assert b[0..8] == ToLe(c.userData, 8) && b[8..12] == ToLe(AsU32(c.res), 4) && b[12..16] == ToLe(c.flags, 4);
    if stride > 16 {
      ZeroBytes(8);
      LeRoundTrip(0, 8);
      assert b[16..24] == ToLe(0, 8) && b[24..32] == ToLe(0, 8);
    }
  }

  /** Where the fields of an entry are, byte by byte. */
  lemma EntryInBytes(b: seq<byte>)
    requires IsStride(|b|)
    ensures var e, w := EntryOf(b),
        (i: int) requires 0 <= i && i + 4 <= |b| =>
          b[i] as int + 0x100 * (b[i + 1] as int) + 0x1_0000 * (b[i + 2] as int) + 0x100_0000 * (b[i + 3] as int);
      && e.cqe.userData == w(0) + TWO32 * w(4)
      && (w(8) - e.cqe.res) % TWO32 == 0 && e.cqe.flags == w(12)
      && (|b| == 32 ==> e.big == [w(16) + TWO32 * w(20), w(24) + TWO32 * w(28)])
  {
    hide FromLe, AsI32;
    LeEight(b[0..8]); LeFour(b[0..8][4..]); LeFour(b[8..12]); LeFour(b[12..16]);
    SignedWord(Word32(b, 8));
    if |b| == 32 {
      LeEight(b[16..24]); LeFour(b[16..24][4..]); LeEight(b[24..32]); LeFour(b[24..32][4..]);
    }
  }

  lemma SignedWord(n: u32)
    ensures (n - AsI32(n)) % TWO32 == 0
  {
  }

  lemma PatchPart(b: seq<byte>, at: nat, s: seq<byte>, x: nat, k: nat)
    requires at + |s| <= |b| && x + k <= |b|
    ensures x == at && k == |s| ==> Patch(b, at, s)[x..x + k] == s
    ensures x + k <= at || at + |s| <= x ==> Patch(b, at, s)[x..x + k] == b[x..x + k]
  {
  }

  /** Writing one slot's bytes leaves the bytes of every other slot as they were. */
  lemma OtherSlots(b: seq<byte>, stride: nat, n: nat, i: nat, j: nat, s: seq<byte>)
    requires IsStride(stride) && |b| == n * stride && i < n && j < n && |s| == stride
    ensures i * stride + stride <= |b|
    ensures SlotBytes(Patch(b, i * stride, s), stride, n, j) == if i == j then s else SlotBytes(b, stride, n, j)
  {
    hide Patch;
    SlotFits(i, n, stride);
    SlotFits(j, n, stride);
    if i < j { SlotFits(i, j, stride); }
    if j < i { SlotFits(j, i, stride); }
    PatchPart(b, i * stride, s, j * stride, stride);
  }

  /** So the typed view changes in exactly one slot. */
  lemma PatchIsUpdate(b: seq<byte>, stride: nat, n: nat, i: nat, c: Cqe)
    requires IsStride(stride) && |b| == n * stride && i < n
    ensures i * stride + stride <= |b|
    ensures var s := CqeBytes(c) + seq(stride - 16, _ => 0);
      Typed(Patch(b, i * stride, s), stride, n) == Typed(b, stride, n)[i := EntryFor(c, stride)]
  {
    hide EntryOf, Patch, SlotBytes, CqeBytes;
    SlotFits(i, n, stride);
    var s := CqeBytes(c) + seq(stride - 16, _ => 0);
    EntryRoundTrip(c, stride);
    forall j | 0 <= j < n
      ensures Typed(Patch(b, i * stride, s), stride, n)[j] == Typed(b, stride, n)[i := EntryFor(c, stride)][j]
    {
      OtherSlots(b, stride, n, i, j, s);
    }
  }

  /** The erased array of `n` entries. */
  class CqeArray {
    const stride: nat
    const n: nat
    const mem: array<byte>

    ghost predicate Valid() { IsStride(stride) && mem.Length == n * stride }

    ghost function Slots(): seq<Entry>
      requires Valid()
      reads mem
    {
      Typed(mem[..], stride, n)
    }

    constructor (stride: nat, n: nat)
      requires IsStride(stride)
      ensures Valid() && this.stride == stride && this.n == n && fresh(mem)
      ensures Slots() == seq(n, _ => EntryFor(ZERO_CQE, stride))
    {
      this.stride, this.n := stride, n;
      mem := new byte[n * stride](_ => 0);
      new;
      forall i | 0 <= i < n ensures Slots()[i] == EntryFor(ZERO_CQE, stride) {
        SlotFits(i, n, stride);
        ZeroEntry(stride);
        assert SlotBytes(mem[..], stride, n, i) == seq(stride, _ => 0);
      }
    }

    /** `ptr::write` of some bytes at an offset. */
    method PtrWrite(at: nat, s: seq<byte>)
      requires at + |s| <= mem.Length
      modifies mem
      ensures mem[..] == Patch(old(mem[..]), at, s)
    {
      for k := 0 to |s|
        invariant forall x | 0 <= x < mem.Length ::
          mem[x] == if at <= x < at + k then s[x - at] else old(mem[x])
      {
        mem[at + k] := s[k];
      }
    }

    /** The slot write of `post_cqe`: the base fields, then, on a wide ring, two zero words.
        In the typed view this is a store to one slot, the way a ring of entries is written. */
    method WriteSlot(tail: u32, mask: u32, cqe: Cqe)
      requires Valid() && IsPow2(n) && mask == n - 1
      modifies mem
      ensures And(tail, mask) < n && And(tail, mask) * stride + stride <= mem.Length
      ensures mem[..] == Patch(old(mem[..]), And(tail, mask) * stride, CqeBytes(cqe) + seq(stride - 16, _ => 0))
      ensures Slots() == old(Slots())[And(tail, mask) := EntryFor(cqe, stride)]
      ensures forall k | 0 <= k < mem.Length ::
        k / stride != And(tail, mask) ==> mem[..][k] == old(mem[..])[k]
    {
      hide And, CqeBytes, IsPow2, ToLe, Typed, Patch;
      var i := And(tail, mask);
      SlotFits(i, n, stride);
      var at := i * stride;
      PatchIsUpdate(mem[..], stride, n, i, cqe);
      PtrWrite(at, CqeBytes(cqe));
      if stride > 16 {
        PtrWrite(at + 16, ToLe(0, 8));
        PtrWrite(at + 24, ToLe(0, 8));
        ZeroBytes(8);
      }
      PiecesOf(old(mem[..]), at, CqeBytes(cqe), stride);
      PatchFrame(old(mem[..]), i, CqeBytes(cqe) + seq(stride - 16, _ => 0), stride);
    }
  }

  lemma PatchFrame(b: seq<byte>, i: nat, s: seq<byte>, stride: nat)
    requires IsStride(stride) && |s| == stride && i * stride + stride <= |b|
    ensures forall k | 0 <= k < |b| :: k / stride != i ==> Patch(b, i * stride, s)[k] == b[k]
  {
  }

  lemma ZeroEntry(stride: nat)
    requires IsStride(stride)
    ensures EntryOf(seq(stride, _ => 0)) == EntryFor(ZERO_CQE, stride)
  {
    hide ToLe, EntryOf;
    ZeroBytes(8);
    ZeroBytes(4);
    assert CqeBytes(ZERO_CQE) + seq(stride - 16, _ => 0) == seq(stride, _ => 0);
    EntryRoundTrip(ZERO_CQE, stride);
  }

  lemma PiecesOf(b: seq<byte>, at: nat, s: seq<byte>, stride: nat)
    requires IsStride(stride) && |s| == 16 && at + stride <= |b|
    ensures var whole := Patch(b, at, s + seq(stride - 16, _ => 0));
      && (stride == 16 ==> whole == Patch(b, at, s))
      && (stride == 32 ==>
            whole == Patch(Patch(Patch(b, at, s), at + 16, seq(8, _ => 0)), at + 24, seq(8, _ => 0)))
  {
  }
}
