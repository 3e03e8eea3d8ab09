/** What every opcode does, by its number: the result, the bytes it writes, the descriptors
    it depends on and the data it only looks at, from the fields of the SQE, the bytes of
    memory and plain numbers alone. The dispatch table is proved to do this. */
module Manual {
  import opened Words
  import opened Entries
  import opened Effects
  import opened Builders

  // ----- numbers and words -----

  /** The i32 with the low 32 bits of n. */
  predicate Low32(res: int, n: int) {
    -0x8000_0000 <= res < 0x8000_0000 && (n - res) % 0x1_0000_0000 == 0
  }

  function Cap(n: nat): nat { if n <= 0xFFFF_FFFF_FFFF_FFFF then n else 0xFFFF_FFFF_FFFF_FFFF }

  /** The little-endian words at an address, byte by byte. */
  function W32(m: Mem, a: int): nat {
    Get(m, a) + 0x100 * Get(m, a + 1) + 0x1_0000 * Get(m, a + 2) + 0x100_0000 * Get(m, a + 3)
  }

  function W64(m: Mem, a: int): nat { W32(m, a) + 0x1_0000_0000 * W32(m, a + 4) }

  // ----- pieces of memory -----

  predicate In(x: int, a: int, n: nat) { a <= x < a + n }

  /** x belongs to the NUL-terminated string at p: no NUL comes before it. */
  ghost predicate InText(m: Mem, p: int, x: int) { p <= x && forall k :: p <= k < x ==> Get(m, k) != 0 }

  /** An iovec: its base at offset 0, its length at 8; a null base is no vector. */
  predicate InVector(m: Mem, iov: int, i: nat, x: int) {
    W64(m, iov + 16 * i) != 0 && In(x, W64(m, iov + 16 * i), W64(m, iov + 16 * i + 8))
  }

  ghost predicate InVectors(m: Mem, iov: int, n: nat, x: int) { exists i: nat :: i < n && InVector(m, iov, i, x) }

  function TotalLen(m: Mem, iov: int, n: nat): nat {
    if n == 0 then 0
    else TotalLen(m, iov, n - 1) + if W64(m, iov + 16 * (n - 1)) == 0 then 0 else W64(m, iov + 16 * (n - 1) + 8)
  }

  /** A message header: name at 0, its length at 8, vectors at 16, their number at 24,
      control at 32, its length at 40. */
  ghost predicate InMessage(m: Mem, h: int, x: int) {
    || (W64(m, h) != 0 && In(x, W64(m, h), W32(m, h + 8)))
    || (W64(m, h + 32) != 0 && In(x, W64(m, h + 32), W64(m, h + 40)))
    || (W64(m, h + 16) != 0 && InVectors(m, W64(m, h + 16), W64(m, h + 24), x))
  }

  // ----- the four columns -----

  predicate Descriptor(q: Sqe, m: Mem, x: int) {
    if q.opcode in {1, 2, 60, 61} then q.addr != 0 && In(x, q.addr, 16 * q.len)
    else if q.opcode in {9, 10, 48} then
      q.addr != 0 && (In(x, q.addr, 56)
        || (W64(m, q.addr + 16) != 0 && In(x, W64(m, q.addr + 16), 16 * W64(m, q.addr + 24))))
    else if q.opcode == 13 then q.addr != 0 && q.off != 0 && In(x, q.off, 4)
    else false
  }

  ghost predicate Writes(q: Sqe, m: Mem, x: int) {
    if q.opcode in {4, 22, 27, 49} then q.addr != 0 && In(x, q.addr, q.len)
    else if q.opcode in {1, 60} then q.addr != 0 && InVectors(m, q.addr, q.len, x)
    else if q.opcode == 10 then q.addr != 0 && InMessage(m, q.addr, x)
    else if q.opcode == 13 then q.addr != 0 && q.off != 0 && (In(x, q.addr, W32(m, q.off)) || In(x, q.off, 4))
    else if q.opcode == 21 then q.off != 0 && In(x, q.off, 256)
    else if q.opcode in {43, 44} then q.off != 0 && In(x, q.off, q.len)
    else if q.opcode == 50 then q.off != 0 && In(x, q.off, 128)
    else if q.opcode == 59 then q.addr != 0 && In(x, q.addr, 12 * q.len)
    else if q.opcode == 62 then q.addr != 0 && In(x, q.addr, 8)
    else false
  }

  /** All writes are zeroes, except that a pipe gets the descriptors 42 and 43. */
  function Value(q: Sqe, x: int): byte {
    if q.opcode == 62 && x == q.addr then 42 else if q.opcode == 62 && x == q.addr + 4 then 43 else 0
  }

  ghost predicate LooksAt(q: Sqe, m: Mem, x: int) {
    if q.opcode in {5, 23, 26, 47} then q.addr != 0 && In(x, q.addr, q.len)
    else if q.opcode in {2, 61} then q.addr != 0 && InVectors(m, q.addr, q.len, x)
    else if q.opcode in {9, 48} then q.addr != 0 && InMessage(m, q.addr, x)
    else if q.opcode in {11, 15} then q.addr != 0 && In(x, q.addr, 16)
    else if q.opcode in {16, 56} then q.addr != 0 && In(x, q.addr, q.off)
    else if q.opcode in {18, 21, 36, 37} then q.addr != 0 && InText(m, q.addr, x)
    else if q.opcode == 28 then q.addr != 0 && (InText(m, q.addr, x) || (q.off != 0 && In(x, q.off, 24)))
    else if q.opcode in {35, 38, 39} then q.addr != 0 && q.off != 0 && (InText(m, q.addr, x) || InText(m, q.off, x))
    else if q.opcode == 29 then q.addr != 0 && In(x, q.addr, 12)
    else if q.opcode == 20 then q.addr != 0 && In(x, q.addr, 4 * q.len)
    else if q.opcode == 31 then q.addr != 0 && In(x, q.addr, Cap(BufferCount(q) * q.len))
    else if q.opcode in {41, 42} then
      || (q.addr != 0 && InText(m, q.addr, x))
      || (q.off != 0 && In(x, q.off, q.len))
      || (q.opcode == 42 && q.addr3 != 0 && InText(m, q.addr3, x))
    else if q.opcode in {43, 44} then
      || (q.addr != 0 && InText(m, q.addr, x))
      || (q.opcode == 44 && q.addr3 != 0 && InText(m, q.addr3, x) && PathReached(q, x))
    else if q.opcode in {51, 52} then q.addr != 0 && In(x, q.addr, 4)
    else if q.opcode == 53 then q.addr != 0 && In(x, q.addr, 24 * q.len)
    else false
  }

  /** The count of provided buffers is the fd field, sign-extended to 64 bits. */
  function BufferCount(q: Sqe): nat { if q.fd < 0 then q.fd + 0x1_0000_0000_0000_0000 else q.fd }

  /** Getting an attribute by path clears the value first, which may end the path earlier. */
  ghost predicate PathReached(q: Sqe, x: int) {
    forall k :: q.addr3 <= k < x ==> !(q.off != 0 && In(k, q.off, q.len))
  }

  predicate Result(q: Sqe, m: Mem, res: int) {
    if q.opcode == 0 then (if q.opFlags % 2 == 1 then Low32(res, q.len) else res == 0)
    else if q.opcode in {4, 5, 20, 22, 23, 26, 27, 47, 49} then Low32(res, if q.addr == 0 then 0 else q.len)
    else if q.opcode in {1, 2, 60, 61} then Low32(res, if q.addr == 0 then 0 else Cap(TotalLen(m, q.addr, q.len)))
    else if q.opcode in {9, 10, 48} then
      if q.addr == 0 then res == -14
      else Low32(res, if W64(m, q.addr + 16) == 0 then 0 else Cap(TotalLen(m, W64(m, q.addr + 16), W64(m, q.addr + 24))))
    else if q.opcode in {11, 15} then res == if q.addr == 0 then -14 else -62
    else if q.opcode in {16, 35, 38, 39, 56} then res == if q.addr == 0 || q.off == 0 then -14 else 0
    else if q.opcode in {18, 28} then res == if q.addr == 0 then -14 else 42
    else if q.opcode in {36, 37, 51, 52, 62} then res == if q.addr == 0 then -14 else 0
    else if q.opcode == 53 then res == if q.addr == 0 || q.len == 0 then -14 else 0
    else if q.opcode in {43, 44} then Low32(res, q.len)
    else if q.opcode in {13, 45, 54} then res == 42
    else if q.opcode <= 62 then res == 0
    else res == -38
  }

  /** Memory and use: what a whole dispatch leaves and where it has been. */
  ghost predicate Leaves(q: Sqe, m: Mem, m': Mem) {
    forall x :: Get(m', x) == if Writes(q, m, x) then Value(q, x) else Get(m, x)
  }

  ghost predicate Uses(q: Sqe, m: Mem, x: int) { Descriptor(q, m, x) || LooksAt(q, m, x) || Writes(q, m, x) }

  /** A scattering operation writes none of the descriptors it is reading, as the source's
      shared and exclusive references to them require. */
  ghost predicate Unaliased(q: Sqe, m: Mem) {
    q.opcode in {1, 10, 60} ==> forall x :: !(Descriptor(q, m, x) && Writes(q, m, x))
  }

  /** The table row of an opcode, for an effect and a set of data. */
  ghost predicate Row(q: Sqe, m: Mem, e: Effect, data: set<int>) {
    && Result(q, m, e.res)
    && (forall x :: x in e.deps <==> Descriptor(q, m, x))
    && (forall x :: x in e.writes <==> Writes(q, m, x))
    && (forall x | x in e.writes :: e.writes[x] == Value(q, x))
    && (forall x :: x in data <==> LooksAt(q, m, x))
  }

  // ----- words, strings and vectors -----

  lemma WordsRead(m: Mem, a: int)
    ensures ReadU32(m, a) == W32(m, a) && ReadU64(m, a) == W64(m, a)
  {
    hide FromLe;
    LeFour(Bytes(m, a, 4));
    LeEight(Bytes(m, a, 8));
    LeFour(Bytes(m, a, 8)[4..]);
  }

  lemma Truncates(n: nat)
    ensures Low32(AsI32(n), n)
  {
  }

  lemma {:induction false} TextBytes(m: Mem, p: int)
    ensures forall x :: x in CStr(m, p) <==> InText(m, p, x)
    decreases From(m, p)
  {
    if Get(m, p) != 0 {
      assert From(m, p + 1) < From(m, p) by { assert p in From(m, p) - From(m, p + 1); }
      TextBytes(m, p + 1);
      forall x ensures InText(m, p, x) <==> x == p || InText(m, p + 1, x) { TextStep(m, p, x); }
    } else {
      assert forall x :: x > p ==> !InText(m, p, x) by { assert Get(m, p) == 0; }
    }
  }

  lemma TextStep(m: Mem, p: int, x: int)
    requires Get(m, p) != 0
    ensures InText(m, p, x) <==> x == p || InText(m, p + 1, x)
  {
  }

  lemma RangeBytes(a: int, n: nat)
    ensures forall x :: x in Range(a, n) <==> In(x, a, n)
    ensures forall x :: x in Zeros(a, n) <==> In(x, a, n)
    ensures forall x | x in Zeros(a, n) :: Zeros(a, n)[x] == 0
  {
  }

  lemma VectorBytes(m: Mem, iov: int, i: nat)
    ensures var v := ReadIovec(m, iov + 16 * i);
      && (forall x :: Live(v) && x in Range(v.base, v.len) <==> InVector(m, iov, i, x))
      && (if Live(v) then v.len else 0) == if W64(m, iov + 16 * i) == 0 then 0 else W64(m, iov + 16 * i + 8)
  {
    hide ReadU64, W64;
    var v := ReadIovec(m, iov + 16 * i);
    WordsRead(m, iov + 16 * i);
    WordsRead(m, iov + 16 * i + 8);
    RangeBytes(v.base, v.len);
  }

  lemma {:induction false} CoveredBytes(m: Mem, iov: int, n: nat)
    ensures forall x :: x in Covered(Vectors(m, iov, n)) <==> InVectors(m, iov, n, x)
    ensures Total(Vectors(m, iov, n)) == TotalLen(m, iov, n)
  {
    hide ReadIovec, Range, W64, Vectors, Live, InVector;
    if n == 0 {
      NoVectors(m, iov);
    } else {
      CoveredBytes(m, iov, n - 1);
      VectorsSnoc(m, iov, n);
      VectorBytes(m, iov, n - 1);
      forall x ensures InVectors(m, iov, n, x) <==> InVectors(m, iov, n - 1, x) || InVector(m, iov, n - 1, x) { }
    }
  }

  // ----- the rows -----

  lemma BufferRow(q: Sqe, m: Mem)
    requires q.opcode in {4, 5, 22, 23, 26, 27, 47, 49}
    ensures Row(q, m, Dispatch(q, m), DataRead(q, m))
  {
    hide Range, Zeros, AsI32, Low32;
    RangeBytes(q.addr, q.len);
    Truncates(q.len);
    Truncates(0);
  }

  lemma VectoredRow(q: Sqe, m: Mem)
    requires q.opcode in {1, 2, 60, 61} && Unaliased(q, m)
    ensures Row(q, m, Dispatch(q, m), DataRead(q, m))
  {
    hide Range, AsI32, Low32, Scatter, Gather, InVectors, TotalLen, Covered, Total, Vectors, Cleared;
    var vs := Vectors(m, q.addr, q.len);
    CoveredBytes(m, q.addr, q.len);
    RangeBytes(q.addr, 16 * q.len);
    Truncates(0);
    Truncates(Saturated(Total(vs)));
    ClearedBytes(Covered(vs));
    NoVectors(m, q.addr);
    if q.addr != 0 {
      if q.opcode in {1, 60} {
        assert Covered(vs) !! Range(q.addr, 16 * q.len) by {
          forall x | x in Covered(vs) ensures x !in Range(q.addr, 16 * q.len) {
            assert Writes(q, m, x);
            assert !(Descriptor(q, m, x) && Writes(q, m, x));
          }
        }
        ReadvMeaning(q.addr, q.len, m);
      } else {
        WritevMeaning(q.addr, q.len, m);
      }
    }
  }

  lemma ClearedBytes(s: set<int>)
    ensures forall x :: x in Cleared(s) <==> x in s
    ensures forall x | x in Cleared(s) :: Cleared(s)[x] == 0
  {
  }

  lemma FieldBytes(p: u64, n: u64)
    ensures forall x :: x in ReadField(p, n) <==> p != 0 && In(x, p, n)
  {
    RangeBytes(p, n);
  }

  lemma HeaderBytes(m: Mem, h: int)
    ensures var d := HeaderAt(m, h);
      && (forall x :: x in MessageData(d) <==> InMessage(m, h, x))
      && (forall x :: x in d.iovecs <==> W64(m, h + 16) != 0 && In(x, W64(m, h + 16), 16 * W64(m, h + 24)))
      && Total(d.vectors) == if W64(m, h + 16) == 0 then 0 else TotalLen(m, W64(m, h + 16), W64(m, h + 24))
  {
    hide ReadU64, ReadU32, W64, W32, ReadField, InVectors, TotalLen, Covered, Total, Vectors, Range;
    WordsRead(m, h); WordsRead(m, h + 8); WordsRead(m, h + 16);
    WordsRead(m, h + 24); WordsRead(m, h + 32); WordsRead(m, h + 40);
    var d := HeaderAt(m, h);
    FieldBytes(d.name, d.nameLen);
    FieldBytes(d.control, d.controlLen);
    NoVectors(m, h);
    CoveredBytes(m, ReadU64(m, h + 16), ReadU64(m, h + 24));
    RangeBytes(ReadU64(m, h + 16), 16 * ReadU64(m, h + 24));
  }

  lemma MessageRow(q: Sqe, m: Mem)
    requires q.opcode in {9, 10, 48} && Unaliased(q, m)
    ensures Row(q, m, Dispatch(q, m), DataRead(q, m))
  {
    hide Range, AsI32, Low32, RecvMsg, SendMsg, SendMsgData, HeaderAt, MessageData, InMessage, TotalLen, Total, Cleared, W64;
    Truncates(0);
    if q.addr == 0 {
      NullMessage(m);
    } else {
      var d := HeaderAt(m, q.addr);
      HeaderBytes(m, q.addr);
      RangeBytes(q.addr, 56);
      Truncates(Saturated(Total(d.vectors)));
      ClearedBytes(MessageData(d));
      if q.opcode == 10 {
        forall x | x in MessageData(d) ensures x !in Range(q.addr, MSGHDR_SIZE) + d.iovecs {
          assert Writes(q, m, x);
          assert !(Descriptor(q, m, x) && Writes(q, m, x));
        }
        RecvMsgMeaning(q.addr, m);
      } else {
        SendMsgMeaning(q.addr, m);
      }
    }
  }

  lemma AcceptRow(q: Sqe, m: Mem)
    requires q.opcode == 13
    ensures Row(q, m, Dispatch(q, m), DataRead(q, m))
  {
    hide Range, Zeros, W32, ReadU32;
    WordsRead(m, q.off);
    RangeBytes(q.addr, ReadU32(m, q.off));
    RangeBytes(q.off, 4);
  }

  lemma AddressRow(q: Sqe, m: Mem)
    requires q.opcode in {11, 15, 16, 56}
    ensures Row(q, m, Dispatch(q, m), DataRead(q, m))
  {
    hide Range;
    RangeBytes(q.addr, 16);
    RangeBytes(q.addr, q.off);
  }

  lemma LookRow(q: Sqe, m: Mem)
    requires q.opcode in {29, 51, 52}
    ensures Row(q, m, Dispatch(q, m), DataRead(q, m))
  {
    hide Range;
    RangeBytes(q.addr, 12);
    RangeBytes(q.addr, 4);
  }

  lemma ArrayRow(q: Sqe, m: Mem)
    requires q.opcode in {20, 53}
    ensures Row(q, m, Dispatch(q, m), DataRead(q, m))
  {
    hide Range, AsI32, Low32;
    RangeBytes(q.addr, 4 * q.len);
    RangeBytes(q.addr, 24 * q.len);
    Truncates(0);
    Truncates(q.len);
  }

  lemma BuffersRow(q: Sqe, m: Mem)
    requires q.opcode == 31
    ensures Row(q, m, Dispatch(q, m), DataRead(q, m))
  {
    hide Range;
    RangeBytes(q.addr, ProvidedBytes(q));
    assert ProvidedBytes(q) == Cap(BufferCount(q) * q.len);
    assert q.fd == 0 || q.len == 0 ==> BufferCount(q) * q.len == 0;
  }

  lemma PathRow(q: Sqe, m: Mem)
    requires q.opcode in {18, 28, 36, 37}
    ensures Row(q, m, Dispatch(q, m), DataRead(q, m))
  {
    hide Range, CStr, InText;
    TextBytes(m, q.addr);
    RangeBytes(q.off, 24);
  }

  lemma TwoPathsRow(q: Sqe, m: Mem)
    requires q.opcode in {35, 38, 39}
    ensures Row(q, m, Dispatch(q, m), DataRead(q, m))
  {
    hide CStr, InText;
    TextBytes(m, q.addr);
    TextBytes(m, q.off);
  }

  lemma AttributeRow(q: Sqe, m: Mem)
    requires q.opcode in {41, 42, 43, 44}
    ensures Row(q, m, Dispatch(q, m), DataRead(q, m))
  {
    hide Range, Zeros, CStr, InText, PathReached, AsI32, Low32;
    TextBytes(m, q.addr);
    TextBytes(m, q.addr3);
    RangeBytes(q.off, q.len);
    Truncates(q.len);
    if q.opcode == 44 && q.off != 0 && q.len != 0 { ClearedText(q, m); }
    if q.off == 0 || q.len == 0 { NothingCleared(q); }
  }

  lemma NothingCleared(q: Sqe)
    requires q.off == 0 || q.len == 0
    ensures forall x :: PathReached(q, x)
  {
  }

  lemma ClearedText(q: Sqe, m: Mem)
    requires q.off != 0
    ensures forall x :: x in CStr(m + Zeros(q.off, q.len), q.addr3) <==> InText(m, q.addr3, x) && PathReached(q, x)
  {
    hide CStr;
    var m' := m + Zeros(q.off, q.len);
    TextBytes(m', q.addr3);
    forall k ensures Get(m', k) != 0 <==> Get(m, k) != 0 && !In(k, q.off, q.len) { RangeBytes(q.off, q.len); }
    forall x ensures InText(m', q.addr3, x) <==> InText(m, q.addr3, x) && PathReached(q, x) {
      if InText(m', q.addr3, x) {
        forall k | q.addr3 <= k < x ensures Get(m, k) != 0 && !In(k, q.off, q.len) { assert Get(m', k) != 0; }
      }
      if InText(m, q.addr3, x) && PathReached(q, x) {
        forall k | q.addr3 <= k < x ensures Get(m', k) != 0 { assert Get(m, k) != 0 && !In(k, q.off, q.len); }
      }
    }
  }

  lemma WaitRow(q: Sqe, m: Mem)
    requires q.opcode in {50, 59}
    ensures Row(q, m, Dispatch(q, m), DataRead(q, m))
  {
    hide Range, Zeros;
    RangeBytes(q.off, 128);
    RangeBytes(q.addr, 12 * q.len);
  }

  lemma StatxRow(q: Sqe, m: Mem)
    requires q.opcode == 21
    ensures Row(q, m, Dispatch(q, m), DataRead(q, m))
  {
    hide Range, Zeros, CStr, InText;
    TextBytes(m, q.addr);
    RangeBytes(q.off, 256);
  }

  lemma PipeRow(q: Sqe, m: Mem)
    requires q.opcode == 62
    ensures Row(q, m, Dispatch(q, m), DataRead(q, m))
  {
    hide Store;
    PipeBytes(q.addr);
  }

  lemma PipeBytes(a: int)
    ensures forall x :: x in Store(a, PIPE_FDS) <==> In(x, a, 8)
    ensures forall x | In(x, a, 8) :: Store(a, PIPE_FDS)[x] == if x == a then 42 else if x == a + 4 then 43 else 0
  {
    assert PIPE_FDS == [42, 0, 0, 0, 43, 0, 0, 0];
  }

  lemma PlainRow(q: Sqe, m: Mem)
    requires q.opcode !in {1, 2, 4, 5, 9, 10, 11, 13, 15, 16, 18, 20, 21, 22, 23, 26, 27, 28, 29, 31, 35, 36, 37, 38,
      39, 41, 42, 43, 44, 47, 48, 49, 50, 51, 52, 53, 56, 59, 60, 61, 62}
    ensures Row(q, m, Dispatch(q, m), DataRead(q, m))
  {
    hide AsI32, Low32;
    Truncates(q.len);
    OddBit(q.opFlags);
  }

  lemma OddBit(n: nat)
    ensures And(n, 1) == n % 2
  {
  }

  /** Every opcode has its row of the manual. */
  lemma DispatchHasRow(q: Sqe, m: Mem)
    requires Unaliased(q, m)
    ensures Row(q, m, Dispatch(q, m), DataRead(q, m))
  {
    hide Row, Dispatch, DataRead, Unaliased;
    var op := q.opcode;
    if op in {4, 5, 22, 23, 26, 27, 47, 49} { BufferRow(q, m); }
    else if op in {1, 2, 60, 61} { VectoredRow(q, m); }
    else if op in {9, 10, 48} { MessageRow(q, m); }
    else if op == 13 { AcceptRow(q, m); }
    else if op in {11, 15, 16, 56} { AddressRow(q, m); }
    else if op in {29, 51, 52} { LookRow(q, m); }
    else if op in {20, 53} { ArrayRow(q, m); }
    else if op == 31 { BuffersRow(q, m); }
    else if op in {18, 28, 36, 37} { PathRow(q, m); }
    else if op in {35, 38, 39} { TwoPathsRow(q, m); }
    else if op in {41, 42, 43, 44} { AttributeRow(q, m); }
    else if op in {50, 59} { WaitRow(q, m); }
    else if op == 21 { StatxRow(q, m); }
    else if op == 62 { PipeRow(q, m); }
    else { PlainRow(q, m); }
  }

  /** So any dispatch leaves the memory the manual says. */
  lemma RowLeaves(q: Sqe, m: Mem, e: Effect, data: set<int>)
    requires Row(q, m, e, data)
    ensures Leaves(q, m, m + e.writes) && Result(q, m, e.res)
    ensures forall x :: x in e.deps + data + e.writes.Keys <==> Uses(q, m, x)
  {
    hide Writes, Descriptor, LooksAt, Value, Result;
  }
}
