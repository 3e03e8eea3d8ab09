/** Vectored and message operations from the bytes the caller laid out: an iovec is its base
    and then its length, eight little-endian bytes each; a message header is name, name
    length, vectors, their number, control, control length. */
module Layouts {
  import opened Words
  import opened Entries
  import opened Effects
  import opened Builders
  import opened Manual

  datatype Buffer = Buffer(base: u64, len: u64)

  /** x belongs to the buffer; a null base is none. */
  predicate InBuffer(v: Buffer, x: int) { v.base != 0 && In(x, v.base, v.len) }

  /** The iovec array for a list of buffers. */
  function Laid(vs: seq<Buffer>): (s: seq<byte>)
    ensures |s| == 16 * |vs|
  {
    if vs == [] then []
    else
      var n := |vs| - 1;
      Laid(vs[..n]) + ToLe(vs[n].base, 8) + ToLe(vs[n].len, 8)
  }

  ghost predicate Hits(vs: seq<Buffer>, x: int) { exists i :: 0 <= i < |vs| && InBuffer(vs[i], x) }

  function SumOf(vs: seq<Buffer>): nat {
    if vs == [] then 0
    else
      var n := |vs| - 1;
      SumOf(vs[..n]) + if vs[n].base == 0 then 0 else vs[n].len
  }

  lemma WordFromBytes(m: Mem, a: int, v: u64)
    requires Bytes(m, a, 8) == ToLe(v, 8)
    ensures W64(m, a) == v
  {
    hide ToLe, FromLe;
    WordSizes();
    LeRoundTrip(v, 8);
    WordsRead(m, a);
  }

  lemma HalfFromBytes(m: Mem, a: int, v: u32)
    requires Bytes(m, a, 4) == ToLe(v, 4)
    ensures W32(m, a) == v
  {
    hide ToLe, FromLe;
    WordSizes();
    LeRoundTrip(v, 4);
    WordsRead(m, a);
  }

  lemma PartOfBytes(m: Mem, a: int, n: nat, i: nat, k: nat)
    requires i + k <= n
    ensures Bytes(m, a + i, k) == Bytes(m, a, n)[i..i + k]
  {
  }

  /** One iovec: base first. */
  lemma VectorFromBytes(m: Mem, a: int, base: u64, len: u64)
    requires Bytes(m, a, 16) == ToLe(base, 8) + ToLe(len, 8)
    ensures W64(m, a) == base && W64(m, a + 8) == len
    ensures ReadIovec(m, a).base == base && ReadIovec(m, a).len == len
  {
    hide ToLe, FromLe, W64, ReadU64;
    PartOfBytes(m, a, 16, 0, 8);
    PartOfBytes(m, a, 16, 8, 8);
    WordFromBytes(m, a, base);
    WordFromBytes(m, a + 8, len);
    WordsRead(m, a);
    WordsRead(m, a + 8);
  }

  /** The whole array. */
  lemma {:induction false} ArrayFromBytes(m: Mem, iov: int, vs: seq<Buffer>)
    requires Bytes(m, iov, 16 * |vs|) == Laid(vs)
    ensures forall x :: InVectors(m, iov, |vs|, x) <==> Hits(vs, x)
    ensures TotalLen(m, iov, |vs|) == SumOf(vs)
  {
    hide ToLe, W64, Laid;
    if vs != [] {
      var n := |vs| - 1;
      LaidLast(vs);
      PartOfBytes(m, iov, 16 * |vs|, 0, 16 * n);
      PartOfBytes(m, iov, 16 * |vs|, 16 * n, 16);
      ArrayFromBytes(m, iov, vs[..n]);
      VectorFromBytes(m, iov + 16 * n, vs[n].base, vs[n].len);
      forall x ensures InVectors(m, iov, |vs|, x) <==> Hits(vs, x) {
        assert Hits(vs, x) <==> Hits(vs[..n], x) || InBuffer(vs[n], x) by {
          HitsLast(vs, x);
        }
        assert InVectors(m, iov, |vs|, x) <==> InVectors(m, iov, n, x) || InVector(m, iov, n, x);
      }
    }
  }

  lemma LaidLast(vs: seq<Buffer>)
    requires vs != []
    ensures var n := |vs| - 1;
      Laid(vs)[..16 * n] == Laid(vs[..n]) && Laid(vs)[16 * n..16 * n + 16] == ToLe(vs[n].base, 8) + ToLe(vs[n].len, 8)
  {
    hide ToLe;
    var n := |vs| - 1;
    Behind(Laid(vs[..n]), ToLe(vs[n].base, 8), ToLe(vs[n].len, 8));
  }

  lemma Behind(a: seq<byte>, b: seq<byte>, c: seq<byte>)
    ensures var s := a + b + c; s[..|a|] == a && s[|a|..] == b + c && s[|a|..|s|] == b + c
  {
  }

  lemma HitsLast(vs: seq<Buffer>, x: int)
    requires vs != []
    ensures var n := |vs| - 1;
      Hits(vs, x) <==> Hits(vs[..n], x) || InBuffer(vs[n], x)
  {
    var n := |vs| - 1;
    if Hits(vs[..n], x) {
      var i :| 0 <= i < n && InBuffer(vs[..n][i], x);
      assert vs[i] == vs[..n][i];
    }
    if Hits(vs, x) {
      var i :| 0 <= i < |vs| && InBuffer(vs[i], x);
      assert i < n ==> vs[..n][i] == vs[i];
    }
  }

  /** What the caller is told: the sum, capped at 64 bits and cut to 32; the sum itself
      below 2^31. */
  ghost predicate Reports(res: int, sum: nat) { Low32(res, Cap(sum)) && (sum < 0x8000_0000 ==> res == sum) }

  lemma LowIsReports(res: int, sum: nat)
    requires Low32(res, Cap(sum))
    ensures Reports(res, sum)
  {
  }

  lemma WritesNothing(q: Sqe, m: Mem)
    requires q.opcode in {2, 9} && Row(q, m, Dispatch(q, m), DataRead(q, m))
    ensures Dispatch(q, m).writes == map[]
  {
    hide Dispatch, DataRead, Result, Descriptor, LooksAt, Value;
    NoKeys(Dispatch(q, m).writes);
  }

  lemma NoKeys(w: Mem)
    ensures (forall x :: x !in w) ==> w == map[]
  {
    if forall x :: x !in w { assert w.Keys == {}; }
  }

  // ----- readv and writev -----

  /** For any list of buffers laid out as an iovec array, the built readv zeroes exactly the
      buffers and reports the sum of their lengths. */
  lemma ReadvFromBytes(op: Op, flags: u8, userData: u64, m: Mem, vs: seq<Buffer>)
    requires op.ReadvOp? && op.iovec != 0 && op.len == |vs| && Bytes(m, op.iovec, 16 * |vs|) == Laid(vs)
    requires forall x :: Hits(vs, x) ==> !(op.iovec <= x < op.iovec + 16 * |vs|)
    ensures var e := Dispatch(Tagged(Encode(op), flags, userData), m);
      && (forall x :: Get(m + e.writes, x) == if Hits(vs, x) then 0 else Get(m, x))
      && Reports(e.res, SumOf(vs))
  {
    hide Laid, W64, InVectors, TotalLen, SumOf, Hits, Dispatch, DataRead, WithFd, Or8, Row, Low32, Reports;
    var q := Tagged(Encode(op), flags, userData);
    CodeOfFd(op.fd);
    assert q.opcode == 1 && q.addr == op.iovec && q.len == op.len;
    ArrayFromBytes(m, op.iovec, vs);
    DispatchHasRow(q, m);
    RowLeaves(q, m, Dispatch(q, m), DataRead(q, m));
    LowIsReports(Dispatch(q, m).res, SumOf(vs));
  }

  /** The built writev changes nothing, reads exactly the array and the buffers, and reports
      the sum. */
  lemma WritevFromBytes(op: Op, flags: u8, userData: u64, m: Mem, vs: seq<Buffer>)
    requires op.WritevOp? && op.iovec != 0 && op.len == |vs| && Bytes(m, op.iovec, 16 * |vs|) == Laid(vs)
    ensures var q := Tagged(Encode(op), flags, userData);
      var e := Dispatch(q, m);
      && e.writes == map[] && (forall x :: x in e.deps <==> op.iovec <= x < op.iovec + 16 * |vs|)
      && (forall x :: x in DataRead(q, m) <==> Hits(vs, x))
      && Reports(e.res, SumOf(vs))
  {
    hide Laid, W64, InVectors, TotalLen, SumOf, Hits, Dispatch, DataRead, WithFd, Or8, Low32, Reports;
    var q := Tagged(Encode(op), flags, userData);
    CodeOfFd(op.fd);
    assert q.opcode == 2 && q.addr == op.iovec && q.len == op.len;
    ArrayFromBytes(m, op.iovec, vs);
    DispatchHasRow(q, m);
    WritesNothing(q, m);
    LowIsReports(Dispatch(q, m).res, SumOf(vs));
  }

  // ----- messages -----

  /** A 56-byte header; `pad` fills the gap behind the name length, `tail` is not used. */
  function LaidHeader(name: u64, nameLen: u32, pad: seq<byte>, iov: u64, n: u64, control: u64, controlLen: u64,
                      tail: seq<byte>): (s: seq<byte>)
    requires |pad| == 4 && |tail| == 8
    ensures |s| == 56
  {
    ToLe(name, 8) + ToLe(nameLen, 4) + pad + ToLe(iov, 8) + ToLe(n, 8) + ToLe(control, 8) + ToLe(controlLen, 8) + tail
  }

  /** The message in memory: its parts, and its buffers as a laid-out array. */
  datatype Message = Message(name: u64, nameLen: u32, pad: seq<byte>, iov: u64, vs: seq<Buffer>,
    control: u64, controlLen: u64, tail: seq<byte>)

  ghost predicate HoldsMessage(m: Mem, h: u64, g: Message) {
    && h != 0 && |g.pad| == 4 && |g.tail| == 8 && g.iov != 0 && |g.vs| < TWO64
    && Bytes(m, h, 56)
      == LaidHeader(g.name, g.nameLen, g.pad, g.iov, |g.vs|, g.control, g.controlLen, g.tail)
    && Bytes(m, g.iov, 16 * |g.vs|) == Laid(g.vs)
  }

  /** x is in the name, the control field or a buffer of the message. */
  ghost predicate Carried(g: Message, x: int) {
    || (g.name != 0 && g.name <= x < g.name + g.nameLen)
    || (g.control != 0 && g.control <= x < g.control + g.controlLen)
    || Hits(g.vs, x)
  }

  lemma HeaderFromBytes(m: Mem, h: u64, g: Message)
    requires HoldsMessage(m, h, g)
    ensures W64(m, h) == g.name && W32(m, h + 8) == g.nameLen
    ensures W64(m, h + 16) == g.iov && W64(m, h + 24) == |g.vs|
    ensures W64(m, h + 32) == g.control && W64(m, h + 40) == g.controlLen
  {
    hide ToLe, W64, W32, Laid;
    PartOfBytes(m, h, 56, 0, 8); PartOfBytes(m, h, 56, 8, 4); PartOfBytes(m, h, 56, 16, 8);
    PartOfBytes(m, h, 56, 24, 8); PartOfBytes(m, h, 56, 32, 8); PartOfBytes(m, h, 56, 40, 8);
    WordFromBytes(m, h, g.name);
    HalfFromBytes(m, h + 8, g.nameLen);
    WordFromBytes(m, h + 16, g.iov);
    WordFromBytes(m, h + 24, |g.vs|);
    WordFromBytes(m, h + 32, g.control);
    WordFromBytes(m, h + 40, g.controlLen);
  }

  lemma MessageFromBytes(m: Mem, h: u64, g: Message)
    requires HoldsMessage(m, h, g)
    ensures forall x :: InMessage(m, h, x) <==> Carried(g, x)
    ensures W64(m, h + 16) == g.iov && W64(m, h + 24) == |g.vs| && TotalLen(m, g.iov, |g.vs|) == SumOf(g.vs)
  {
    hide W64, W32, Laid, InVectors, Hits, TotalLen, SumOf, LaidHeader;
    HeaderFromBytes(m, h, g);
    ArrayFromBytes(m, g.iov, g.vs);
  }

  /** The built recvmsg zeroes exactly what the message carries and reports the sum of the
      buffers. */
  lemma RecvMsgFromBytes(op: Op, flags: u8, userData: u64, m: Mem, g: Message)
    requires op.RecvMsgCall? && HoldsMessage(m, op.msg, g)
    requires forall x :: Carried(g, x) ==>
      !(op.msg <= x < op.msg + 56) && !(g.iov <= x < g.iov + 16 * |g.vs|)
    ensures var e := Dispatch(Tagged(Encode(op), flags, userData), m);
      && (forall x :: Get(m + e.writes, x) == if Carried(g, x) then 0 else Get(m, x))
      && Reports(e.res, SumOf(g.vs))
  {
    hide Laid, LaidHeader, W64, InMessage, TotalLen, SumOf, Carried, Dispatch, DataRead, WithFd, Or8, Row, Low32, Reports;
    var q := Tagged(Encode(op), flags, userData);
    CodeOfFd(op.fd);
    assert q.opcode == 10 && q.addr == op.msg;
    MessageFromBytes(m, op.msg, g);
    DispatchHasRow(q, m);
    RowLeaves(q, m, Dispatch(q, m), DataRead(q, m));
    LowIsReports(Dispatch(q, m).res, SumOf(g.vs));
  }

  /** The built sendmsg changes nothing, reads what the message carries and reports the sum. */
  lemma SendMsgFromBytes(op: Op, flags: u8, userData: u64, m: Mem, g: Message)
    requires op.SendMsgCall? && HoldsMessage(m, op.msg, g)
    ensures var q := Tagged(Encode(op), flags, userData);
      var e := Dispatch(q, m);
      && e.writes == map[] && (forall x :: x in DataRead(q, m) <==> Carried(g, x))
      && (forall x :: x in e.deps <==> op.msg <= x < op.msg + 56 || g.iov <= x < g.iov + 16 * |g.vs|)
      && Reports(e.res, SumOf(g.vs))
  {
    hide Laid, LaidHeader, W64, InMessage, TotalLen, SumOf, Carried, Dispatch, DataRead, WithFd, Or8, Low32, Reports;
    var q := Tagged(Encode(op), flags, userData);
    CodeOfFd(op.fd);
    assert q.opcode == 9 && q.addr == op.msg;
    MessageFromBytes(m, op.msg, g);
    DispatchHasRow(q, m);
    WritesNothing(q, m);
    LowIsReports(Dispatch(q, m).res, SumOf(g.vs));
  }
}
