/** The dispatch handlers as they run: loops over user memory, one byte at a time. Each is
    proved against the effect `Effects.Dispatch` gives it, and against the set of addresses
    it may touch. */
module Dispatching {
  import opened Words
  import opened Entries
  import opened Effects
  import Manual

  class Memory {
    var bytes: Mem
    ghost var touched: set<int>   // every address a handler has read, written or borrowed so far

    constructor (bytes: Mem)
      ensures this.bytes == bytes && touched == {}
    {
      this.bytes := bytes;
      touched := {};
    }

    // `Borrow`, `LoadByte` and `StoreByte` are the only code that uses memory, and log where they do.

    /** Creating a reference or slice over a region. */
    method Borrow(a: int, n: nat)
      modifies this`touched
      ensures touched == old(touched) + Range(a, n)
    {
      touched := touched + Range(a, n);
    }

    method LoadByte(a: int) returns (b: byte)
      modifies this`touched
      ensures b == Get(bytes, a)
      ensures touched == old(touched) + {a}
    {
      touched := touched + {a};
      b := Get(bytes, a);
    }

    method StoreByte(a: int, b: byte)
      modifies this
      ensures bytes == old(bytes)[a := b]
      ensures touched == old(touched) + {a}
    {
      touched := touched + {a};
      bytes := bytes[a := b];
    }

    method Load(a: int, n: nat) returns (s: seq<byte>)
      modifies this`touched
      ensures s == Bytes(bytes, a, n)
      ensures touched == old(touched) + Range(a, n)
    {
      s := [];
      for i := 0 to n
        invariant s == Bytes(bytes, a, i)
        invariant touched == old(touched) + Range(a, i)
      {
        var b := LoadByte(a + i);
        s := s + [b];
        RangeSnoc(a, i);
      }
    }

    method LoadU32(a: int) returns (v: u32)
      modifies this`touched
      ensures v == ReadU32(bytes, a)
      ensures touched == old(touched) + Range(a, 4)
    {
      var s := Load(a, 4);
      LeBound(s); WordSizes();
      v := FromLe(s);
    }

    method LoadU64(a: int) returns (v: u64)
      modifies this`touched
      ensures v == ReadU64(bytes, a)
      ensures touched == old(touched) + Range(a, 8)
    {
      var s := Load(a, 8);
      LeBound(s); WordSizes();
      v := FromLe(s);
    }

    method LoadIovec(a: int) returns (v: Iovec)
      modifies this`touched
      ensures v == ReadIovec(bytes, a)
      ensures touched == old(touched) + Range(a, 16)
    {
      hide ReadU64, Range;
      var base := LoadU64(a);
      var len := LoadU64(a + 8);
      v := Iovec(base, len);
      RangeSplit(a, 8, 8);
    }

    /** A word of a borrowed message header. */
    method LoadField(h: int, k: nat, n: nat) returns (s: seq<byte>)
      requires k + n <= MSGHDR_SIZE && Range(h, MSGHDR_SIZE) <= touched
      modifies this`touched
      ensures s == Bytes(bytes, h + k, n) && touched == old(touched)
    {
      s := Load(h + k, n);
      RangeWithin(h, k, n, MSGHDR_SIZE);
    }

    method LoadField64(h: int, k: nat) returns (v: u64)
      requires k + 8 <= MSGHDR_SIZE && Range(h, MSGHDR_SIZE) <= touched
      modifies this`touched
      ensures v == ReadU64(bytes, h + k) && touched == old(touched)
    {
      var s := LoadField(h, k, 8);
      LeBound(s); WordSizes();
      v := FromLe(s);
    }

    method LoadField32(h: int, k: nat) returns (v: u32)
      requires k + 4 <= MSGHDR_SIZE && Range(h, MSGHDR_SIZE) <= touched
      modifies this`touched
      ensures v == ReadU32(bytes, h + k) && touched == old(touched)
    {
      var s := LoadField(h, k, 4);
      LeBound(s); WordSizes();
      v := FromLe(s);
    }

    /** `buf.fill(0)`. */
    method Fill(a: int, n: nat)
      modifies this
      ensures bytes == old(bytes) + Zeros(a, n)
      ensures touched == old(touched) + Range(a, n)
    {
      for i := 0 to n
        invariant bytes == old(bytes) + Zeros(a, i)
        invariant touched == old(touched) + Range(a, i)
      {
        StoreByte(a + i, 0);
        assert Zeros(a, i + 1) == Zeros(a, i)[a + i := 0];
        RangeSnoc(a, i);
      }
    }

    method StoreBytes(a: int, s: seq<byte>)
      modifies this
      ensures bytes == old(bytes) + Store(a, s)
      ensures touched == old(touched) + Range(a, |s|)
    {
      for i := 0 to |s|
        invariant bytes == old(bytes) + Store(a, s[..i])
        invariant touched == old(touched) + Range(a, i)
      {
        StoreByte(a + i, s[i]);
        assert Store(a, s[..i + 1]) == Store(a, s[..i])[a + i := s[i]];
        RangeSnoc(a, i);
      }
      assert s[..|s|] == s;
    }

    /** Reads every byte; the sum goes to a black box. */
    method Sink(a: int, n: nat)
      modifies this`touched
      ensures touched == old(touched) + Range(a, n)
    {
      var sink: byte := 0;
      for i := 0 to n
        invariant touched == old(touched) + Range(a, i)
      {
        var b := LoadByte(a + i);
        sink := (sink + b) % 256;
        RangeSnoc(a, i);
      }
    }

    method WalkCStr(p: int)
      modifies this`touched
      ensures touched == old(touched) + CStr(bytes, p)
    {
      var at := p;
      var b := LoadByte(at);
      while b != 0
        invariant touched + CStr(bytes, at) == old(touched) + CStr(bytes, p)
        invariant at in touched && b == Get(bytes, at)
        decreases From(bytes, at)
      {
        assert From(bytes, at + 1) < From(bytes, at) by {
          assert at in From(bytes, at) - From(bytes, at + 1);
        }
        at := at + 1;
        b := LoadByte(at);
      }
    }

    // ----- handlers -----

    /** Zero a field of a msghdr, if it is there. */
    method FillField(p: u64, n: u64)
      modifies this
      ensures bytes == old(bytes) + ZeroField(p, n)
      ensures touched == old(touched) + ZeroField(p, n).Keys
    {
      if p != 0 && n > 0 { Fill(p, n); } else { assert old(bytes) + map[] == old(bytes); }
    }

    method SinkField(p: u64, n: u64)
      modifies this`touched
      ensures touched == old(touched) + ReadField(p, n)
    {
      if p != 0 && n > 0 { Sink(p, n); }
    }

    /** One vector of a scatter. */
    method FillVector(v: Iovec, sum: u64) returns (total: u64)
      modifies this
      ensures bytes == old(bytes) + ScatterOne((map[], sum), v).0
      ensures total == ScatterOne((map[], sum), v).1
      ensures touched == old(touched) + ScatterOne((map[], sum), v).0.Keys
    {
      total := sum;
      if v.base != 0 && v.len > 0 {
        Fill(v.base, v.len);
        total := SaturatingAdd(total, v.len);
        assert map[] + Zeros(v.base, v.len) == Zeros(v.base, v.len);
      } else {
        assert old(bytes) + map[] == old(bytes);
      }
    }

    method ScatterLoop(iov: int, n: nat) returns (total: u64)
      modifies this
      ensures bytes == old(bytes) + Scatter(old(bytes), iov, n).0
      ensures total == Scatter(old(bytes), iov, n).1
      ensures touched == old(touched) + Range(iov, 16 * n) + Scatter(old(bytes), iov, n).0.Keys
    {
      hide ReadIovec, Zeros, ScatterOne, Scatter, Range;
      ghost var m := bytes;
      total := 0;
      ScatterNone(m, iov);
      NoRange(iov);
      for i := 0 to n
        invariant bytes == m + Scatter(m, iov, i).0
        invariant total == Scatter(m, iov, i).1
        invariant touched == old(touched) + Range(iov, 16 * i) + Scatter(m, iov, i).0.Keys
      {
        var v := LoadIovec(iov + 16 * i);
        ScatterSucc(m, iov, i, v);
        RangeSplit(iov, 16 * i, 16);
        total := FillVector(v, total);
      }
    }

    method GatherLoop(iov: int, n: nat) returns (total: u64)
      modifies this`touched
      ensures total == Gather(bytes, iov, n).1
      ensures touched == old(touched) + Range(iov, 16 * n) + Gather(bytes, iov, n).0
    {
      hide ReadIovec, Range;
      total := 0;
      NoRange(iov);
      for i := 0 to n
        invariant total == Gather(bytes, iov, i).1
        invariant touched == old(touched) + Range(iov, 16 * i) + Gather(bytes, iov, i).0
      {
        var v := LoadIovec(iov + 16 * i);
        RangeSplit(iov, 16 * i, 16);
        assert Gather(bytes, iov, i + 1) == GatherOne(Gather(bytes, iov, i), v);
        if v.base != 0 && v.len > 0 {
          Sink(v.base, v.len);
          total := SaturatingAdd(total, v.len);
        }
      }
    }

    /** Name, then control; the header is read again in between. */
    method FillNameAndControl(h: u64)
      requires Range(h, MSGHDR_SIZE) <= touched
      modifies this
      ensures var m := old(bytes);
        var w1 := ZeroField(ReadU64(m, h), ReadU32(m, h + 8));
        var w2 := w1 + ZeroField(ReadU64(m + w1, h + 32), ReadU64(m + w1, h + 40));
        bytes == m + w2 && touched == old(touched) + w2.Keys
    {
      hide ReadU64, ReadU32, ZeroField, Range;
      ghost var m := bytes;
      var name := LoadField64(h, 0);
      var nameLen := LoadField32(h, 8);
      FillField(name, nameLen);
      var control := LoadField64(h, 32);
      var controlLen := LoadField64(h, 40);
      FillField(control, controlLen);
      Regroup(m, ZeroField(name, nameLen), ZeroField(control, controlLen));
    }

    method RecvMsgHandler(h: u64) returns (res: i32)
      modifies this
      ensures bytes == old(bytes) + RecvMsg(h, old(bytes)).writes && res == RecvMsg(h, old(bytes)).res
      ensures touched == old(touched) + RecvMsg(h, old(bytes)).deps + RecvMsg(h, old(bytes)).writes.Keys
    {
      hide ReadU64, ReadU32, ZeroField, Scatter, Range, AsI32;
      ghost var m := bytes;
      if h == 0 {
        Regroup(m, map[], map[]);
        return EFAULT;
      }
      Borrow(h, MSGHDR_SIZE);
      FillNameAndControl(h);
      ghost var w1 := ZeroField(ReadU64(m, h), ReadU32(m, h + 8));
      ghost var w2 := w1 + ZeroField(ReadU64(m + w1, h + 32), ReadU64(m + w1, h + 40));
      var iov := LoadField64(h, 16);
      var n := LoadField64(h, 24);
      if iov != 0 && n > 0 {
        var total := ScatterLoop(iov, n);
        Regroup(m, w2, Scatter(m + w2, iov, n).0);
        res := AsI32(total);
      } else {
        res := 0;
      }
    }

    method SendMsgHandler(h: u64) returns (res: i32)
      modifies this`touched
      ensures res == SendMsg(h, bytes).res && SendMsg(h, bytes).writes == map[]
      ensures touched == old(touched) + SendMsg(h, bytes).deps + SendMsgData(h, bytes)
    {
      hide ReadU64, ReadU32, ReadField, Gather, Range;
      if h == 0 { return EFAULT; }
      Borrow(h, MSGHDR_SIZE);
      var name := LoadField64(h, 0);
      var nameLen := LoadField32(h, 8);
      SinkField(name, nameLen);
      var control := LoadField64(h, 32);
      var controlLen := LoadField64(h, 40);
      SinkField(control, controlLen);
      var iov := LoadField64(h, 16);
      var n := LoadField64(h, 24);
      if iov != 0 && n > 0 {
        var total := GatherLoop(iov, n);
        res := AsI32(total);
      } else {
        res := 0;
      }
    }

    method AcceptHandler(addr: u64, off: u64) returns (res: i32)
      modifies this
      ensures res == FAKE_FD
      ensures addr == 0 || off == 0 ==> bytes == old(bytes) && touched == old(touched)
      ensures addr != 0 && off != 0 ==>
        && bytes == old(bytes) + (Zeros(addr, ReadU32(old(bytes), off)) + Zeros(off, 4))
        && touched == old(touched) + Range(off, 4) + Range(addr, ReadU32(old(bytes), off))
    {
      hide ReadU32, Zeros, Range, Store;
      if addr != 0 && off != 0 {
        var n := LoadU32(off);
        if n > 0 { Fill(addr, n); } else { EmptyRun(bytes, addr); }
        StoreBytes(off, [0, 0, 0, 0]);
        FourZeros(off);
        Regroup(old(bytes), Zeros(addr, n), Zeros(off, 4));
      }
      res := FAKE_FD;
    }

    /** A run of bytes zeroed, unless the pointer is null or the length 0. */
    method FillUnlessNull(a: u64, n: nat)
      modifies this
      ensures bytes == old(bytes) + if a == 0 || n == 0 then map[] else Zeros(a, n)
      ensures touched == old(touched) + if a == 0 || n == 0 then {} else Range(a, n)
    {
      if a == 0 || n == 0 { assert bytes + map[] == bytes; } else { Fill(a, n); }
    }

    method SinkUnlessNull(a: u64, n: nat)
      modifies this`touched
      ensures touched == old(touched) + if a == 0 || n == 0 then {} else Range(a, n)
    {
      if a != 0 && n != 0 { Sink(a, n); }
    }

    method WalkUnlessNull(p: u64)
      modifies this`touched
      ensures touched == old(touched) + if p == 0 then {} else CStr(bytes, p)
    {
      if p != 0 { WalkCStr(p); }
    }

    method XattrGetHandler(q: Sqe) returns (res: i32)
      requires HandlerOf(q.opcode) == XattrGet
      modifies this
      ensures bytes == old(bytes) + Dispatch(q, old(bytes)).writes
      ensures res == Dispatch(q, old(bytes)).res
      ensures touched == old(touched) + DataRead(q, old(bytes)) + Dispatch(q, old(bytes)).writes.Keys
    {
      hide CStr, Range, HandlerOf, Zeros, AsI32;
      Regroup(bytes, map[], map[]);
      RunKeys(q.off, q.len, []);
      WalkUnlessNull(q.addr);
      FillUnlessNull(q.off, q.len);
      if q.opcode == OP_GETXATTR { WalkUnlessNull(q.addr3); }
      res := AsI32(q.len);
    }

    /** The other operations that only write: reads and receives, statx, waits, pipe. */
    method WriterHandler(q: Sqe) returns (res: i32)
      requires HandlerOf(q.opcode) in {BufFill, Statx, EpollWait, WaitId, Pipe}
      modifies this
      ensures bytes == old(bytes) + Dispatch(q, old(bytes)).writes
      ensures res == Dispatch(q, old(bytes)).res
      ensures touched == old(touched) + DataRead(q, old(bytes)) + Dispatch(q, old(bytes)).writes.Keys
    {
      hide CStr, Range, HandlerOf, Zeros, AsI32, Store;
      Regroup(bytes, map[], map[]);
      match HandlerOf(q.opcode)
      case BufFill =>
        RunKeys(q.addr, q.len, []);
        FillUnlessNull(q.addr, q.len);
        res := if q.addr == 0 || q.len == 0 then 0 else AsI32(q.len);
      case Statx =>
        RunKeys(q.off, 256, []);
        WalkUnlessNull(q.addr);
        FillUnlessNull(q.off, 256);
        res := 0;
      case EpollWait =>
        RunKeys(q.addr, 12 * q.len, []);
        FillUnlessNull(q.addr, 12 * q.len);
        res := 0;
      case WaitId =>
        RunKeys(q.off, 128, []);
        FillUnlessNull(q.off, 128);
        res := 0;
      case Pipe =>
        if q.addr == 0 { return EFAULT; }
        RunKeys(q.addr, 0, PIPE_FDS);
        StoreBytes(q.addr, PIPE_FDS);
        res := 0;
    }

    /** The whole range of provided buffers is borrowed, its first and last bytes are read. */
    method BorrowBuffers(a: int, n: nat)
      requires n > 0
      modifies this`touched
      ensures touched == old(touched) + Range(a, n)
    {
      Borrow(a, n);
      var first := LoadByte(a);
      var last := LoadByte(a + n - 1);
    }

    /** Operations that only look: writes and sends, socket addresses, paths, futexes. */
    method ReaderHandler(q: Sqe) returns (res: i32)
      requires HandlerOf(q.opcode) in {BufSink, Timeout, Connect, OpenAt, OpenAt2, Pathname, Pathname2, EpollCtl,
        FilesUpdate, ProvideBuffers, XattrSet, FutexRead, FutexWaitv}
      modifies this`touched
      ensures Dispatch(q, bytes).writes == map[] && Dispatch(q, bytes).deps == {}
      ensures res == Dispatch(q, bytes).res
      ensures touched == old(touched) + DataRead(q, bytes)
    {
      hide CStr, Range, HandlerOf, AsI32;
      match HandlerOf(q.opcode)
      case BufSink =>
        SinkUnlessNull(q.addr, q.len);
        res := if q.addr == 0 || q.len == 0 then 0 else AsI32(q.len);
      case Timeout =>
        SinkUnlessNull(q.addr, 16);
        res := if q.addr == 0 then EFAULT else ETIME;
      case Connect =>
        SinkUnlessNull(q.addr, q.off);
        res := if q.addr == 0 || q.off == 0 then EFAULT else 0;
      case OpenAt =>
        WalkUnlessNull(q.addr);
        res := if q.addr == 0 then EFAULT else FAKE_FD;
      case OpenAt2 =>
        if q.addr == 0 { return EFAULT; }
        WalkCStr(q.addr);
        SinkUnlessNull(q.off, 24);
        res := FAKE_FD;
      case Pathname =>
        WalkUnlessNull(q.addr);
        res := if q.addr == 0 then EFAULT else 0;
      case Pathname2 =>
        if q.addr == 0 || q.off == 0 { return EFAULT; }
        WalkCStr(q.addr);
        WalkCStr(q.off);
        res := 0;
      case EpollCtl =>
        SinkUnlessNull(q.addr, 12);
        res := 0;
      case FilesUpdate =>
        SinkUnlessNull(q.addr, 4 * q.len);
        res := if q.addr == 0 || q.len == 0 then 0 else AsI32(q.len);
      case ProvideBuffers =>
        if q.fd != 0 && q.addr != 0 && q.len != 0 { BorrowBuffers(q.addr, ProvidedBytes(q)); }
        res := 0;
      case XattrSet =>
        WalkUnlessNull(q.addr);
        SinkUnlessNull(q.off, q.len);
        if q.opcode == OP_SETXATTR { WalkUnlessNull(q.addr3); }
        res := 0;
      case FutexRead =>
        SinkUnlessNull(q.addr, 4);
        res := if q.addr == 0 then EFAULT else 0;
      case FutexWaitv =>
        SinkUnlessNull(q.addr, 24 * q.len);
        res := if q.addr == 0 || q.len == 0 then EFAULT else 0;
    }

    /** Operations driven by descriptors in user memory. */
    method DescriptorHandler(q: Sqe) returns (res: i32)
      requires HandlerOf(q.opcode) in {Readv, Writev, RecvMsgOp, SendMsgOp, Accept}
      modifies this
      ensures bytes == old(bytes) + Dispatch(q, old(bytes)).writes
      ensures res == Dispatch(q, old(bytes)).res
      ensures touched == old(touched) + Dispatch(q, old(bytes)).deps + DataRead(q, old(bytes))
        + Dispatch(q, old(bytes)).writes.Keys
    {
      hide Range, HandlerOf, AsI32, Zeros, Scatter, Gather, RecvMsg, SendMsg, SendMsgData, ReadU32;
      ghost var m := bytes;
      Regroup(m, map[], map[]);
      match HandlerOf(q.opcode)
      case Readv =>
        if q.addr == 0 || q.len == 0 { return 0; }
        var total := ScatterLoop(q.addr, q.len);
        res := AsI32(total);
      case Writev =>
        if q.addr == 0 || q.len == 0 { return 0; }
        var total := GatherLoop(q.addr, q.len);
        res := AsI32(total);
      case RecvMsgOp => res := RecvMsgHandler(q.addr);
      case SendMsgOp => res := SendMsgHandler(q.addr);
      case Accept =>
        res := AcceptHandler(q.addr, q.off);
        RunKeys(q.addr, ReadU32(m, q.off), []);
        RunKeys(q.off, 4, []);
        Regroup(m, Zeros(q.addr, ReadU32(m, q.off)), Zeros(q.off, 4));
    }

    method DispatchByTable(q: Sqe) returns (res: i32)
      modifies this
      ensures bytes == old(bytes) + Dispatch(q, old(bytes)).writes
      ensures res == Dispatch(q, old(bytes)).res
      ensures touched == old(touched) + Dispatch(q, old(bytes)).deps + DataRead(q, old(bytes))
        + Dispatch(q, old(bytes)).writes.Keys
    {
      hide HandlerOf, AsI32, Zeros, Scatter, Gather, RecvMsg, SendMsg, SendMsgData, ReadU32;
      Regroup(bytes, map[], map[]);
      match HandlerOf(q.opcode)
      case Nop => res := if And(q.opFlags, NOP_INJECT_RESULT) != 0 then AsI32(q.len) else 0;
      case Readv => res := DescriptorHandler(q);
      case Writev => res := DescriptorHandler(q);
      case RecvMsgOp => res := DescriptorHandler(q);
      case SendMsgOp => res := DescriptorHandler(q);
      case Accept => res := DescriptorHandler(q);
      case BufFill => res := WriterHandler(q);
      case Statx => res := WriterHandler(q);
      case EpollWait => res := WriterHandler(q);
      case WaitId => res := WriterHandler(q);
      case Pipe => res := WriterHandler(q);
      case XattrGet => res := XattrGetHandler(q);
      case NoTouch => res := 0;
      case NewFd => res := FAKE_FD;
      case NoSys => res := ENOSYS;
      case _ => res := ReaderHandler(q);
    }

    /** `dispatch_op` does what the manual says of the opcode: result, bytes left, addresses
        used. In terms of the specification the same holds without a condition. */
    method DispatchOp(q: Sqe) returns (res: i32)
      modifies this
      ensures bytes == old(bytes) + Dispatch(q, old(bytes)).writes
      ensures res == Dispatch(q, old(bytes)).res
      ensures touched == old(touched) + Dispatch(q, old(bytes)).deps + DataRead(q, old(bytes))
        + Dispatch(q, old(bytes)).writes.Keys
      ensures Manual.Unaliased(q, old(bytes)) ==>
        && Manual.Result(q, old(bytes), res)
        && Manual.Leaves(q, old(bytes), bytes)
        && forall x :: x in touched <==> x in old(touched) || Manual.Uses(q, old(bytes), x)
    {
      hide Dispatch, DataRead, Manual.Row, Manual.Unaliased, Manual.Uses, Manual.Leaves, Manual.Result;
      ghost var m := bytes;
      res := DispatchByTable(q);
      if Manual.Unaliased(q, m) {
        Manual.DispatchHasRow(q, m);
        Manual.RowLeaves(q, m, Dispatch(q, m), DataRead(q, m));
      }
    }
  }

  lemma NoRange(a: int)
    ensures Range(a, 0) == {}
  {
  }

  lemma RangeSnoc(a: int, n: nat)
    ensures Range(a, n + 1) == Range(a, n) + {a + n}
  {
  }

  lemma RangeSplit(a: int, n: nat, k: nat)
    ensures Range(a, n + k) == Range(a, n) + Range(a + n, k)
  {
  }

  lemma RangeWithin(a: int, k: nat, n: nat, m: nat)
    requires k + n <= m
    ensures Range(a + k, n) <= Range(a, m)
  {
  }

  lemma EmptyRun(m: Mem, a: int)
    ensures m + Zeros(a, 0) == m && Range(a, 0) == {}
  {
  }

  lemma FourZeros(a: int)
    ensures Store(a, [0, 0, 0, 0]) == Zeros(a, 4)
  {
  }

  lemma RunKeys(a: int, n: nat, s: seq<byte>)
    ensures Zeros(a, n).Keys == Range(a, n)
    ensures Store(a, s).Keys == Range(a, |s|)
  {
  }

  lemma ScatterNone(m: Mem, iov: int)
    ensures m + Scatter(m, iov, 0).0 == m && Scatter(m, iov, 0).1 == 0 && Scatter(m, iov, 0).0.Keys == {}
  {
  }

  lemma ScatterSucc(m: Mem, iov: int, i: nat, v: Iovec)
    requires v == ReadIovec(m + Scatter(m, iov, i).0, iov + 16 * i)
    ensures var done, next, one := Scatter(m, iov, i), Scatter(m, iov, i + 1), ScatterOne((map[], Scatter(m, iov, i).1), v);
      && m + next.0 == m + done.0 + one.0
      && next.1 == one.1
      && next.0.Keys == done.0.Keys + one.0.Keys
  {
    hide ReadIovec, Zeros;
    var done := Scatter(m, iov, i);
    assert Scatter(m, iov, i + 1) == ScatterOne(done, v);
    if Live(v) {
      var z := Zeros(v.base, v.len);
      assert m + (done.0 + z) == m + done.0 + z;
      assert map[] + z == z;
    } else {
      assert m + done.0 + map[] == m + done.0;
    }
  }
}
