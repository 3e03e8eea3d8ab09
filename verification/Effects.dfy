/** User memory as bytes, and what dispatching one SQE does to it: the result, the bytes
    written, and the bytes the result and the writes depend on. Addresses are integers;
    0 is the null pointer. */
module Effects {
  import opened Words
  import opened Entries

  type Mem = map<int, byte>

  function Get(m: Mem, a: int): byte { if a in m then m[a] else 0 }

  predicate Within(x: int, a: int, n: nat) { a <= x < a + n }

  function Range(a: int, n: nat): set<int> { set x | a <= x < a + n && Within(x, a, n) }

  function Zeros(a: int, n: nat): Mem { map x | x in Range(a, n) :: 0 }

  function Store(a: int, s: seq<byte>): Mem { map x | x in Range(a, |s|) :: s[x - a] }

  function Bytes(m: Mem, a: int, n: nat): seq<byte> { seq<byte>(n, i => Get(m, a + i)) }

  function ReadU32(m: Mem, a: int): u32 {
    LeBound(Bytes(m, a, 4)); WordSizes();
    FromLe(Bytes(m, a, 4))
  }

  function ReadU64(m: Mem, a: int): u64 {
    LeBound(Bytes(m, a, 8)); WordSizes();
    FromLe(Bytes(m, a, 8))
  }

  /** The mapped addresses from p on. */
  function From(m: Mem, p: int): set<int> { set a | a in m.Keys && p <= a }

  /** The bytes of a NUL-terminated string, terminator included. */
  function CStr(m: Mem, p: int): set<int>
    decreases From(m, p)
  {
    if Get(m, p) == 0 then {p}
    else
      assert From(m, p + 1) < From(m, p) by { assert p in From(m, p) - From(m, p + 1); }
      {p} + CStr(m, p + 1)
  }

  // ----- what an operation does -----

  /** `deps` is the memory the result and the writes depend on: descriptors, not data. */
  datatype Effect = Effect(deps: set<int>, writes: Mem, res: i32)

  function Pure(res: i32): Effect { Effect({}, map[], res) }

  const CANCELLED := Pure(ECANCELED)

  // ----- iovec arrays -----

  datatype Iovec = Iovec(base: u64, len: u64)

  function ReadIovec(m: Mem, a: int): Iovec { Iovec(ReadU64(m, a), ReadU64(m, a + 8)) }

  predicate Live(v: Iovec) { v.base != 0 && v.len > 0 }

  /** The first n vectors of a scatter: what is written and the saturating total. Each
      vector is read from memory as the earlier ones left it. */
  function Scatter(m: Mem, iov: int, n: nat): (Mem, u64) {
    if n == 0 then (map[], 0)
    else
      var done := Scatter(m, iov, n - 1);
      ScatterOne(done, ReadIovec(m + done.0, iov + 16 * (n - 1)))
  }

  function ScatterOne(done: (Mem, u64), v: Iovec): (Mem, u64) {
    if Live(v) then (done.0 + Zeros(v.base, v.len), SaturatingAdd(done.1, v.len)) else done
  }

  /** The first n vectors of a gather: the data read and the saturating total. */
  function Gather(m: Mem, iov: int, n: nat): (set<int>, u64) {
    if n == 0 then ({}, 0)
    else
      GatherOne(Gather(m, iov, n - 1), ReadIovec(m, iov + 16 * (n - 1)))
  }

  function GatherOne(done: (set<int>, u64), v: Iovec): (set<int>, u64) {
    if Live(v) then (done.0 + Range(v.base, v.len), SaturatingAdd(done.1, v.len)) else done
  }

  // ----- msghdr -----

  const MSGHDR_SIZE: nat := 56

  function ZeroField(p: u64, n: u64): Mem { if p != 0 && n > 0 then Zeros(p, n) else map[] }

  function ReadField(p: u64, n: u64): set<int> { if p != 0 && n > 0 then Range(p, n) else {} }

  /** `recvmsg` clears the name, then the control field, then scatters; the header fields
      are read as memory stands when each is used. */
  function RecvMsg(h: u64, m: Mem): Effect {
    if h == 0 then Pure(EFAULT)
    else
      var w1 := ZeroField(ReadU64(m, h), ReadU32(m, h + 8));
      var w2 := w1 + ZeroField(ReadU64(m + w1, h + 32), ReadU64(m + w1, h + 40));
      var iov, n := ReadU64(m + w2, h + 16), ReadU64(m + w2, h + 24);
      if iov != 0 && n > 0 then
        var (w3, total) := Scatter(m + w2, iov, n);
        Effect(Range(h, MSGHDR_SIZE) + Range(iov, 16 * n), w2 + w3, AsI32(total))
      else
        Effect(Range(h, MSGHDR_SIZE), w2, 0)
  }

  function SendMsg(h: u64, m: Mem): Effect {
    if h == 0 then Pure(EFAULT)
    else
      var iov, n := ReadU64(m, h + 16), ReadU64(m, h + 24);
      if iov != 0 && n > 0 then
        Effect(Range(h, MSGHDR_SIZE) + Range(iov, 16 * n), map[], AsI32(Gather(m, iov, n).1))
      else
        Effect(Range(h, MSGHDR_SIZE), map[], 0)
  }

  function SendMsgData(h: u64, m: Mem): set<int> {
    if h == 0 then {}
    else
      var iov, n := ReadU64(m, h + 16), ReadU64(m, h + 24);
      ReadField(ReadU64(m, h), ReadU32(m, h + 8))
      + ReadField(ReadU64(m, h + 32), ReadU64(m, h + 40))
      + if iov != 0 && n > 0 then Gather(m, iov, n).0 else {}
  }

  // ----- dispatch -----

  datatype Handler =
    | Nop | BufFill | BufSink | Readv | Writev | RecvMsgOp | SendMsgOp | Timeout | Connect | Accept
    | OpenAt | OpenAt2 | Statx | Pathname | Pathname2 | EpollCtl | FilesUpdate | ProvideBuffers
    | XattrSet | XattrGet | EpollWait | FutexRead | FutexWaitv | WaitId | Pipe
    | NoTouch | NewFd | NoSys

  const OP_SETXATTR: u8 := 42
  const OP_GETXATTR: u8 := 44

  /** The dispatch table, by opcode number. */
  function HandlerOf(op: u8): Handler {
    if op == 0 then Nop
    else if op in {22, 4, 27, 49} then BufFill
    else if op in {23, 5, 26, 47} then BufSink
    else if op in {1, 60} then Readv
    else if op in {2, 61} then Writev
    else if op == 10 then RecvMsgOp
    else if op in {9, 48} then SendMsgOp
    else if op in {11, 15} then Timeout
    else if op in {16, 56} then Connect
    else if op == 13 then Accept
    else if op == 18 then OpenAt
    else if op == 28 then OpenAt2
    else if op == 21 then Statx
    else if op in {36, 37} then Pathname
    else if op in {35, 38, 39} then Pathname2
    else if op == 29 then EpollCtl
    else if op == 20 then FilesUpdate
    else if op == 31 then ProvideBuffers
    else if op in {41, 42} then XattrSet
    else if op in {43, 44} then XattrGet
    else if op == 59 then EpollWait
    else if op in {51, 52} then FutexRead
    else if op == 53 then FutexWaitv
    else if op == 50 then WaitId
    else if op == 62 then Pipe
    else if op in {19, 3, 8, 17, 55, 34, 6, 7, 14, 12, 30, 33, 32, 24, 25, 40, 57, 46, 58} then NoTouch
    else if op in {45, 54} then NewFd
    else NoSys
  }

  const PIPE_FDS: seq<byte> := ToLe(42, 4) + ToLe(43, 4)

  /** What dispatching `q` in memory `m` writes and returns. */
  function Dispatch(q: Sqe, m: Mem): Effect {
    match HandlerOf(q.opcode)
    case Nop => Pure(if And(q.opFlags, NOP_INJECT_RESULT) != 0 then AsI32(q.len) else 0)
    case BufFill =>
      if q.addr == 0 || q.len == 0 then Pure(0) else Effect({}, Zeros(q.addr, q.len), AsI32(q.len))
    case BufSink =>
      if q.addr == 0 || q.len == 0 then Pure(0) else Pure(AsI32(q.len))
    case Readv =>
      if q.addr == 0 || q.len == 0 then Pure(0)
      else
        var (w, total) := Scatter(m, q.addr, q.len);
        Effect(Range(q.addr, 16 * q.len), w, AsI32(total))
    case Writev =>
      if q.addr == 0 || q.len == 0 then Pure(0)
      else Effect(Range(q.addr, 16 * q.len), map[], AsI32(Gather(m, q.addr, q.len).1))
    case RecvMsgOp => RecvMsg(q.addr, m)
    case SendMsgOp => SendMsg(q.addr, m)
    case Timeout => Pure(if q.addr == 0 then EFAULT else ETIME)
    case Connect => Pure(if q.addr == 0 || q.off == 0 then EFAULT else 0)
    case Accept =>
      if q.addr == 0 || q.off == 0 then Pure(FAKE_FD)
      else Effect(Range(q.off, 4), Zeros(q.addr, ReadU32(m, q.off)) + Zeros(q.off, 4), FAKE_FD)
    case OpenAt => Pure(if q.addr == 0 then EFAULT else FAKE_FD)
    case OpenAt2 => Pure(if q.addr == 0 then EFAULT else FAKE_FD)
    case Statx => if q.off == 0 then Pure(0) else Effect({}, Zeros(q.off, 256), 0)
    case Pathname => Pure(if q.addr == 0 then EFAULT else 0)
    case Pathname2 => Pure(if q.addr == 0 || q.off == 0 then EFAULT else 0)
    case EpollCtl => Pure(0)
    case FilesUpdate => Pure(if q.addr == 0 || q.len == 0 then 0 else AsI32(q.len))
    case ProvideBuffers => Pure(0)
    case XattrSet => Pure(0)
    case XattrGet =>
      if q.off == 0 || q.len == 0 then Pure(AsI32(q.len)) else Effect({}, Zeros(q.off, q.len), AsI32(q.len))
    case EpollWait =>
      if q.addr == 0 || q.len == 0 then Pure(0) else Effect({}, Zeros(q.addr, 12 * q.len), 0)
    case FutexRead => Pure(if q.addr == 0 then EFAULT else 0)
    case FutexWaitv => Pure(if q.addr == 0 || q.len == 0 then EFAULT else 0)
    case WaitId => if q.off == 0 then Pure(0) else Effect({}, Zeros(q.off, 128), 0)
    case Pipe => if q.addr == 0 then Pure(EFAULT) else Effect({}, Store(q.addr, PIPE_FDS), 0)
    case NoTouch => Pure(0)
    case NewFd => Pure(FAKE_FD)
    case NoSys => Pure(ENOSYS)
  }

  /** The user data the kernel only looks at: it is read, but neither the result nor the
      writes depend on it. */
  function DataRead(q: Sqe, m: Mem): set<int> {
    match HandlerOf(q.opcode)
    case BufSink => if q.addr == 0 || q.len == 0 then {} else Range(q.addr, q.len)
    case Writev => if q.addr == 0 || q.len == 0 then {} else Gather(m, q.addr, q.len).0
    case SendMsgOp => SendMsgData(q.addr, m)
    case Timeout => if q.addr == 0 then {} else Range(q.addr, 16)
    case Connect => if q.addr == 0 || q.off == 0 then {} else Range(q.addr, q.off)
    case OpenAt => if q.addr == 0 then {} else CStr(m, q.addr)
    case OpenAt2 =>
      if q.addr == 0 then {} else CStr(m, q.addr) + if q.off == 0 then {} else Range(q.off, 24)
    case Statx => if q.addr == 0 then {} else CStr(m, q.addr)
    case Pathname => if q.addr == 0 then {} else CStr(m, q.addr)
    case Pathname2 => if q.addr == 0 || q.off == 0 then {} else CStr(m, q.addr) + CStr(m, q.off)
    case EpollCtl => if q.addr == 0 then {} else Range(q.addr, 12)
    case FilesUpdate => if q.addr == 0 || q.len == 0 then {} else Range(q.addr, 4 * q.len)
    case ProvideBuffers =>
      if q.addr == 0 || q.len == 0 || q.fd == 0 then {}
      else Range(q.addr, ProvidedBytes(q))
    case XattrSet =>
      (if q.addr == 0 then {} else CStr(m, q.addr))
      + (if q.off == 0 || q.len == 0 then {} else Range(q.off, q.len))
      + (if q.opcode != OP_SETXATTR || q.addr3 == 0 then {} else CStr(m, q.addr3))
    case XattrGet =>
      (if q.addr == 0 then {} else CStr(m, q.addr))
      + (if q.opcode != OP_GETXATTR || q.addr3 == 0 then {}
         else CStr(if q.off == 0 || q.len == 0 then m else m + Zeros(q.off, q.len), q.addr3))
    case FutexRead => if q.addr == 0 then {} else Range(q.addr, 4)
    case FutexWaitv => if q.addr == 0 || q.len == 0 then {} else Range(q.addr, 24 * q.len)
    case _ => {}
  }

  /** `nbufs.saturating_mul(buf_len)`, the count taken from the sign-extended `fd` field. */
  function ProvidedBytes(q: Sqe): u64 {
    var nbufs: nat := if q.fd < 0 then q.fd + TWO64 else q.fd;
    assert nbufs * q.len >= 0;
    if nbufs * q.len < TWO64 then nbufs * q.len else TWO64 - 1
  }

  // ----- updates of memory compose -----

  lemma Regroup(m: Mem, a: Mem, b: Mem)
    ensures m + (a + b) == (m + a) + b
    ensures (a + b).Keys == a.Keys + b.Keys
    ensures m + map[] == m && map[] + m == m
  {
  }

  // ----- the frame property -----

  ghost predicate Agree(m: Mem, m': Mem, s: set<int>) {
    forall a | a in s :: Get(m, a) == Get(m', a)
  }

  lemma AgreeAfter(m: Mem, m': Mem, w: Mem, s: set<int>)
    requires Agree(m, m', s)
    ensures Agree(m + w, m' + w, s)
  {
  }

  lemma WordsAgree(m: Mem, m': Mem, a: int, n: nat)
    requires Agree(m, m', Range(a, n))
    ensures Bytes(m, a, n) == Bytes(m', a, n)
  {
    forall i | 0 <= i < n ensures Bytes(m, a, n)[i] == Bytes(m', a, n)[i] { assert a + i in Range(a, n); }
  }

  lemma IovecAgrees(m: Mem, m': Mem, iov: int, i: nat, n: nat)
    requires i < n && Agree(m, m', Range(iov, 16 * n))
    ensures ReadIovec(m, iov + 16 * i) == ReadIovec(m', iov + 16 * i)
  {
    var a := iov + 16 * i;
    assert Range(a, 8) <= Range(iov, 16 * n) && Range(a + 8, 8) <= Range(iov, 16 * n);
    WordsAgree(m, m', a, 8);
    WordsAgree(m, m', a + 8, 8);
  }

  lemma IovecAgreesAfter(m: Mem, m': Mem, w: Mem, iov: int, i: nat, n: nat)
    requires i < n && Agree(m, m', Range(iov, 16 * n))
    ensures ReadIovec(m + w, iov + 16 * i) == ReadIovec(m' + w, iov + 16 * i)
  {
    IovecAgrees(m + w, m' + w, iov, i, n);
  }

  lemma {:induction false} ScatterFrame(m: Mem, m': Mem, iov: int, k: nat, n: nat)
    requires k <= n && Agree(m, m', Range(iov, 16 * n))
    ensures Scatter(m, iov, k) == Scatter(m', iov, k)
  {
    if k > 0 {
      ScatterFrame(m, m', iov, k - 1, n);
      IovecAgreesAfter(m, m', Scatter(m, iov, k - 1).0, iov, k - 1, n);
    }
  }

  lemma {:induction false} GatherFrame(m: Mem, m': Mem, iov: int, k: nat, n: nat)
    requires k <= n && Agree(m, m', Range(iov, 16 * n))
    ensures Gather(m, iov, k) == Gather(m', iov, k)
  {
    if k > 0 {
      var v := ReadIovec(m, iov + 16 * (k - 1));
      assert v == ReadIovec(m', iov + 16 * (k - 1)) by { IovecAgrees(m, m', iov, k - 1, n); }
      GatherFrame(m, m', iov, k - 1, n);
      assert Gather(m', iov, k) == GatherOne(Gather(m', iov, k - 1), v);
    }
  }

  lemma HeaderAgrees(m: Mem, m': Mem, h: int)
    requires Agree(m, m', Range(h, MSGHDR_SIZE))
    ensures ReadU64(m, h) == ReadU64(m', h) && ReadU32(m, h + 8) == ReadU32(m', h + 8)
    ensures ReadU64(m, h + 16) == ReadU64(m', h + 16) && ReadU64(m, h + 24) == ReadU64(m', h + 24)
    ensures ReadU64(m, h + 32) == ReadU64(m', h + 32) && ReadU64(m, h + 40) == ReadU64(m', h + 40)
  {
    WordsAgree(m, m', h, 8); WordsAgree(m, m', h + 8, 4);
    WordsAgree(m, m', h + 16, 8); WordsAgree(m, m', h + 24, 8);
    WordsAgree(m, m', h + 32, 8); WordsAgree(m, m', h + 40, 8);
  }

  lemma RecvMsgFrame(h: u64, m: Mem, m': Mem)
    requires Agree(m, m', RecvMsg(h, m).deps)
    ensures RecvMsg(h, m') == RecvMsg(h, m)
  {
    if h != 0 {
      var header := Range(h, MSGHDR_SIZE);
      HeaderAgrees(m, m', h);
      var w1 := ZeroField(ReadU64(m, h), ReadU32(m, h + 8));
      AgreeAfter(m, m', w1, header);
      HeaderAgrees(m + w1, m' + w1, h);
      var w2 := w1 + ZeroField(ReadU64(m + w1, h + 32), ReadU64(m + w1, h + 40));
      AgreeAfter(m, m', w2, header);
      HeaderAgrees(m + w2, m' + w2, h);
      var iov: int, n: nat := ReadU64(m + w2, h + 16), ReadU64(m + w2, h + 24);
      if iov != 0 && n > 0 {
        AgreeAfter(m, m', w2, Range(iov, 16 * n));
        ScatterFrame(m + w2, m' + w2, iov, n, n);
      }
    }
  }

  lemma SendMsgFrame(h: u64, m: Mem, m': Mem)
    requires Agree(m, m', SendMsg(h, m).deps)
    ensures SendMsg(h, m') == SendMsg(h, m)
  {
    if h != 0 {
      HeaderAgrees(m, m', h);
      var iov: int, n: nat := ReadU64(m, h + 16), ReadU64(m, h + 24);
      if iov != 0 && n > 0 { GatherFrame(m, m', iov, n, n); }
    }
  }

  /** Dispatch depends on memory only through the descriptors it declares: two memories
      that agree there give the same result, the same writes and the same descriptors. */
  lemma DispatchFrame(q: Sqe, m: Mem, m': Mem)
    requires Agree(m, m', Dispatch(q, m).deps)
    ensures Dispatch(q, m') == Dispatch(q, m)
  {
    match HandlerOf(q.opcode)
    case Readv => if q.addr != 0 && q.len != 0 { ScatterFrame(m, m', q.addr, q.len, q.len); }
    case Writev => if q.addr != 0 && q.len != 0 { GatherFrame(m, m', q.addr, q.len, q.len); }
    case RecvMsgOp => RecvMsgFrame(q.addr, m, m');
    case SendMsgOp => SendMsgFrame(q.addr, m, m');
    case Accept => if q.addr != 0 && q.off != 0 { WordsAgree(m, m', q.off, 4); }
    case _ =>
  }
}
