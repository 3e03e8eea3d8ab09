/** The typed builders as a compiler into SQE fields, with `dispatch_op` as its interpreter.
    One operation per shape of dispatch. */
module Builders {
  import opened Words
  import opened Entries
  import opened Effects

  datatype Target = Fd(fd: i32) | Fixed(index: u32)

  /** A slot of the fixed-file table, as the kernel numbers it: from 1, with the largest
      value standing for "any free slot". */
  type DestinationSlot = x: u32 | x != 0 witness 1

  const AUTO_ALLOC: DestinationSlot := 0xFFFF_FFFF

  /** `try_from_slot_target`: slots are numbered from 0 by the user. */
  function SlotFromTarget(target: u32): Option<DestinationSlot> {
    if target > 0xFFFF_FFFF - 2 then None else Some(target + 1)
  }

  type Bytes16 = s: seq<byte> | |s| == 16 witness seq(16, _ => 0)

  datatype Op =
    | NopOp(nopFlags: u32, nopResult: u32)
    | ReadvOp(fd: Target, iovec: u64, len: u32, ioprio: u16, offset: u64, rwFlags: i32, bufGroup: u16)
    | WritevOp(fd: Target, iovec: u64, len: u32, ioprio: u16, offset: u64, rwFlags: i32)
    | SendMsgCall(fd: Target, msg: u64, ioprio: u16, flags: u32)
    | RecvMsgCall(fd: Target, msg: u64, ioprio: u16, flags: u32, bufGroup: u16)
    | TimeoutOp(timespec: u64, count: u32, flags: u32)
    | AcceptOp(fd: Target, addr: u64, addrlen: u64, flags: u32, fileIndex: Option<u32>)
    | ConnectOp(fd: Target, addr: u64, sockLen: u32)
    | CloseOp(fd: Target)
    | ReadOp(fd: Target, buf: u64, len: u32, ioprio: u16, offset: u64, rwFlags: i32, bufGroup: u16)
    | WriteOp(fd: Target, buf: u64, len: u32, ioprio: u16, offset: u64, rwFlags: i32)
    | UringCmd16Op(fd: Target, cmdOp: u32, bufIndex: Option<u16>, cmd: Bytes16)
    | PipeOp(fds: u64, flags: u32, slot: Option<DestinationSlot>)

  const NOP: u8 := 0
  const READV: u8 := 1
  const WRITEV: u8 := 2
  const SENDMSG: u8 := 9
  const RECVMSG: u8 := 10
  const TIMEOUT: u8 := 11
  const ACCEPT: u8 := 13
  const CONNECT: u8 := 16
  const CLOSE: u8 := 19
  const READ: u8 := 22
  const WRITE: u8 := 23
  const URING_CMD: u8 := 46
  const PIPE: u8 := 62

  const URING_CMD_FIXED: u32 := 1

  function Or8(a: u8, b: u8): u8 {
    assert IsPow2(256);
    OrBound(a, b, 256);
    Or(a, b)
  }

  // ----- building -----

  function WithFd(q: Sqe, t: Target): Sqe {
    match t
    case Fd(fd) => q.(fd := fd)
    case Fixed(index) => q.(fd := AsI32(index), flags := Or8(q.flags, FIXED_FILE))
  }

  function FromLe64(s: seq<byte>): u64
    requires |s| == 8
  {
    LeBound(s); WordSizes();
    FromLe(s)
  }

  /** The increment of a file index overflows an i32. */
  predicate IndexOverflows(op: Op) { op.AcceptOp? && op.fileIndex == Some(0x7FFF_FFFF) }

  /** The SQE of an operation; all other fields are zero. */
  function Encode(op: Op): Sqe {
    match op
    case NopOp(flags, result) => ZERO_SQE.(opcode := NOP, fd := -1, opFlags := flags, len := result)
    case ReadvOp(fd, iovec, len, ioprio, offset, rwFlags, bufGroup) =>
      WithFd(ZERO_SQE.(opcode := READV, ioprio := ioprio, addr := iovec, len := len, off := offset,
        opFlags := AsU32(rwFlags), bufIndex := bufGroup), fd)
    case WritevOp(fd, iovec, len, ioprio, offset, rwFlags) =>
      WithFd(ZERO_SQE.(opcode := WRITEV, ioprio := ioprio, addr := iovec, len := len, off := offset,
        opFlags := AsU32(rwFlags)), fd)
    case SendMsgCall(fd, msg, ioprio, flags) =>
      WithFd(ZERO_SQE.(opcode := SENDMSG, ioprio := ioprio, addr := msg, opFlags := flags, len := 1), fd)
    case RecvMsgCall(fd, msg, ioprio, flags, bufGroup) =>
      WithFd(ZERO_SQE.(opcode := RECVMSG, ioprio := ioprio, addr := msg, opFlags := flags, len := 1,
        bufIndex := bufGroup), fd)
    case TimeoutOp(timespec, count, flags) =>
      ZERO_SQE.(opcode := TIMEOUT, fd := -1, addr := timespec, len := count, opFlags := flags, off := 1)
    case AcceptOp(fd, addr, addrlen, flags, fileIndex) =>
      WithFd(ZERO_SQE.(opcode := ACCEPT, addr := addr, off := addrlen, opFlags := flags,
        spliceFdIn := if fileIndex.Some? then AsI32(fileIndex.value + 1) else 0), fd)
    case ConnectOp(fd, addr, sockLen) => WithFd(ZERO_SQE.(opcode := CONNECT, addr := addr, off := sockLen), fd)
    case CloseOp(fd) => WithFd(ZERO_SQE.(opcode := CLOSE), fd)
    case ReadOp(fd, buf, len, ioprio, offset, rwFlags, bufGroup) =>
      WithFd(ZERO_SQE.(opcode := READ, ioprio := ioprio, addr := buf, len := len, off := offset,
        opFlags := AsU32(rwFlags), bufIndex := bufGroup), fd)
    case WriteOp(fd, buf, len, ioprio, offset, rwFlags) =>
      WithFd(ZERO_SQE.(opcode := WRITE, ioprio := ioprio, addr := buf, len := len, off := offset,
        opFlags := AsU32(rwFlags)), fd)
    case UringCmd16Op(fd, cmdOp, bufIndex, cmd) =>
      WithFd(ZERO_SQE.(opcode := URING_CMD, off := cmdOp, addr3 := FromLe64(cmd[..8]), pad2 := FromLe64(cmd[8..]),
        bufIndex := if bufIndex.Some? then bufIndex.value else 0,
        opFlags := if bufIndex.Some? then URING_CMD_FIXED else 0), fd)
    case PipeOp(fds, flags, slot) =>
      ZERO_SQE.(opcode := PIPE, addr := fds, opFlags := flags,
        spliceFdIn := if slot.Some? then AsI32(slot.value) else 0)
  }

  /** `assign_fd!`. */
  method AssignFd(q: Sqe, t: Target) returns (sqe: Sqe)
    ensures sqe == WithFd(q, t)
    ensures match t
      case Fd(fd) => sqe == q.(fd := fd)
      case Fixed(index) => sqe == q.(fd := sqe.fd, flags := q.flags + 1 - q.flags % 2) && AsU32(sqe.fd) == index
  {
    OrOne(q.flags);
    sqe := q;
    match t
    case Fd(fd) => sqe := sqe.(fd := fd);
    case Fixed(index) =>
      sqe := sqe.(fd := AsI32(index));
      sqe := sqe.(flags := Or8(sqe.flags, FIXED_FILE));
  }

  /** `build` of a read or write, plain or vectored. */
  method BuildTransfer(op: Op) returns (sqe: Sqe)
    requires op.ReadOp? || op.WriteOp? || op.ReadvOp? || op.WritevOp?
    ensures sqe == Encode(op)
  {
    sqe := ZERO_SQE;
    sqe := sqe.(opcode := if op.ReadOp? then READ else if op.WriteOp? then WRITE else if op.ReadvOp? then READV else WRITEV);
    sqe := AssignFd(sqe, op.fd);
    sqe := sqe.(ioprio := op.ioprio);
    sqe := sqe.(addr := if op.ReadOp? || op.WriteOp? then op.buf else op.iovec);
    sqe := sqe.(len := op.len);
    sqe := sqe.(off := op.offset);
    sqe := sqe.(opFlags := AsU32(op.rwFlags));
    if op.ReadOp? || op.ReadvOp? { sqe := sqe.(bufIndex := op.bufGroup); }
  }

  /** `build` of the other operations; nothing when the file index overflows. */
  method Build(op: Op) returns (r: Option<Sqe>)
    ensures r.None? <==> IndexOverflows(op)
    ensures r.Some? ==> r.value == Encode(op)
  {
    if op.ReadOp? || op.WriteOp? || op.ReadvOp? || op.WritevOp? {
      var q := BuildTransfer(op);
      return Some(q);
    }
    var sqe := ZERO_SQE;
    match op {
      case NopOp(flags, result) =>
        sqe := sqe.(opcode := NOP);
        sqe := sqe.(fd := -1);
        sqe := sqe.(opFlags := flags);
        sqe := sqe.(len := result);
      case SendMsgCall(fd, msg, ioprio, flags) =>
        sqe := sqe.(opcode := SENDMSG);
        sqe := AssignFd(sqe, fd);
        sqe := sqe.(ioprio := ioprio);
        sqe := sqe.(addr := msg);
        sqe := sqe.(opFlags := flags);
        sqe := sqe.(len := 1);
      case RecvMsgCall(fd, msg, ioprio, flags, bufGroup) =>
        sqe := sqe.(opcode := RECVMSG);
        sqe := AssignFd(sqe, fd);
        sqe := sqe.(ioprio := ioprio);
        sqe := sqe.(addr := msg);
        sqe := sqe.(opFlags := flags);
        sqe := sqe.(len := 1);
        sqe := sqe.(bufIndex := bufGroup);
      case TimeoutOp(timespec, count, flags) =>
        sqe := sqe.(opcode := TIMEOUT);
        sqe := sqe.(fd := -1);
        sqe := sqe.(addr := timespec);
        sqe := sqe.(len := count);
        sqe := sqe.(opFlags := flags);
        sqe := sqe.(off := 1);
      case AcceptOp(fd, addr, addrlen, flags, fileIndex) =>
        sqe := sqe.(opcode := ACCEPT);
        sqe := AssignFd(sqe, fd);
        sqe := sqe.(addr := addr);
        sqe := sqe.(off := addrlen);
        sqe := sqe.(opFlags := flags);
        if fileIndex.Some? {
          if AsI32(fileIndex.value) == 0x7FFF_FFFF { return None; }
          sqe := sqe.(spliceFdIn := AsI32(fileIndex.value) + 1);
        }
      case ConnectOp(fd, addr, sockLen) =>
        sqe := sqe.(opcode := CONNECT);
        sqe := AssignFd(sqe, fd);
        sqe := sqe.(addr := addr);
        sqe := sqe.(off := sockLen);
      case CloseOp(fd) =>
        sqe := sqe.(opcode := CLOSE);
        sqe := AssignFd(sqe, fd);
      case UringCmd16Op(fd, cmdOp, bufIndex, cmd) =>
        sqe := sqe.(opcode := URING_CMD);
        sqe := AssignFd(sqe, fd);
        sqe := sqe.(off := cmdOp);
        sqe := sqe.(addr3 := FromLe64(cmd[..8]));
        sqe := sqe.(pad2 := FromLe64(cmd[8..]));
        if bufIndex.Some? {
          sqe := sqe.(bufIndex := bufIndex.value);
          sqe := sqe.(opFlags := Or32(sqe.opFlags, URING_CMD_FIXED));
        }
      case PipeOp(fds, flags, slot) =>
        sqe := sqe.(opcode := PIPE);
        sqe := sqe.(fd := 0);
        sqe := sqe.(addr := fds);
        sqe := sqe.(opFlags := flags);
        if slot.Some? { sqe := sqe.(spliceFdIn := AsI32(slot.value)); }
    }
    return Some(sqe);
  }

  /** Where each builder puts what it is given: opcode by number, and field by field. */
  lemma TransferFields(op: Op)
    requires op.ReadOp? || op.WriteOp? || op.ReadvOp? || op.WritevOp?
    ensures var q := Encode(op);
      && q.opcode == (if op.ReadvOp? then 1 else if op.WritevOp? then 2 else if op.ReadOp? then 22 else 23)
      && q.addr == (if op.ReadOp? || op.WriteOp? then op.buf else op.iovec) && q.len == op.len
      && q.ioprio == op.ioprio && q.off == op.offset && (q.opFlags - op.rwFlags) % TWO32 == 0
      && q.bufIndex == (if op.ReadOp? || op.ReadvOp? then op.bufGroup else 0)
      && q.userData == 0 && q.personality == 0
  {
    hide WithFd;
    CodeOfFd(op.fd);
  }

  lemma FieldsOf(op: Op)
    requires !(op.ReadOp? || op.WriteOp? || op.ReadvOp? || op.WritevOp?)
    ensures var q := Encode(op);
      q.userData == 0 && q.personality == 0 && match op
      case NopOp(flags, result) => q.opcode == 0 && q.fd == -1 && q.opFlags == flags && q.len == result
      case SendMsgCall(_, msg, ioprio, flags) =>
        q.opcode == 9 && q.addr == msg && q.len == 1 && q.ioprio == ioprio && q.opFlags == flags
      case RecvMsgCall(_, msg, ioprio, flags, bufGroup) =>
        && q.opcode == 10 && q.addr == msg && q.len == 1 && q.ioprio == ioprio && q.opFlags == flags
        && q.bufIndex == bufGroup
      case TimeoutOp(timespec, count, flags) =>
        q.opcode == 11 && q.fd == -1 && q.addr == timespec && q.len == count && q.off == 1 && q.opFlags == flags
      case AcceptOp(_, addr, addrlen, flags, fileIndex) =>
        && q.opcode == 13 && q.addr == addr && q.off == addrlen && q.opFlags == flags
        && (fileIndex.Some? ==> (fileIndex.value + 1 - q.spliceFdIn) % TWO32 == 0)
        && (fileIndex.None? ==> q.spliceFdIn == 0)
      case ConnectOp(_, addr, sockLen) => q.opcode == 16 && q.addr == addr && q.off == sockLen
      case CloseOp(_) => q.opcode == 19
      case UringCmd16Op(_, cmdOp, bufIndex, cmd) =>
        && q.opcode == 46 && q.off == cmdOp && q.addr3 == FromLe(cmd[..8]) && q.pad2 == FromLe(cmd[8..])
        && q.opFlags == (if bufIndex.Some? then 1 else 0) && (bufIndex.Some? ==> q.bufIndex == bufIndex.value)
      case PipeOp(fds, flags, slot) =>
        && q.opcode == 62 && q.fd == 0 && q.addr == fds && q.opFlags == flags
        && (slot.Some? ==> (slot.value - q.spliceFdIn) % TWO32 == 0) && (slot.None? ==> q.spliceFdIn == 0)
      case _ => false
  {
    hide WithFd, FromLe;
    if !op.NopOp? && !op.TimeoutOp? && !op.PipeOp? { CodeOfFd(op.fd); }
  }

  // ----- nothing the caller said is lost -----

  function TargetOf(q: Sqe): Target { if Has(q.flags, FIXED_FILE) then Fixed(AsU32(q.fd)) else Fd(q.fd) }

  /** Reading an operation back out of SQE fields, by opcode. */
  function Decode(q: Sqe): Option<Op> {
    var fd := TargetOf(q);
    if q.opcode == NOP then Some(NopOp(q.opFlags, q.len))
    else if q.opcode == READV then Some(ReadvOp(fd, q.addr, q.len, q.ioprio, q.off, AsI32(q.opFlags), q.bufIndex))
    else if q.opcode == WRITEV then Some(WritevOp(fd, q.addr, q.len, q.ioprio, q.off, AsI32(q.opFlags)))
    else if q.opcode == SENDMSG then Some(SendMsgCall(fd, q.addr, q.ioprio, q.opFlags))
    else if q.opcode == RECVMSG then Some(RecvMsgCall(fd, q.addr, q.ioprio, q.opFlags, q.bufIndex))
    else if q.opcode == TIMEOUT then Some(TimeoutOp(q.addr, q.len, q.opFlags))
    else if q.opcode == ACCEPT then
      Some(AcceptOp(fd, q.addr, q.off, q.opFlags,
        if q.spliceFdIn == 0 then None else Some(AsU32(q.spliceFdIn) - 1)))
    else if q.opcode == CONNECT && q.off < TWO32 then Some(ConnectOp(fd, q.addr, q.off))
    else if q.opcode == CLOSE then Some(CloseOp(fd))
    else if q.opcode == READ then Some(ReadOp(fd, q.addr, q.len, q.ioprio, q.off, AsI32(q.opFlags), q.bufIndex))
    else if q.opcode == WRITE then Some(WriteOp(fd, q.addr, q.len, q.ioprio, q.off, AsI32(q.opFlags)))
    else if q.opcode == URING_CMD && q.off < TWO32 then
      Some(UringCmd16Op(fd, q.off, if And(q.opFlags, URING_CMD_FIXED) != 0 then Some(q.bufIndex) else None,
        ToLe(q.addr3, 8) + ToLe(q.pad2, 8)))
    else if q.opcode == PIPE then
      Some(PipeOp(q.addr, q.opFlags, if q.spliceFdIn == 0 then None else Some(AsU32(q.spliceFdIn))))
    else None
  }

  /** The encoding loses nothing, with one exception: a request for file index 2^32 - 1 is
      encoded as no request at all. */
  lemma EncodeIsInjective(op: Op)
    ensures Decode(Encode(op)) == Some(op) <==> !(op.AcceptOp? && op.fileIndex == Some(0xFFFF_FFFF))
    ensures op.AcceptOp? && op.fileIndex == Some(0xFFFF_FFFF) ==> Encode(op) == Encode(op.(fileIndex := None))
  {
    hide FromLe64, ToLe, WithFd, TargetOf, And, Encode, Decode;
    if op.ReadOp? || op.WriteOp? || op.ReadvOp? || op.WritevOp? {
      TransferRoundTrip(op);
    } else if op.AcceptOp? {
      AcceptRoundTrip(op);
    } else if op.NopOp? || op.TimeoutOp? || op.PipeOp? || op.CloseOp? || op.ConnectOp? {
      PlainRoundTrip(op);
    } else {
      ControlRoundTrip(op);
    }
  }

  /** The descriptor, plain or fixed, comes back; the other fields are as they were. */
  lemma TargetRoundTrip(t: Target)
    ensures forall q: Sqe | q.flags == 0 :: TargetOf(WithFd(q, t)) == t
    ensures forall q: Sqe | q.flags == 0 ::
      WithFd(q, t) == q.(fd := WithFd(ZERO_SQE, t).fd, flags := WithFd(ZERO_SQE, t).flags)
  {
    hide And, Or8;
    FixedBit();
  }

  lemma TransferRoundTrip(op: Op)
    requires op.ReadOp? || op.WriteOp? || op.ReadvOp? || op.WritevOp?
    ensures Decode(Encode(op)) == Some(op)
  {
    hide FromLe64, ToLe, WithFd, TargetOf, And;
    TargetRoundTrip(op.fd);
  }

  lemma AcceptRoundTrip(op: Op)
    requires op.AcceptOp?
    ensures Decode(Encode(op)) == Some(op) <==> op.fileIndex != Some(0xFFFF_FFFF)
    ensures op.fileIndex == Some(0xFFFF_FFFF) ==> Encode(op) == Encode(op.(fileIndex := None))
  {
    hide FromLe64, ToLe, WithFd, TargetOf, And;
    TargetRoundTrip(op.fd);
  }

  lemma PlainRoundTrip(op: Op)
    requires op.NopOp? || op.TimeoutOp? || op.PipeOp? || op.CloseOp? || op.ConnectOp?
    ensures Decode(Encode(op)) == Some(op)
  {
    hide FromLe64, ToLe, WithFd, TargetOf, And;
    if op.CloseOp? || op.ConnectOp? { TargetRoundTrip(op.fd); }
  }

  lemma ControlRoundTrip(op: Op)
    requires op.SendMsgCall? || op.RecvMsgCall? || op.UringCmd16Op?
    ensures Decode(Encode(op)) == Some(op)
  {
    hide FromLe64, ToLe, WithFd, TargetOf, And;
    TargetRoundTrip(op.fd);
    if op.UringCmd16Op? {
      FixedBit();
      CommandRoundTrip(op.cmd);
    }
  }

  lemma FixedBit()
    ensures Or8(0, FIXED_FILE) == FIXED_FILE && Has(FIXED_FILE, FIXED_FILE) && !Has(0, FIXED_FILE)
    ensures And(URING_CMD_FIXED, URING_CMD_FIXED) != 0 && And(0, URING_CMD_FIXED) == 0
  {
  }

  lemma CommandRoundTrip(cmd: Bytes16)
    ensures ToLe(FromLe64(cmd[..8]), 8) + ToLe(FromLe64(cmd[8..]), 8) == cmd
  {
    LeInverse(cmd[..8]);
    LeInverse(cmd[8..]);
    assert cmd[..8] + cmd[8..] == cmd;
  }

  /** Every slot but the last two has a kernel number, distinct from the automatic one and
      surviving the cast through the i32 field. */
  lemma SlotsAreFaithful(target: u32, target': u32)
    ensures SlotFromTarget(target).Some? <==> target <= 0xFFFF_FFFD
    ensures SlotFromTarget(target).Some? ==>
      var slot := SlotFromTarget(target).value;
      slot == target + 1 && slot != AUTO_ALLOC && AsU32(AsI32(slot)) == slot && AsI32(slot) != 0
    ensures SlotFromTarget(target).Some? && SlotFromTarget(target) == SlotFromTarget(target') ==> target == target'
    ensures AsI32(AUTO_ALLOC) == -1
  {
  }

  // ----- what an operation means, without its encoding -----

  /** The addresses of `s`, all holding zero. */
  function Cleared(s: set<int>): Mem { map x | x in s :: 0 }

  function Vectors(m: Mem, iov: int, n: nat): seq<Iovec> { seq(n, i => ReadIovec(m, iov + 16 * i)) }

  /** The bytes the vectors cover, null and empty ones aside. */
  function Covered(vs: seq<Iovec>): set<int> {
    if vs == [] then {}
    else
      var n := |vs| - 1;
      Covered(vs[..n]) + (if Live(vs[n]) then Range(vs[n].base, vs[n].len) else {})
  }

  function Total(vs: seq<Iovec>): nat {
    if vs == [] then 0
    else
      var n := |vs| - 1;
      Total(vs[..n]) + if Live(vs[n]) then vs[n].len else 0
  }

  function Saturated(n: nat): u64 { if n < TWO64 then n else TWO64 - 1 }

  /** A byte count as a CQE reports it. */
  function Reported(n: nat): i32 { AsI32(Saturated(n)) }

  datatype MsgHdr = MsgHdr(name: u64, nameLen: u32, vectors: seq<Iovec>, iovecs: set<int>, control: u64, controlLen: u64)

  function HeaderAt(m: Mem, h: int): MsgHdr {
    var iov, n := ReadU64(m, h + 16), ReadU64(m, h + 24);
    MsgHdr(ReadU64(m, h), ReadU32(m, h + 8),
      if iov == 0 then [] else Vectors(m, iov, n), if iov == 0 then {} else Range(iov, 16 * n),
      ReadU64(m, h + 32), ReadU64(m, h + 40))
  }

  /** The data a message carries: name, control and vectors. */
  function MessageData(h: MsgHdr): set<int> {
    ReadField(h.name, h.nameLen) + ReadField(h.control, h.controlLen) + Covered(h.vectors)
  }

  /** The direct meaning of an operation in memory m. */
  function Meaning(op: Op, m: Mem): Effect {
    match op
    case NopOp(flags, result) => Pure(if And(flags, NOP_INJECT_RESULT) != 0 then AsI32(result) else 0)
    case ReadvOp(_, iovec, n, _, _, _, _) =>
      if iovec == 0 then Pure(0)
      else
        var vs := Vectors(m, iovec, n);
        Effect(Range(iovec, 16 * n), Cleared(Covered(vs)), Reported(Total(vs)))
    case WritevOp(_, iovec, n, _, _, _) =>
      if iovec == 0 then Pure(0)
      else Effect(Range(iovec, 16 * n), map[], Reported(Total(Vectors(m, iovec, n))))
    case SendMsgCall(_, msg, _, _) =>
      if msg == 0 then Pure(EFAULT)
      else
        var h := HeaderAt(m, msg);
        Effect(Range(msg, MSGHDR_SIZE) + h.iovecs, map[], Reported(Total(h.vectors)))
    case RecvMsgCall(_, msg, _, _, _) =>
      if msg == 0 then Pure(EFAULT)
      else
        var h := HeaderAt(m, msg);
        Effect(Range(msg, MSGHDR_SIZE) + h.iovecs, Cleared(MessageData(h)), Reported(Total(h.vectors)))
    case TimeoutOp(timespec, _, _) => Pure(if timespec == 0 then EFAULT else ETIME)
    case AcceptOp(_, addr, addrlen, _, _) =>
      if addr == 0 || addrlen == 0 then Pure(FAKE_FD)
      else
        Effect(Range(addrlen, 4), Cleared(Range(addr, ReadU32(m, addrlen)) + Range(addrlen, 4)), FAKE_FD)
    case ConnectOp(_, addr, sockLen) => Pure(if addr == 0 || sockLen == 0 then EFAULT else 0)
    case CloseOp(_) => Pure(0)
    case ReadOp(_, buf, n, _, _, _, _) =>
      if buf == 0 then Pure(0) else Effect({}, Cleared(Range(buf, n)), Reported(n))
    case WriteOp(_, buf, n, _, _, _) => Pure(if buf == 0 then 0 else Reported(n))
    case UringCmd16Op(_, _, _, _) => Pure(0)
    case PipeOp(fds, _, _) => if fds == 0 then Pure(EFAULT) else Effect({}, Store(fds, PIPE_FDS), 0)
  }

  /** The data an operation only looks at. */
  function Looks(op: Op, m: Mem): set<int> {
    match op
    case WriteOp(_, buf, n, _, _, _) => if buf == 0 then {} else Range(buf, n)
    case WritevOp(_, iovec, n, _, _, _) => if iovec == 0 then {} else Covered(Vectors(m, iovec, n))
    case SendMsgCall(_, msg, _, _) => if msg == 0 then {} else MessageData(HeaderAt(m, msg))
    case ConnectOp(_, addr, sockLen) => if addr == 0 then {} else Range(addr, sockLen)
    case TimeoutOp(timespec, _, _) => if timespec == 0 then {} else Range(timespec, 16)
    case _ => {}
  }

  /** What a receiving operation writes is none of the descriptors it reads, as the source's
      references to them require. */
  ghost predicate Exclusive(op: Op, m: Mem) {
    match op
    case ReadvOp(_, _, _, _, _, _, _) => Meaning(op, m).writes.Keys !! Meaning(op, m).deps
    case RecvMsgCall(_, _, _, _, _) => Meaning(op, m).writes.Keys !! Meaning(op, m).deps
    case _ => true
  }

  // ----- agreement -----

  lemma Saturates(a: nat, b: u64)
    ensures Saturated(a + b) == SaturatingAdd(Saturated(a), b)
  {
  }

  lemma ClearedUnion(s: set<int>, t: set<int>)
    ensures Cleared(s + t) == Cleared(s) + Cleared(t)
  {
  }

  lemma ClearedRange(a: int, n: nat)
    ensures Cleared(Range(a, n)) == Zeros(a, n) && Range(a, 0) == {} && Zeros(a, 0) == map[]
  {
  }

  lemma VectorsSnoc(m: Mem, iov: int, n: nat)
    requires n > 0
    ensures var vs, v := Vectors(m, iov, n), ReadIovec(m, iov + 16 * (n - 1));
      && Covered(vs) == Covered(Vectors(m, iov, n - 1)) + (if Live(v) then Range(v.base, v.len) else {})
      && Total(vs) == Total(Vectors(m, iov, n - 1)) + (if Live(v) then v.len else 0)
  {
    hide ReadIovec, Range;
    var vs := Vectors(m, iov, n);
    assert vs[..n - 1] == Vectors(m, iov, n - 1);
  }

  lemma {:induction false} GatherIsTotal(m: Mem, iov: int, n: nat)
    ensures Gather(m, iov, n) == (Covered(Vectors(m, iov, n)), Saturated(Total(Vectors(m, iov, n))))
  {
    hide ReadIovec, Range, Vectors, Saturated, SaturatingAdd;
    if n > 0 {
      GatherIsTotal(m, iov, n - 1);
      VectorsSnoc(m, iov, n);
      var v := ReadIovec(m, iov + 16 * (n - 1));
      Saturates(Total(Vectors(m, iov, n - 1)), v.len);
      assert Gather(m, iov, n) == GatherOne(Gather(m, iov, n - 1), v);
      assert Covered(Vectors(m, iov, n - 1)) + {} == Covered(Vectors(m, iov, n - 1));
    } else {
      NoVectors(m, iov);
    }
  }

  lemma NoVectors(m: Mem, iov: int)
    ensures Vectors(m, iov, 0) == [] && Covered([]) == {} && Total([]) == 0 && Saturated(0) == 0 && Cleared({}) == map[]
  {
  }

  /** Scattering in place is clearing what the vectors, all read beforehand, cover. */
  lemma {:induction false} ScatterIsTotal(m: Mem, iov: int, k: nat, n: nat)
    requires k <= n && Covered(Vectors(m, iov, k)) !! Range(iov, 16 * n)
    ensures Scatter(m, iov, k) == (Cleared(Covered(Vectors(m, iov, k))), Saturated(Total(Vectors(m, iov, k))))
  {
    hide ReadIovec, Range, Vectors, Saturated, SaturatingAdd, Cleared, Zeros, Get;
    if k > 0 {
      VectorsSnoc(m, iov, k);
      ScatterIsTotal(m, iov, k - 1, n);
      var done := Scatter(m, iov, k - 1);
      var v := ReadIovec(m, iov + 16 * (k - 1));
      assert ReadIovec(m + done.0, iov + 16 * (k - 1)) == v by {
        UntouchedAgrees(m, done.0, Covered(Vectors(m, iov, k - 1)), Range(iov, 16 * n));
        IovecAgrees(m, m + done.0, iov, k - 1, n);
      }
      Saturates(Total(Vectors(m, iov, k - 1)), v.len);
      assert Scatter(m, iov, k) == ScatterOne(done, v);
      ClearedUnion(Covered(Vectors(m, iov, k - 1)), Range(v.base, v.len));
      ClearedRange(v.base, v.len);
      assert Covered(Vectors(m, iov, k - 1)) + {} == Covered(Vectors(m, iov, k - 1));
    } else {
      NoVectors(m, iov);
    }
  }

  lemma UntouchedAgrees(m: Mem, w: Mem, written: set<int>, s: set<int>)
    requires w == Cleared(written) && written !! s
    ensures Agree(m, m + w, s)
  {
  }

  lemma {:induction false} CoveredTake(vs: seq<Iovec>, k: nat)
    requires k <= |vs|
    ensures Covered(vs[..k]) <= Covered(vs)
    decreases |vs|
  {
    if k < |vs| {
      CoveredTake(vs[..|vs| - 1], k);
      assert vs[..|vs| - 1][..k] == vs[..k];
    } else {
      assert vs[..k] == vs;
    }
  }

  lemma SendMsgMeaning(msg: u64, m: Mem)
    requires msg != 0
    ensures var h := HeaderAt(m, msg);
      && SendMsg(msg, m) == Effect(Range(msg, MSGHDR_SIZE) + h.iovecs, map[], Reported(Total(h.vectors)))
      && SendMsgData(msg, m) == MessageData(h)
  {
    hide ReadU64, ReadU32, Gather, Vectors, ReadField, Saturated;
    var iov: int, n: nat := ReadU64(m, msg + 16), ReadU64(m, msg + 24);
    NoVectors(m, iov);
    ClearedRange(iov, 0);
    if iov != 0 { GatherIsTotal(m, iov, n); }
    assert AsI32(0) == 0;
    assert Range(msg, MSGHDR_SIZE) + {} == Range(msg, MSGHDR_SIZE);
  }

  lemma ClearedField(p: u64, n: u64)
    ensures ZeroField(p, n) == Cleared(ReadField(p, n))
  {
    ClearedRange(p, n);
  }

  /** A descriptor that is not written reads the same afterwards. */
  lemma HeaderStays(m: Mem, written: set<int>, msg: int)
    requires written !! Range(msg, MSGHDR_SIZE)
    ensures var m' := m + Cleared(written);
      && ReadU64(m', msg) == ReadU64(m, msg) && ReadU32(m', msg + 8) == ReadU32(m, msg + 8)
      && ReadU64(m', msg + 16) == ReadU64(m, msg + 16) && ReadU64(m', msg + 24) == ReadU64(m, msg + 24)
      && ReadU64(m', msg + 32) == ReadU64(m, msg + 32) && ReadU64(m', msg + 40) == ReadU64(m, msg + 40)
  {
    hide ReadU64, ReadU32, Range;
    UntouchedAgrees(m, Cleared(written), written, Range(msg, MSGHDR_SIZE));
    HeaderAgrees(m, m + Cleared(written), msg);
  }

  lemma VectorsStay(m: Mem, written: set<int>, iov: int, n: nat)
    requires written !! Range(iov, 16 * n)
    ensures Vectors(m + Cleared(written), iov, n) == Vectors(m, iov, n)
  {
    hide ReadIovec, Range;
    UntouchedAgrees(m, Cleared(written), written, Range(iov, 16 * n));
    forall i | 0 <= i < n
      ensures ReadIovec(m + Cleared(written), iov + 16 * i) == ReadIovec(m, iov + 16 * i)
    {
      IovecAgrees(m, m + Cleared(written), iov, i, n);
    }
  }

  lemma RecvMsgMeaning(msg: u64, m: Mem)
    requires msg != 0
    requires var h := HeaderAt(m, msg); MessageData(h) !! Range(msg, MSGHDR_SIZE) + h.iovecs
    ensures var h := HeaderAt(m, msg);
      RecvMsg(msg, m) == Effect(Range(msg, MSGHDR_SIZE) + h.iovecs, Cleared(MessageData(h)), Reported(Total(h.vectors)))
  {
    hide ReadU64, ReadU32, Scatter, Vectors, ReadField, ZeroField, Saturated, Cleared, Range, Zeros;
    var h := HeaderAt(m, msg);
    var name, control := ReadField(h.name, h.nameLen), ReadField(h.control, h.controlLen);
    ClearedField(h.name, h.nameLen);
    ClearedField(h.control, h.controlLen);
    HeaderStays(m, name, msg);
    ClearedUnion(name, control);
    HeaderStays(m, name + control, msg);
    var iov: int, n: nat := ReadU64(m, msg + 16), ReadU64(m, msg + 24);
    NoVectors(m, iov);
    NoVectors(m + Cleared(name + control), iov);
    ClearedRange(iov, 0);
    ClearedUnion(name + control, Covered(h.vectors));
    assert AsI32(0) == 0 && name + control + {} == name + control;
    assert Range(msg, MSGHDR_SIZE) + {} == Range(msg, MSGHDR_SIZE);
    if iov != 0 && n > 0 {
      VectorsStay(m, name + control, iov, n);
      ScatterIsTotal(m + Cleared(name + control), iov, n, n);
    }
  }

  lemma ReadvMeaning(iov: u64, n: u32, m: Mem)
    requires iov != 0 && Covered(Vectors(m, iov, n)) !! Range(iov, 16 * n)
    ensures var vs := Vectors(m, iov, n);
      && Scatter(m, iov, n) == (Cleared(Covered(vs)), Saturated(Total(vs)))
      && (n == 0 ==> Range(iov, 16 * n) == {} && Cleared(Covered(vs)) == map[] && Reported(Total(vs)) == 0)
  {
    hide ReadIovec, Range, Vectors, Saturated;
    ScatterIsTotal(m, iov, n, n);
    NoVectors(m, iov);
    ClearedRange(iov, 0);
    assert AsI32(0) == 0;
  }

  lemma WritevMeaning(iov: u64, n: u32, m: Mem)
    ensures var vs := Vectors(m, iov, n);
      && Gather(m, iov, n) == (Covered(vs), Saturated(Total(vs)))
      && (n == 0 ==> Range(iov, 16 * n) == {} && Covered(vs) == {} && Reported(Total(vs)) == 0)
  {
    hide ReadIovec, Range, Vectors, Saturated;
    GatherIsTotal(m, iov, n);
    NoVectors(m, iov);
    ClearedRange(iov, 0);
    assert AsI32(0) == 0;
  }

  lemma ClearedKeys(s: set<int>)
    ensures Cleared(s).Keys == s
  {
  }

  lemma WordReported(n: u32)
    ensures Reported(n) == AsI32(n) && Reported(0) == 0
  {
  }

  /** What `Entry::flags` and `Entry::user_data` add to a built entry. */
  function Tagged(q: Sqe, flags: u8, userData: u64): Sqe { q.(flags := Or8(q.flags, flags), userData := userData) }

  /** The tags of an entry do not change what it does. */
  lemma TagsDoNotMatter(q: Sqe, flags: u8, userData: u64, m: Mem)
    ensures Dispatch(Tagged(q, flags, userData), m) == Dispatch(q, m)
    ensures DataRead(Tagged(q, flags, userData), m) == DataRead(q, m)
  {
    hide Scatter, Gather, RecvMsg, SendMsg, SendMsgData, Range, Zeros, ReadU32, Or8, CStr, And, HandlerOf;
  }

  lemma VectoredMeaning(op: Op, q: Sqe, m: Mem)
    requires op.ReadvOp? || op.WritevOp?
    requires q.opcode == (if op.ReadvOp? then READV else WRITEV) && q.addr == op.iovec && q.len == op.len
    requires Exclusive(op, m)
    ensures Dispatch(q, m) == Meaning(op, m) && DataRead(q, m) == Looks(op, m)
  {
    hide Scatter, Gather, Vectors, Cleared, Range, Saturated, Covered, Total;
    if op.iovec != 0 {
      if op.ReadvOp? {
        ClearedKeys(Covered(Vectors(m, op.iovec, op.len)));
        ReadvMeaning(op.iovec, op.len, m);
      } else {
        WritevMeaning(op.iovec, op.len, m);
      }
    }
  }

  lemma MessageMeaning(op: Op, q: Sqe, m: Mem)
    requires op.SendMsgCall? || op.RecvMsgCall?
    requires q.opcode == (if op.SendMsgCall? then SENDMSG else RECVMSG) && q.addr == op.msg
    requires Exclusive(op, m)
    ensures Dispatch(q, m) == Meaning(op, m) && DataRead(q, m) == Looks(op, m)
  {
    hide RecvMsg, SendMsg, SendMsgData, HeaderAt, MessageData, Cleared, Range, Saturated, Total;
    if op.msg == 0 {
      NullMessage(m);
    } else if op.RecvMsgCall? {
      ClearedKeys(MessageData(HeaderAt(m, op.msg)));
      RecvMsgMeaning(op.msg, m);
    } else {
      SendMsgMeaning(op.msg, m);
    }
  }

  lemma NullMessage(m: Mem)
    ensures SendMsg(0, m) == Pure(EFAULT) == RecvMsg(0, m) && SendMsgData(0, m) == {}
  {
  }

  lemma BufferMeaning(op: Op, q: Sqe, m: Mem)
    requires op.ReadOp? || op.WriteOp?
    requires q.opcode == (if op.ReadOp? then READ else WRITE) && q.addr == op.buf && q.len == op.len
    ensures Dispatch(q, m) == Meaning(op, m) && DataRead(q, m) == Looks(op, m)
  {
    hide Cleared, Range, Zeros, Saturated, AsI32;
    WordReported(op.len);
    ClearedRange(op.buf, op.len);
    ClearedRange(op.buf, 0);
  }

  lemma SocketMeaning(op: Op, q: Sqe, m: Mem)
    requires op.AcceptOp? || op.ConnectOp?
    requires q.opcode == (if op.AcceptOp? then ACCEPT else CONNECT) && q.addr == op.addr
    requires q.off == if op.AcceptOp? then op.addrlen else op.sockLen
    ensures Dispatch(q, m) == Meaning(op, m) && DataRead(q, m) == Looks(op, m)
  {
    hide Cleared, Range, Zeros, ReadU32;
    ClearedRange(op.addr, 0);
    if op.AcceptOp? {
      ClearedRange(op.addr, ReadU32(m, op.addrlen));
      ClearedRange(op.addrlen, 4);
      ClearedUnion(Range(op.addr, ReadU32(m, op.addrlen)), Range(op.addrlen, 4));
    }
  }

  lemma OtherMeaning(op: Op, q: Sqe, m: Mem)
    requires op.NopOp? || op.TimeoutOp? || op.CloseOp? || op.UringCmd16Op? || op.PipeOp?
    requires q.opcode == match op
      case NopOp(_, _) => NOP
      case TimeoutOp(_, _, _) => TIMEOUT
      case CloseOp(_) => CLOSE
      case UringCmd16Op(_, _, _, _) => URING_CMD
      case _ => PIPE
    requires op.NopOp? ==> q.opFlags == op.nopFlags && q.len == op.nopResult
    requires op.TimeoutOp? ==> q.addr == op.timespec
    requires op.PipeOp? ==> q.addr == op.fds
    ensures Dispatch(q, m) == Meaning(op, m) && DataRead(q, m) == Looks(op, m)
  {
    hide Range, Store, And, AsI32;
  }

  lemma CodeOfFd(t: Target)
    ensures forall q: Sqe :: WithFd(q, t) == q.(fd := WithFd(q, t).fd, flags := WithFd(q, t).flags)
  {
  }

  /** Dispatching the entry built for an operation, whatever flags and user data it is
      submitted with, does what the operation means: the same result, the same bytes
      written, the same descriptors read and the same data looked at. */
  lemma BuildersAgreeWithDispatch(op: Op, flags: u8, userData: u64, m: Mem)
    requires Exclusive(op, m)
    ensures Dispatch(Tagged(Encode(op), flags, userData), m) == Meaning(op, m)
    ensures DataRead(Tagged(Encode(op), flags, userData), m) == Looks(op, m)
  {
    hide Dispatch, DataRead, Meaning, Looks, Exclusive, WithFd, FromLe64, Tagged;
    TagsDoNotMatter(Encode(op), flags, userData, m);
    if op.ReadvOp? || op.WritevOp? {
      CodeOfFd(op.fd);
      VectoredMeaning(op, Encode(op), m);
    } else if op.SendMsgCall? || op.RecvMsgCall? {
      CodeOfFd(op.fd);
      MessageMeaning(op, Encode(op), m);
    } else if op.ReadOp? || op.WriteOp? {
      CodeOfFd(op.fd);
      BufferMeaning(op, Encode(op), m);
    } else if op.AcceptOp? || op.ConnectOp? {
      CodeOfFd(op.fd);
      SocketMeaning(op, Encode(op), m);
    } else {
      if op.CloseOp? || op.UringCmd16Op? { CodeOfFd(op.fd); }
      OtherMeaning(op, Encode(op), m);
    }
  }

  /** A completion reports the byte count of a transfer exactly below 2^31; from there on
      it reports something else, and up to 2^32 something negative, which severs a chain. */
  lemma CountsAreReported(n: nat)
    ensures Reported(n) == n <==> n < 0x8000_0000
    ensures n < TWO32 ==> (Reported(n) < 0 <==> n >= 0x8000_0000)
  {
    if n < TWO32 { CastKeepsCount(n); }
  }

  /** `inject_result` makes a NOP complete with any i32 asked for, whatever its tags. */
  lemma InjectedResultReturns(r: i32, flags: u8, userData: u64, m: Mem)
    ensures Dispatch(Tagged(Encode(NopOp(NOP_INJECT_RESULT, AsU32(r))), flags, userData), m) == Pure(r)
  {
    BuildersAgreeWithDispatch(NopOp(NOP_INJECT_RESULT, AsU32(r)), flags, userData, m);
    assert And(NOP_INJECT_RESULT, NOP_INJECT_RESULT) == 1;
    CastRoundTrip(r);
  }
}
