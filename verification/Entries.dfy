/** The entries of the two rings, and the constants of the io_uring interface the model uses. */
module Entries {
  import opened Words

  datatype Option<T> = None | Some(value: T)

  /** A submission queue entry; union fields carry the name of their common use. */
  datatype Sqe = Sqe(
    opcode: u8, flags: u8, ioprio: u16, fd: i32, off: u64, addr: u64, len: u32,
    opFlags: u32, userData: u64, bufIndex: u16, personality: u16, spliceFdIn: i32,
    addr3: u64, pad2: u64)

  const ZERO_SQE := Sqe(0, 0, 0, 0, 0, 0, 0, 0, 0, 0, 0, 0, 0, 0)

  /** A completion queue entry. */
  datatype Cqe = Cqe(userData: u64, res: i32, flags: u32)

  const ZERO_CQE := Cqe(0, 0, 0)

  /** What a background thread records for one SQE. */
  datatype CompletionData = CompletionData(userData: u64, result: i32, skipSuccess: bool)

  // SQE flags
  const FIXED_FILE: u8 := 1
  const IO_LINK: u8 := 4
  const IO_HARDLINK: u8 := 8
  const SKIP_SUCCESS: u8 := 64

  // SQ ring flags
  const SQ_CQ_OVERFLOW: u32 := 2

  // Results
  const ECANCELED: i32 := -125
  const EFAULT: i32 := -14
  const ETIME: i32 := -62
  const ENOSYS: i32 := -38
  const FAKE_FD: i32 := 42

  const NOP_INJECT_RESULT: u32 := 1

  predicate Has(flags: u8, bit: u8) { And(flags, bit) != 0 }

  /** The entry asks to be linked to the next one, softly or hard. */
  predicate LinksToNext(q: Sqe) { Has(q.flags, IO_LINK) || Has(q.flags, IO_HARDLINK) }

  /** A failure of this entry severs its chain: it links, and not with a hard link. An
      entry that carries both link bits counts as hard. */
  predicate SoftLink(q: Sqe) { Has(q.flags, IO_LINK) && !Has(q.flags, IO_HARDLINK) }

  /** A success that asked not to be reported. */
  predicate Suppressed(cd: CompletionData) { cd.skipSuccess && cd.result >= 0 }
}
