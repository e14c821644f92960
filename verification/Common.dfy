/** What several parts of the kernel share: bytes, optional values, and the sizes of kernel/param.h
    that tie file-system operations to the log. */
module Common {
  type byte = b: int | 0 <= b < 256

  datatype Option<T> = None | Some(value: T)

  const MAXOPBLOCKS: nat := 10           // blocks one operation may log
  const LOGSIZE: nat := MAXOPBLOCKS * 3  // blocks one group commit may hold
}
