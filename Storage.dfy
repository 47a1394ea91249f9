/**
 * Browser storage as the stores see it. Each store keeps its whole collection in one
 * slot that every operation reads back and overwrites. What the environment does with
 * a call is an input: `readOk` is false when there is no window, `getItem` throws or
 * the stored JSON does not parse (the read then yields the empty collection); `writeOk`
 * is false when there is no window or `setItem` throws (the write is then skipped and
 * the error swallowed).
 */
module Storage {
  datatype Io = Io(readOk: bool, writeOk: bool)

  /** What a read of `slot` yields: the stored value, or `empty` when the read fails. */
  function Read<T>(slot: T, readOk: bool, empty: T): (r: T)
    ensures readOk ==> r == slot
    ensures !readOk ==> r == empty
  {
    if readOk then slot else empty
  }
}
