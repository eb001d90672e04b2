/** Types shared by every component. */
module Base {
  datatype Option<+T> = None | Some(value: T)

  /** C++ strings and files are sequences of bytes. */
  newtype Byte = x: int | 0 <= x < 0x100
  type Bytes = seq<Byte>

  const TWO64: nat := 0x1_0000_0000_0000_0000

  /** `uint64_t` */
  type U64 = x: nat | x < TWO64

  /** Identity of a thread. */
  type Tid = nat

  /** An actor's key, the unit of storage. */
  datatype Slot = Slot(actor: Bytes, key: Bytes)

  /** One logged write (`WriteBehindWorker::DirtyRecord`). */
  datatype Record = Record(slot: Slot, value: Bytes)
}
