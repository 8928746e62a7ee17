/** What each critical section of the log writer does to its state, as functions on values. */
module WalLog {
  import opened Bytes
  import opened WalFormat
  import opened WalRecovery
  import opened CheckpointIndex

  /** A record in the file whose checkpoint waits for the fsync that covers it. `ticket` is its sequence number. */
  datatype Pending = Pending(ticket: nat, off: nat, pos: nat)

  /** `durable` is how many bytes of the file the last fsync guarantees; `failed` is the sticky fsync error. */
  datatype Wal = Wal(
    bytes: seq<byte>,
    durable: nat,
    size: nat,
    nextOffset: nat,
    writeSeq: nat,
    syncedSeq: nat,
    syncing: bool,
    failed: bool,
    pending: seq<Pending>,
    store: Store)

  // ---------- Reserve ----------

  datatype Reservation = TooLarge | WriteFailed | Reserved(offset: nat, ticket: nat)

  function Appended(w: Wal, rec: seq<byte>): Wal {
    w.(bytes := w.bytes + rec,
       nextOffset := w.nextOffset + 1,
       size := w.size + |rec|,
       writeSeq := w.writeSeq + 1,
       pending := w.pending + [Pending(w.writeSeq + 1, w.nextOffset, w.size)])
  }

  /** Append the record to the page cache and hand out the next offset and ticket. A file cannot grow past the
      largest file position, where the write fails. */
  function Reserve(c: Checksum, w: Wal, data: seq<byte>): (Wal, Reservation) {
    if |data| > MAX_RECORD then (w, TooLarge)
    else if |w.bytes| + |Record(c, data)| >= TWO_63 then (w, WriteFailed)
    else (Appended(w, Record(c, data)), Reserved(w.nextOffset, w.writeSeq + 1))
  }

  // ---------- group commit ----------

  datatype Turn = Return(ok: bool) | Wait | Lead(target: nat)

  /** One turn of the commit loop, up to the fsync. */
  function CommitTurn(w: Wal, ticket: nat): (Wal, Turn) {
    if w.failed then (w, Return(false))
    else if w.syncedSeq >= ticket then (w, Return(true))
    else if w.syncing then (w, Wait)
    else (w.(syncing := true), Lead(w.writeSeq))
  }

  /** How many of the waiting checkpoints the fsync covers. */
  function Covered(pending: seq<Pending>, target: nat): (k: nat)
    ensures k <= |pending|
  {
    if pending == [] || pending[0].ticket > target then 0 else 1 + Covered(pending[1..], target)
  }

  /** Note the first `k` waiting checkpoints, in order. */
  function NoteAll(nth: nat, s: Store, pending: seq<Pending>, k: nat): Store
    requires k <= |pending|
  {
    if k == 0 then s
    else var p := pending[k - 1]; Note(nth, NoteAll(nth, s, pending, k - 1), p.off, p.pos)
  }

  /** After the fsync of a leader that saw `target` tickets and `flushed` bytes. */
  function SyncDone(nth: nat, w: Wal, target: nat, flushed: nat, ok: bool): Wal {
    if !ok then w.(syncing := false, failed := true)
    else
      var k := Covered(w.pending, target);
      w.(syncing := false,
         durable := if flushed > w.durable then flushed else w.durable,
         syncedSeq := if target > w.syncedSeq then target else w.syncedSeq,
         store := NoteAll(nth, w.store, w.pending, k),
         pending := w.pending[k..])
  }

  /** Close: a final fsync and the remaining checkpoints, unless an fsync has failed before. */
  function Close(nth: nat, w: Wal): Wal {
    if w.writeSeq > w.syncedSeq && !w.failed then
      w.(durable := |w.bytes|,
         store := NoteAll(nth, w.store, w.pending, |w.pending|),
         pending := [],
         syncedSeq := w.writeSeq)
    else w
  }

  // ---------- recovery ----------

  /** Signed 64-bit addition wraps around. */
  function Sum64(a: Int64, b: nat): int {
    if a + b < TWO_63 then a + b else a + b - TWO_64
  }

  /** The last checkpoint is trusted only if a record header fits behind it. */
  predicate Trusted(c: Checksum, bytes: seq<byte>, e: Checkpoint) {
    Sum64(e.pos, HeaderSize(c)) <= |bytes|
  }

  datatype Opening = Opened(wal: Wal) | OpenFailed

  /** Where the tail scan starts: record `off` at byte `pos`. */
  function ScanStart(c: Checksum, bytes: seq<byte>, es: seq<Checkpoint>): (nat, int) {
    var last := Floor(es, TWO_64 - 1);
    if last.Some? && Trusted(c, bytes, last.value) then (last.value.off, last.value.pos) else (0, 0)
  }

  /** Scan the tail and cut off a torn last record. */
  function OpenFrom(c: Checksum, bytes: seq<byte>, durable: nat, es: seq<Checkpoint>, off: nat, pos: int): Opening {
    if pos < 0 || pos > |bytes| then OpenFailed
    else
      match Scan(HeaderSize(c), bytes, pos, off)
      case Corrupt(_) => OpenFailed
      case Head(count, size) =>
        Opened(Wal(bytes[..size], if durable < size then durable else size, size, count,
                   0, 0, false, false, [], Store(es, 0)))
  }

  /** Open a file and its index, whatever they hold. */
  function Open(c: Checksum, bytes: seq<byte>, durable: nat, index: seq<byte>): Opening {
    var (off, pos) := ScanStart(c, bytes, Load(index));
    OpenFrom(c, bytes, durable, Load(index), off, pos)
  }
}
