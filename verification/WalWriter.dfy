/** The log writer and reader as objects. A call of Commit is split where the source releases its lock around
    the fsync: TakeTurn up to it, FinishSync after it. */
module WalWriter {
  import opened Bytes
  import opened WalFormat
  import opened WalRecovery
  import opened CheckpointIndex
  import opened WalReading
  import opened WalLog
  import opened WalFiles

  lemma {:induction false} CoveredFrom(pending: seq<Pending>, k: nat, target: nat)
    requires k <= |pending|
    requires forall i :: 0 <= i < k ==> pending[i].ticket <= target
    ensures Covered(pending, target) == k + Covered(pending[k..], target)
  {
    if k > 0 {
      CoveredFrom(pending[1..], k - 1, target);
      assert pending[1..][k - 1..] == pending[k..];
    } else {
      assert pending[0..] == pending;
    }
  }

  class WALWriter {
    const file: File
    const csum: Checksum
    const store: InMemoryStore
    var size: nat
    var nextOffset: nat
    var writeSeq: nat
    var syncedSeq: nat
    var syncing: bool
    var syncErr: bool
    var pending: seq<Pending>

    ghost predicate Valid()
      reads this, store, store.indexFile
    {
      store.Valid() && file != store.indexFile
    }

    ghost function Value(): Wal
      reads this, file, store, store.indexFile
      requires Valid()
    {
      Wal(file.bytes, file.durable, size, nextOffset, writeSeq, syncedSeq, syncing, syncErr, pending, store.Value())
    }

    constructor (file: File, store: InMemoryStore, csum: Checksum)
      ensures this.file == file && this.store == store && this.csum == csum
      ensures size == nextOffset == writeSeq == syncedSeq == 0 && !syncing && !syncErr && pending == []
    {
      this.file, this.store, this.csum := file, store, csum;
      size, nextOffset, writeSeq, syncedSeq := 0, 0, 0, 0;
      syncing, syncErr, pending := false, false, [];
    }

    method Reserve(data: seq<byte>) returns (r: Reservation)
      requires Valid()
      modifies this, file
      ensures Valid() && (Value(), r) == WalLog.Reserve(csum, old(Value()), data)
    {
      if |data| > MAX_RECORD {
        return TooLarge;
      }
      var pos := size;
      var lenBuf := PutU32(|data|);
      var sum := csum.compute(lenBuf + data);
      var buf := lenBuf + sum + data;
      var ok := file.Write(buf);
      if !ok {
        return WriteFailed;
      }
      var offset := nextOffset;
      nextOffset := nextOffset + 1;
      size := size + |buf|;
      writeSeq := writeSeq + 1;
      pending := pending + [Pending(writeSeq, offset, pos)];
      return Reserved(offset, writeSeq);
    }

    /** The commit loop from its head to the point where it returns, waits, or starts the fsync. */
    method TakeTurn(ticket: nat) returns (turn: Turn)
      requires Valid()
      modifies this
      ensures Valid() && (Value(), turn) == CommitTurn(old(Value()), ticket)
    {
      if syncErr {
        return Return(false);
      }
      if syncedSeq >= ticket {
        return Return(true);
      }
      if syncing {
        return Wait;
      }
      syncing := true;
      return Lead(writeSeq);
    }

    /** From the return of an fsync, begun when the file had `flushed` bytes, to the next turn of the loop. */
    method FinishSync(target: nat, flushed: nat, ok: bool)
      requires Valid()
      modifies this, file, store, store.indexFile
      ensures Valid() && Value() == SyncDone(store.nthIndex, old(Value()), target, flushed, ok)
    {
      syncing := false;
      if !ok {
        syncErr := true;
        return;
      }
      file.durable := if flushed > file.durable then flushed else file.durable;
      if target > syncedSeq {
        syncedSeq := target;
      }
      var drain := Drain(target);
      pending := pending[drain..];
    }

    /** Note the `i`-th waiting checkpoint; a failure to write it is ignored. */
    method NoteNext(i: nat)
      requires Valid() && i < |pending|
      modifies store, store.indexFile
      ensures Valid()
      ensures store.Value() == Note(store.nthIndex, old(store.Value()), pending[i].off, pending[i].pos)
    {
      var mark := Mark(pending[i].off, pending[i].pos);
      var _ := store.AddCheckpoint(mark.off, mark.pos);
    }

    /** Note every waiting checkpoint the fsync covers. */
    method Drain(target: nat) returns (drain: nat)
      requires Valid()
      modifies store, store.indexFile
      ensures Valid() && drain == Covered(pending, target)
      ensures store.Value() == NoteAll(store.nthIndex, old(store.Value()), pending, drain)
    {
      drain := 0;
      while drain < |pending| && pending[drain].ticket <= target
        invariant Valid() && drain <= |pending|
        invariant forall i :: 0 <= i < drain ==> pending[i].ticket <= target
        invariant store.Value() == NoteAll(store.nthIndex, old(store.Value()), pending, drain)
      {
        NoteNext(drain);
        drain := drain + 1;
      }
      CoveredFrom(pending, drain, target);
    }

    /** Commit by a writer that has the log to itself; `syncOk` is whether its fsync succeeds. */
    method CommitAlone(ticket: nat, syncOk: bool) returns (ok: bool)
      requires Valid() && !syncing && ticket <= writeSeq
      modifies this, file, store, store.indexFile
      ensures Valid()
      ensures ok ==> ticket <= syncedSeq
      ensures old(ticket <= syncedSeq) && !old(syncErr) ==> ok && Value() == old(Value())
      ensures old(syncErr) ==> !ok && Value() == old(Value())
      ensures old(ticket > syncedSeq) && !old(syncErr) ==>
                && ok == syncOk
                && Value() == SyncDone(store.nthIndex, old(Value()), old(writeSeq), old(|file.bytes|), syncOk)
    {
      var turn := TakeTurn(ticket);
      if turn.Return? {
        return turn.ok;
      }
      FinishSync(turn.target, |file.bytes|, syncOk);
      turn := TakeTurn(ticket);
      return turn.ok;
    }

    /** Close; `syncOk` is whether the final fsync, if there is one, succeeds. */
    method Close(syncOk: bool) returns (ok: bool)
      requires Valid()
      modifies this, file, store, store.indexFile
      ensures Valid() && ok == (old(writeSeq <= syncedSeq) || old(syncErr) || syncOk)
      ensures Value() == if ok then WalLog.Close(store.nthIndex, old(Value())) else old(Value())
    {
      if writeSeq > syncedSeq && !syncErr {
        if !syncOk {
          return false;
        }
        file.durable := |file.bytes|;
        DrainAll();
        pending := [];
        syncedSeq := writeSeq;
      }
      return true;
    }

    method DrainAll()
      requires Valid()
      modifies store, store.indexFile
      ensures Valid()
      ensures store.Value() == NoteAll(store.nthIndex, old(store.Value()), pending, |pending|)
    {
      for i := 0 to |pending|
        invariant Valid()
        invariant store.Value() == NoteAll(store.nthIndex, old(store.Value()), pending, i)
      {
        NoteNext(i);
      }
    }

    /** Load the checkpoints, scan the tail of the file and cut off a torn last record. */
    method Recover() returns (ok: bool)
      requires file != store.indexFile && store.n == 0
      requires size == nextOffset == writeSeq == syncedSeq == 0 && !syncing && !syncErr && pending == []
      requires |file.bytes| < TWO_63
      modifies this, file, store, store.indexFile
      ensures Valid()
      ensures Open(csum, old(file.bytes), old(file.durable), old(store.indexFile.bytes)) ==
              if ok then Opened(Value()) else OpenFailed
    {
      store.LoadCheckpoints();
      var off, pos := 0, 0;
      var last := store.Floor(TWO_64 - 1);
      if last.Some? && Trusted(csum, file.bytes, last.value) {
        off, pos := last.value.off, last.value.pos;
      }
      if pos < 0 || pos > |file.bytes| {
        return false;
      }
      ok := ScanTail(off, pos);
    }

    method ScanTail(from: nat, start: nat) returns (ok: bool)
      requires Valid() && start <= |file.bytes|
      modifies this, file
      ensures Valid() && unchanged(store) && unchanged(store.indexFile)
      ensures unchanged(`writeSeq, `syncedSeq, `syncing, `syncErr, `pending)
      ensures match Scan(HeaderSize(csum), old(file.bytes), start, from)
              case Corrupt(_) => !ok && unchanged(file)
              case Head(count, end) =>
                && ok && nextOffset == count && size == end && file.bytes == old(file.bytes)[..end]
                && file.durable == (if old(file.durable) < end then old(file.durable) else end)
    {
      var headerSize := HeaderSize(csum);
      var fileSize := |file.bytes|;
      var off, pos := from, start;
      while pos != fileSize
        invariant pos <= fileSize
        invariant Scan(headerSize, file.bytes, pos, off) == Scan(headerSize, file.bytes, start, from)
        decreases fileSize - pos
      {
        if pos + headerSize > fileSize {
          break;
        }
        var length := U32(file.bytes[pos..]);
        if length > MAX_RECORD {
          return false;
        }
        if pos + headerSize + length > fileSize {
          break;
        }
        pos, off := pos + headerSize + length, off + 1;
      }
      if pos < fileSize || file.durable > fileSize {
        file.Truncate(pos);
      } else {
        assert file.bytes[..pos] == file.bytes;
      }
      nextOffset := off;
      size := pos;
      return true;
    }
  }

  class WALReader {
    const file: File
    const csum: Checksum
    const store: InMemoryStore
    var offset: nat

    /** The index ascends, as it does in every state the log's invariant allows. */
    ghost predicate Valid()
      reads store, store.indexFile
    {
      store.Valid() && StrictlyRising(store.Entries())
    }

    constructor (file: File, store: InMemoryStore, csum: Checksum)
      ensures this.file == file && this.store == store && this.csum == csum && offset == 0
    {
      this.file, this.store, this.csum, offset := file, store, csum, 0;
    }

    /** Read the payload of the record at byte `pos` and check it against the stored checksum. */
    method Verify(pos: nat, length: nat) returns (r: ReadResult)
      requires pos + HeaderSize(csum) <= |file.bytes|
      ensures r == Verified(csum, file.bytes, pos, length)
    {
      var bytes, at := file.bytes, pos + HeaderSize(csum);
      if at + length > |bytes| {
        return ReadFailed;
      }
      var storedSum := bytes[pos + LENGTH_SIZE..at];
      var payload := bytes[at..at + length];
      if csum.compute(bytes[pos..pos + LENGTH_SIZE] + payload) != storedSum {
        return Corruption(pos);
      }
      return Data(payload);
    }

    method ReadAt(offset: nat) returns (r: ReadResult)
      requires Valid()
      ensures r == WalReading.ReadAt(csum, file.bytes, store.Entries(), offset)
    {
      var cur: nat, pos: int := 0, 0;
      var floor := store.Floor(offset);
      if floor.Some? {
        cur, pos := floor.value.off, floor.value.pos;
      }
      var headerSize := HeaderSize(csum);
      var bytes := file.bytes;
      ghost var result := ReadFrom(csum, bytes, cur, pos, offset);
      assert result == WalReading.ReadAt(csum, bytes, store.Entries(), offset);
      while true
        invariant ReadFrom(csum, bytes, cur, pos, offset) == result
        decreases |bytes| - pos
      {
        if pos < 0 {
          return ReadFailed;
        }
        if pos + headerSize > |bytes| {
          return Eof;
        }
        var length := U32(bytes[pos..]);
        if length > MAX_RECORD {
          return Corruption(pos);
        }
        if cur == offset {
          r := Verify(pos, length);
          return;
        }
        pos := pos + headerSize + length;
        cur := cur + 1;
      }
    }

    /** The record at the cursor; the cursor moves on by one exactly when there is one. */
    method Read() returns (r: ReadResult, at: nat)
      requires Valid()
      modifies this
      ensures at == old(offset)
      ensures r == WalReading.ReadAt(csum, file.bytes, store.Entries(), old(offset))
      ensures offset == if r.Data? then old(offset) + 1 else old(offset)
    {
      at := offset;
      r := ReadAt(offset);
      if r.Data? {
        offset := offset + 1;
      }
    }

    method Seek(to: nat)
      modifies this
      ensures offset == to
    {
      offset := to;
    }
  }
}
