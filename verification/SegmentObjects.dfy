/** One segment as an object: a log writer and a log reader over the same files, the time of the last append, and the
    count of reads under way. */
module SegmentObjects {
  import opened Bytes
  import opened WalFormat
  import opened CheckpointIndex
  import opened WalReading
  import opened WalLog
  import opened WalFiles
  import opened WalWriter
  import opened Segments
  import WalSystem

  /** What a segment's object holds of the segment in the model: all but the callers and the history. */
  datatype Plain = Plain(base: nat, w: Wal, lastAppend: Time)

  function PlainOf(x: Seg): Plain {
    Plain(x.base, x.sys.w, x.lastAppend)
  }

  lemma OpenNothing(c: Checksum)
    ensures Open(c, [], 0, []) == Opened(WalSystem.EMPTY.w)
  {
    assert Load([]) == [];
  }

  class Segment {
    const base: nat
    const writer: WALWriter
    const reader: WALReader
    var lastAppend: Time
    var readers: nat

    /** The segment and everything it owns. */
    ghost function Repr(): set<object> {
      {this, writer, reader, writer.file, writer.store, writer.store.indexFile}
    }

    ghost predicate Valid()
      reads Repr()
    {
      && writer.Valid()
      && reader.file == writer.file && reader.store == writer.store && reader.csum == writer.csum
    }

    ghost function Value(): Plain
      requires Valid()
      reads Repr()
    {
      Plain(base, writer.Value(), lastAppend)
    }

    /** A segment that does not exist yet: new, empty files. */
    constructor (base: nat, now: Time, c: Checksum, nth: nat)
      ensures Valid() && fresh(Repr()) && readers == 0 && writer.csum == c && writer.store.nthIndex == nth
      ensures Value() == PlainOf(NewSegment(base, now))
    {
      var file := new File([], 0);
      var indexFile := new File([], 0);
      var store := new InMemoryStore(indexFile, nth);
      var w := new WALWriter(file, store, c);
      OpenNothing(c);
      var ok := w.Recover();
      var r := new WALReader(file, store, c);
      this.base, writer, reader, lastAppend, readers, recovered := base, w, r, now, 0, true;
    }

    /** A segment whose files exist: recover what they hold. `recovered` says whether that succeeded. */
    constructor Reopen(base: nat, file: File, indexFile: File, modTime: Time, c: Checksum, nth: nat)
      requires file != indexFile && |file.bytes| < TWO_63
      modifies file, indexFile
      ensures Valid() && fresh(Repr() - {file, indexFile}) && readers == 0
      ensures writer.csum == c && writer.store.nthIndex == nth && this.base == base && lastAppend == modTime
      ensures writer.file == file && writer.store.indexFile == indexFile
      ensures var opening := Open(c, old(file.bytes), old(file.durable), old(indexFile.bytes));
              recovered == opening.Opened? && (recovered ==> Value() == Plain(base, opening.wal, modTime))
    {
      var store := new InMemoryStore(indexFile, nth);
      var w := new WALWriter(file, store, c);
      var ok := w.Recover();
      var r := new WALReader(file, store, c);
      this.base, writer, reader, lastAppend, readers, recovered := base, w, r, modTime, 0, ok;
    }

    /** Whether recovery succeeded; the source returns the error instead. */
    const recovered: bool

    /** The first phase of an append. */
    method Reserve(data: seq<byte>, now: Time) returns (r: Reservation)
      requires Valid()
      modifies Repr()
      ensures Valid()
      ensures var (w, r') := WalLog.Reserve(writer.csum, old(Value()).w, data);
              r == r' && Value() == Plain(base, w, if r.Reserved? then now else old(lastAppend))
      ensures readers == old(readers)
    {
      r := writer.Reserve(data);
      if r.Reserved? {
        lastAppend := now;
      }
    }

    /** The second phase, up to the fsync and after it. */
    method TakeTurn(ticket: nat) returns (turn: Turn)
      requires Valid()
      modifies Repr()
      ensures Valid() && readers == old(readers)
      ensures var (w, turn') := CommitTurn(old(Value()).w, ticket);
              turn == turn' && Value() == old(Value()).(w := w)
    {
      turn := writer.TakeTurn(ticket);
    }

    method FinishSync(target: nat, flushed: nat, ok: bool)
      requires Valid()
      modifies Repr()
      ensures Valid() && readers == old(readers)
      ensures Value() == old(Value()).(w := SyncDone(writer.store.nthIndex, old(Value()).w, target, flushed, ok))
    {
      writer.FinishSync(target, flushed, ok);
    }

    /** Translate the global offset and read; an offset below the base is an error. */
    method ReadAt(offset: nat) returns (r: ReadResult)
      requires Valid() && StrictlyRising(Value().w.store.es)
      ensures r == if offset < base then ReadFailed
                   else WalReading.ReadAt(writer.csum, Value().w.bytes, Value().w.store.es, offset - base)
    {
      if offset < base {
        return ReadFailed;
      }
      r := reader.ReadAt(offset - base);
    }

    method AcquireRead()
      requires Valid()
      modifies this`readers
      ensures Valid() && Value() == old(Value()) && readers == old(readers) + 1
    {
      readers := readers + 1;
    }

    method ReleaseRead()
      requires Valid() && readers > 0
      modifies this`readers
      ensures Valid() && Value() == old(Value()) && readers == old(readers) - 1
    {
      readers := readers - 1;
    }

    /** Close the files; `syncOk` is whether the final fsync succeeds. */
    method Close(syncOk: bool) returns (ok: bool)
      requires Valid()
      modifies Repr()
      ensures Valid() && readers == old(readers)
      ensures var w := old(Value()).w;
              Value() == old(Value()).(w := if ok then WalLog.Close(writer.store.nthIndex, w) else w)
    {
      ok := writer.Close(syncOk);
    }
  }
}
