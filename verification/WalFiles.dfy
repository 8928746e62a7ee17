/** Files, the checkpoint store, the log writer and the log reader as the source runs them: objects updated in
    place, each method proved to do what the functions on values say. */
module WalFiles {
  import opened Options
  import opened Bytes
  import opened CheckpointIndex

  /** A file opened for appending; `durable` is how much of it has been fsynced. */
  class File {
    var bytes: seq<byte>
    var durable: nat

    constructor (bytes: seq<byte>, durable: nat)
      ensures this.bytes == bytes && this.durable == durable
    {
      this.bytes, this.durable := bytes, durable;
    }

    method Write(buf: seq<byte>) returns (ok: bool)
      modifies this
      ensures ok == (old(|bytes|) + |buf| < TWO_63)
      ensures bytes == if ok then old(bytes) + buf else old(bytes)
      ensures durable == old(durable)
    {
      ok := |bytes| + |buf| < TWO_63;
      if ok {
        bytes := bytes + buf;
      }
    }

    method Truncate(size: nat)
      requires size <= |bytes|
      modifies this
      ensures bytes == old(bytes)[..size]
      ensures durable == if old(durable) < size then old(durable) else size
    {
      bytes := bytes[..size];
      if durable > size {
        durable := size;
      }
    }
  }

  // ---------- the checkpoint store ----------

  /** The index a binary search finds: entries before it are at or below the offset, the others above. */
  lemma {:induction false} FloorBefore(es: seq<Checkpoint>, i: nat, offset: nat)
    requires i <= |es|
    requires forall k :: 0 <= k < i ==> es[k].off <= offset
    requires forall k :: i <= k < |es| ==> es[k].off > offset
    ensures Floor(es, offset) == if i == 0 then Option.None else Option.Some(es[i - 1])
  {
    if i < |es| {
      FloorBefore(es[..|es| - 1], i, offset);
    }
  }

  /** The two columns of the store side by side. */
  function Zip(offsets: seq<Uint64>, positions: seq<Int64>): (es: seq<Checkpoint>)
    requires |offsets| == |positions|
    ensures |es| == |offsets| && forall i :: 0 <= i < |es| ==> es[i] == Checkpoint(offsets[i], positions[i])
  {
    seq(|offsets|, i requires 0 <= i < |offsets| => Checkpoint(offsets[i], positions[i]))
  }

  /** The map of these checkpoints: for each offset, the position noted last. */
  function IndexOf(es: seq<Checkpoint>): map<Uint64, Int64> {
    if es == [] then map[] else IndexOf(es[..|es| - 1])[es[|es| - 1].off := es[|es| - 1].pos]
  }

  lemma IndexAppend(es: seq<Checkpoint>, e: Checkpoint)
    ensures IndexOf(es + [e]) == IndexOf(es)[e.off := e.pos]
  {
    assert (es + [e])[..|es|] == es;
  }

  /** Where the map gets its entry for an offset from: the last checkpoint with that offset. */
  lemma {:induction false} IndexIsLast(es: seq<Checkpoint>, offset: Uint64) returns (i: int)
    ensures -1 <= i < |es| && (i >= 0 <==> offset in IndexOf(es))
    ensures i >= 0 ==> es[i] == Checkpoint(offset, IndexOf(es)[offset])
    ensures forall j :: i < j < |es| ==> es[j].off != offset
  {
    if es == [] {
      i := -1;
    } else if es[|es| - 1].off == offset {
      i := |es| - 1;
    } else {
      i := IndexIsLast(es[..|es| - 1], offset);
    }
  }

  lemma OneMoreSlot(es: seq<Checkpoint>, i: nat)
    requires i < |es| && StrictlyRising(es[..i]) && (i > 0 ==> Above(es[i], es[i - 1]))
    ensures es[..i + 1] == es[..i] + [es[i]] && StrictlyRising(es[..i + 1])
    ensures IndexOf(es[..i + 1]) == IndexOf(es[..i])[es[i].off := es[i].pos]
  {
    assert es[..i + 1] == es[..i] + [es[i]];
    RisingAppend(es[..i], es[i]);
    IndexAppend(es[..i], es[i]);
  }

  lemma ZipAppend(offsets: seq<Uint64>, positions: seq<Int64>, e: Checkpoint)
    requires |offsets| == |positions|
    ensures Zip(offsets + [e.off], positions + [e.pos]) == Zip(offsets, positions) + [e]
  {
  }

  class InMemoryStore {
    var offsets: seq<Uint64>
    var positions: seq<Int64>
    var index: map<Uint64, Int64>
    var n: nat
    const nthIndex: nat
    const indexFile: File

    ghost function Entries(): seq<Checkpoint>
      reads this
      requires |offsets| == |positions|
    {
      Zip(offsets, positions)
    }

    ghost predicate Valid()
      reads this, indexFile
    {
      |offsets| == |positions| && index == IndexOf(Entries()) && indexFile.bytes == EncodeAll(Entries())
    }

    ghost function Value(): Store
      reads this, indexFile
      requires Valid()
    {
      Store(Entries(), n)
    }

    constructor (indexFile: File, nthIndex: nat)
      ensures this.indexFile == indexFile && this.nthIndex == nthIndex && n == 0
      ensures offsets == [] && positions == []
    {
      this.indexFile, this.nthIndex := indexFile, nthIndex;
      offsets, positions, index, n := [], [], map[], 0;
    }

    /** Keep the longest rising run of whole slots and cut the file to it, whatever the file holds. */
    method LoadCheckpoints()
      modifies this, indexFile
      ensures Valid() && n == old(n)
      ensures Entries() == Load(old(indexFile.bytes)) && StrictlyRising(Entries())
      ensures indexFile.bytes == Healed(old(indexFile.bytes))
    {
      var size := |indexFile.bytes|;
      ReadSlots();
      HealedIsEncoding(indexFile.bytes);
      var wantSize := |offsets| * ENTRY_BYTES;
      if wantSize != size {
        indexFile.Truncate(wantSize);
      } else {
        assert indexFile.bytes[..wantSize] == indexFile.bytes;
      }
    }

    /** The loop over the slots, up to the first that does not rise. */
    method ReadSlots()
      modifies this
      ensures |offsets| == |positions| && Entries() == Load(indexFile.bytes) && n == old(n)
      ensures StrictlyRising(Entries()) && index == IndexOf(Entries())
    {
      var file := indexFile.bytes;
      var count := |file| / ENTRY_BYTES;
      offsets, positions, index := [], [], map[];
      ghost var slots := Slots(file);
      var i := 0;
      while i < count
        invariant 0 <= i <= count == |slots|
        invariant |offsets| == |positions| == i && Entries() == slots[..i]
        invariant StrictlyRising(slots[..i]) && index == IndexOf(slots[..i])
        invariant RiseFrom(slots, i) == RiseFrom(slots, 0)
        invariant n == old(n)
      {
        var e := Slot(file, i);
        assert e == slots[i];
        assert i > 0 ==> slots[i - 1] == Entries()[i - 1];
        if i > 0 && (e.off <= offsets[i - 1] || e.pos <= positions[i - 1]) {
          break;
        }
        OneMoreSlot(slots, i);
        ZipAppend(offsets, positions, e);
        offsets := offsets + [e.off];
        positions := positions + [e.pos];
        index := index[e.off := e.pos];
        i := i + 1;
      }
    }

    /** Binary search for the nearest checkpoint at or below the offset. */
    method Floor(offset: nat) returns (e: Option<Checkpoint>)
      requires Valid() && StrictlyRising(Entries())
      ensures e == CheckpointIndex.Floor(Entries(), offset)
    {
      var lo, hi := 0, |offsets|;
      ghost var es := Entries();
      while lo < hi
        invariant 0 <= lo <= hi <= |offsets|
        invariant forall k :: 0 <= k < lo ==> es[k].off <= offset
        invariant forall k :: hi <= k < |offsets| ==> es[k].off > offset
      {
        var mid := (lo + hi) / 2;
        if offsets[mid] > offset {
          forall k | mid <= k < |offsets| ensures es[k].off > offset {
            assert k > mid ==> Above(es[k], es[mid]);
          }
          hi := mid;
        } else {
          forall k | 0 <= k <= mid ensures es[k].off <= offset {
            assert k < mid ==> Above(es[mid], es[k]);
          }
          lo := mid + 1;
        }
      }
      FloorBefore(es, lo, offset);
      if lo == 0 {
        return None;
      }
      return Some(Checkpoint(offsets[lo - 1], positions[lo - 1]));
    }

    /** The position of an offset only if it is itself a checkpoint: the one noted last. */
    method Get(offset: Uint64) returns (pos: Option<Int64>)
      requires Valid()
      ensures pos.Some? ==> exists i :: 0 <= i < |offsets| && Entries()[i] == Checkpoint(offset, pos.value)
                                        && forall j :: i < j < |offsets| ==> Entries()[j].off != offset
      ensures pos.None? ==> forall e <- Entries() :: e.off != offset
    {
      ghost var i := IndexIsLast(Entries(), offset);
      if offset in index {
        return Some(index[offset]);
      }
      return None;
    }

    /** Called once per record; every nth call leaves a checkpoint, unless the index file cannot be written. */
    method AddCheckpoint(offset: Uint64, position: Int64) returns (ok: bool)
      requires Valid()
      modifies this, indexFile
      ensures Valid() && Value() == NoteEntry(nthIndex, old(Value()), Checkpoint(offset, position))
      ensures !ok <==> old(n) + 1 >= nthIndex && !HasRoom(old(Entries()))
    {
      ok := true;
      n := n + 1;
      if nthIndex > 0 && n < nthIndex {
        return;
      }
      n := 0;
      var e := Checkpoint(offset, position);
      IndexAppend(Entries(), e);
      EncodeAppend(Entries(), e);
      ZipAppend(offsets, positions, e);
      ok := indexFile.Write(EncodeEntry(e));
      if ok {
        offsets := offsets + [offset];
        positions := positions + [position];
        index := index[offset := position];
      }
    }
  }
}
